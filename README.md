# Church membership records: a verified model of the record layer

This project models the record layer of a small church-membership web
application in Dafny and proves properties about it.

- **Member service** (`src/services/memberService.js`):
  - every raw record is normalised to one canonical shape;
  - a case-insensitive search and a marital-status filter narrow the list;
  - list, lookup, create and update try the server first and fall back to the
    member array persisted in the browser.
- **List state** (`src/hooks/useMembers.js`):
  - the members on screen, a loading flag, an error message and the current
    filters;
  - delete, restore and permanent delete remove the member at once, then
    reload.
- **Member form** (`src/components/members/MemberForm.jsx`):
  - phone-number format;
  - age computed from the date of birth;
  - required fields, with the rule that minors give no marital status;
  - the three-step wizard;
  - the payload it submits.
- **Exports** (`src/services/exportService.js`):
  - the CSV text, with quoted cells and doubled quotes;
  - the PDF table rows;
  - the Excel rows;
  - the image format read from an avatar's data URI.
- **Select box** (`src/components/form/CustomSelect.jsx`): its open state, the
  keyboard focus, and the selected-option lookup.
- **Country picker** (`src/components/form/CountryPicker.jsx`): its search
  filter, the selected-country lookup, and the reset after a selection.

The modules are listed below in dependency order.

- `Wrappers` (`wrappers.dfy`): `Option`, `Result` and a pass/fail `Outcome`.
- `Text` (`text.dfy`): the ASCII string operations the code uses:
  - `toLowerCase` and `toUpperCase`;
  - `includes`;
  - `split(c)[0]`;
  - `join`;
  - decimal rendering of integers.
- `Seqs` (`seqs.dfy`): `filter`, `find` and `findIndex` over sequences, and an
  order-preserving subsequence relation.
- `Js` (`js.dfy`): the JavaScript values the records carry (strings, numbers,
  `NaN`), their truthiness, their `toString`, and the `x || ''` idiom.
- `MemberService` (`member_service.dfy`):
  - the record datatype;
  - `normalizeMember`;
  - `filterMembers`;
  - the class `MemberStore` over the persisted array, whose methods model the
    four service operations.
- `UseMembers` (`use_members.dfy`): the class `MembersHook`, with one field per
  piece of React state.
- `MemberForm` (`member_form.dfy`):
  - the validation functions;
  - the error-collecting loops;
  - the class `FormState` with the form's handlers.
- `ExportService` (`export_service.dfy`):
  - the CSV writer, and a CSV reader against which the round trip is proved;
  - the PDF and Excel row builders;
  - the data-URI format extraction.
- `CustomSelect` (`custom_select.dfy`): the class `SelectBox`.
- `CountryPicker` (`country_picker.dfy`): the class `Picker`.

Effects outside the code are parameters of the model:

- **Server calls.**
  - A `Reply` is an answer with data, an answer without data, or a thrown
    error.
  - The hook's calls are a fetch function plus a pass/fail `Outcome`.
- **Clock.** The current time is passed in:
  - `Date.now()` as a natural number;
  - `new Date().toISOString()` as a string;
  - "today" as a calendar date.
- **Persisted array.** It is the `records` field of `MemberStore`.

## Model

| member | source | states |
|---|---|---|
| Text.Includes | src/services/memberService.js:65-67 | `s.includes(sub)` is true exactly when `sub` occurs in `s` at some position |
| Text.BeforeFirst | src/services/memberService.js:44 | `s.split('T')[0]` is a prefix of `s` without `'T'`, followed in `s` by a `'T'` when it is shorter |
| Text.NatToString | src/services/memberService.js:153 | `n.toString()` is a non-empty string of digits whose decimal value is `n`, with no leading zero |
| Text.NatToStringInjective | src/services/memberService.js:153 | distinct clock values give distinct generated ids |
| Seqs.Filter | src/services/memberService.js:64-76 | `filter` keeps exactly the elements that pass the predicate, each as many times as it occurs in the input, and drops the others |
| Seqs.FilterIsSubsequence | src/services/memberService.js:64-76 | `filter` keeps the elements in their input order |
| Seqs.FindIndex | src/services/memberService.js:195 | `findIndex` returns the first passing index, or -1 exactly when no element passes |
| Seqs.Find | src/services/memberService.js:121 | `find` returns the first passing element, or nothing exactly when none passes |
| MemberService.CapitalizeFirst | src/services/memberService.js:35-38 | the result has the input's length and the same lower-case form, and a non-empty result is in title case |
| MemberService.CapitalizeIgnoresCase | src/services/memberService.js:35-38 | inputs that differ only in letter case capitalise identically |
| MemberService.CapitalizeFixesTitleCase | src/services/memberService.js:35-38 | a string already in title case is returned unchanged |
| MemberService.CanonicalMaritalStatuses | src/services/memberService.js:3-8 | any spelling of the four option values normalises to the option's label: Single, Married, Divorced, Widowed |
| MemberService.Normalize | src/services/memberService.js:40-55 | the result is in canonical shape; `id`, `createdAt` and `updatedAt` pass through unchanged |
| MemberService.NormalizeTextFields | src/services/memberService.js:42-49 | each text field and `age` keeps a truthy value; a missing or empty one becomes `''` (the `x \|\| ''` idiom, `Js.OrEmpty` and `Js.ValueOrEmpty`) |
| MemberService.NormalizedDatesAreCutAtT | src/services/memberService.js:44-51 | `dob` and `joiningDate` become the input up to its first `'T'` (all of it when there is none), or `''` when absent |
| MemberService.NormalizedMaritalStatus | src/services/memberService.js:50 | the status becomes its first character upper-cased and the rest lower-cased, or `''` when absent or empty |
| MemberService.NormalizedIffFixed | src/services/memberService.js:40-55 | a record is in canonical shape exactly when normalising it changes nothing |
| MemberService.NormalizeIdempotent | src/services/memberService.js:40-55 | normalising twice is the same as normalising once |
| MemberService.NormalizeAll | src/services/memberService.js:102-105 | `rows.map(normalizeMember)` has one normalised record per input row, in the same order |
| MemberService.FilterMembers | src/services/memberService.js:58-80 | the result holds exactly the records that pass the search (lower-cased substring of name, phone or residence) and the case-insensitive status test, each test applied only when its criterion is non-empty |
| MemberService.FilterMembersIsSubsequence | src/services/memberService.js:58-80 | the filtered list keeps the input's order |
| MemberService.FilterMembersNoCriteria | src/services/memberService.js:58-80 | with empty search and empty status the input comes back unchanged |
| MemberService.FilterMembersIsOneFilter | src/services/memberService.js:61-77 | the two filters applied in sequence are one filter by the conjunction of both tests |
| MemberService.FilterMembersComposes | src/services/memberService.js:61-77 | searching and then filtering by status gives the same list as filtering with both criteria at once |
| MemberService.FilterMembersIdempotent | src/services/memberService.js:58-80 | filtering an already filtered list again with the same criteria changes nothing |
| MemberService.LocalLookup | src/services/memberService.js:120-125 | finds the first stored record whose id equals the given id or its string form (`IdMatches`), normalised; fails with "Member not found" exactly when there is none |
| MemberService.LocalRecord | src/services/memberService.js:152-167 | a record created locally gets the clock's millisecond count as its id and the two clock readings as its timestamps; every data field is the payload's when it is truthy, and `''` otherwise; dates are not cut at `'T'` and the status is not capitalised at this point |
| MemberService.LocalCreateKeepsPayload | src/services/memberService.js:152-171 | apart from id and timestamps, the record a local create returns is the normalised payload |
| MemberService.Merge | src/services/memberService.js:199-204 | the merged record keeps the stored id and takes the new `updatedAt`; each of the twelve other fields is the payload's when the payload carries it, and the stored one otherwise |
| MemberService.FetchFindsLocalCreate | src/services/memberService.js:150-171 | a record created locally under a fresh id is what a later local lookup of that id returns |
| MemberService.FetchFindsLocalUpdate | src/services/memberService.js:195-205 | after a local update, looking up the same id returns the merged record |
| MemberService.MemberStore.constructor | src/services/memberService.js:18-25 | the store holds the array read back from storage |
| MemberService.MemberStore.FetchMembers | src/services/memberService.js:83-106 | the server's list is used only when it is a non-empty array; otherwise the result is the stored records that pass the filters, normalised; every row is normalised |
| MemberService.MemberStore.FetchMember | src/services/memberService.js:108-126 | the server's record, normalised, when it answers with one; otherwise the local lookup, which may fail with "Member not found" |
| MemberService.MemberStore.CreateMember | src/services/memberService.js:128-172 | appends exactly one record at the end and leaves earlier entries unchanged; the record is the server's answer normalised, or else the locally built record, whose normalised form is returned |
| MemberService.MemberStore.UpdateMember | src/services/memberService.js:174-208 | keeps the length. On a server answer it replaces the matching entry, if any, with the normalised answer stamped with the current time. Otherwise it replaces only the matching index with the merge, keeping the id. With no match it fails with "Member not found" and leaves the store unchanged |
| UseMembers.WithoutId | src/hooks/useMembers.js:44 | the optimistic list keeps exactly the members whose id differs from the target, each as many times as it occurs |
| UseMembers.OptimisticRemovalKeepsOrder | src/hooks/useMembers.js:44 | the optimistic removal keeps the other members in their original order, and removes nothing when no member has the id |
| UseMembers.MembersHook.constructor | src/hooks/useMembers.js:4-16 | initial state: no members, loading, no error, default filters |
| UseMembers.MembersHook.LoadMembers | src/hooks/useMembers.js:18-30 | loading ends false and the filters are unchanged; the given filters are used, or the current ones without them; success replaces the members and clears the error; failure keeps the members and sets the message, or "Failed to load members" when it is empty (`ErrorText`) |
| UseMembers.MembersHook.Reload | src/hooks/useMembers.js:37-39 | reload fetches with the current filters |
| UseMembers.MembersHook.SetFilters | src/hooks/useMembers.js:30-34 | new filters trigger a load with those filters |
| UseMembers.MembersHook.RemoveThenReload | src/hooks/useMembers.js:41-89 | the optimistic list is replaced by the reload result whenever the reload succeeds; a failed call sets its own message (or the operation's default) after the reload and is rethrown |
| UseMembers.MembersHook.DeleteMember | src/hooks/useMembers.js:41-55 | the shared shape, with every outcome's members and error stated, and "Failed to delete member" as the default message |
| UseMembers.MembersHook.RestoreMember | src/hooks/useMembers.js:57-71 | the shared shape, with every outcome's members and error stated, and "Failed to restore member" as the default message |
| UseMembers.MembersHook.PermanentlyDeleteMember | src/hooks/useMembers.js:73-89 | the shared shape, with every outcome's members and error stated, and "Failed to permanently delete member" as the default message |
| UseMembers.FailedDeleteShowsReloadedList | src/hooks/useMembers.js:50-53 | an example run from a fresh hook: after a failed deletion whose reload succeeds, the screen shows exactly the reloaded list, and the deletion's error survives the reload |
| MemberForm.Values.Set | src/components/members/MemberForm.jsx:157 | `{ ...prev, [name]: value }` changes the named field and no other |
| MemberForm.InitialValues | src/components/members/MemberForm.jsx:13-28 | every field takes its initial value when one is given, and `''` otherwise |
| MemberForm.IsValidPhone | src/components/members/MemberForm.jsx:11 | a phone number is valid exactly when it is 9 to 15 digits, optionally preceded by one `+` |
| MemberForm.PhoneAccepted | src/components/members/MemberForm.jsx:11 | every optional `+` followed by 9 to 15 digits is accepted |
| MemberForm.CompletedYears | src/components/members/MemberForm.jsx:40-44 | the year difference, less one before this year's birthday, is the number of birthdays reached: the n-th is on or before today, the (n+1)-th after it |
| MemberForm.ParseIsoDate | src/components/members/MemberForm.jsx:38 | a date exactly when the text has the `YYYY-MM-DD` shape with a month 1..12 and a day 1..31; the date is a calendar date in the year written, and a day past the end of its month carries into the next month |
| MemberForm.RollOver | src/components/members/MemberForm.jsx:38 | a day number up to 31 is read as a calendar date of the same year, and as the date written when that date exists |
| MemberForm.RollOverKeepsDayCount | src/components/members/MemberForm.jsx:38 | the date read is the n-th day counted from the first of the month written, so rolling over moves no day |
| MemberForm.ParseIsoDateOfText | src/components/members/MemberForm.jsx:38 | reading the `YYYY-MM-DD` text of any calendar date of years 0..9999 gives that date back |
| MemberForm.AgeFromDob | src/components/members/MemberForm.jsx:36-46 | a non-empty result is the positive number of completed years, without leading zeros; `''` exactly when the date is empty or unreadable, or that number is not positive |
| MemberForm.CalculateAgeFromDob | src/components/members/MemberForm.jsx:36-46 | the decrementing computation returns the text of the number of completed years |
| MemberForm.ValidateAgeAndDob | src/components/members/MemberForm.jsx:49-56 | reports the mismatch message exactly when age and date are both given, the date yields an age, and it differs from the entered age |
| MemberForm.NumberValue | src/components/members/MemberForm.jsx:217 | `Number('')` is 0, a string of digits reads as its decimal value, and any other text is not a number |
| MemberForm.NoFieldErrorMeansValid | src/components/members/MemberForm.jsx:85-123 | a form with no field errors satisfies every validation rule |
| MemberForm.ValidMeansNoFieldError | src/components/members/MemberForm.jsx:85-123 | a form that satisfies every rule has no error on any field |
| MemberForm.ValidIffNoFieldError | src/components/members/MemberForm.jsx:85-123 | the form is valid exactly when no field has an error |
| MemberForm.RequiredErrors | src/components/members/MemberForm.jsx:87-99 | the loop over the required fields flags exactly the required fields that are empty, each with "This field is required" |
| MemberForm.AssembleIsFieldErrors | src/components/members/MemberForm.jsx:101-119 | the later checks, each overwriting earlier entries, leave on each field exactly the error the rules assign it |
| MemberForm.CollectErrors | src/components/members/MemberForm.jsx:85-123 | the error dictionary holds an entry for exactly the fields with an error, with its message; it is empty exactly when the form is valid |
| MemberForm.StepErrors | src/components/members/MemberForm.jsx:176-189 | the errors of a step (its fields as `StepFields` lists them) flag exactly its non-optional empty fields, each with "This field is required"; the optional ones are alternate phone, avatar, age, and marital status for a minor |
| MemberForm.SubmitPayload | src/components/members/MemberForm.jsx:217-220 | the payload carries every value as entered, except that age becomes a number and a minor (`IsMinor`: age between 0 and 18 exclusive) gets an empty marital status |
| MemberForm.MinorStoredWithoutStatus | src/components/members/MemberForm.jsx:217-220 | a minor (`IsMinor`) has their record stored with an empty marital status, whatever was entered |
| MemberForm.FormState.constructor | src/components/members/MemberForm.jsx:27-31 | a fresh form is on step 1, with the initial values, no errors, and not submitting |
| MemberForm.FormState.HandleChange | src/components/members/MemberForm.jsx:153-173 | only the named field changes, except that a new date of birth also sets the age when one can be computed from it; an error shown on the field is blanked |
| MemberForm.FormState.Validate | src/components/members/MemberForm.jsx:85-123 | records exactly the fields with an error, each with its message, and returns true exactly when the form is valid |
| MemberForm.FormState.HandleNext | src/components/members/MemberForm.jsx:175-199 | with a missing field, stays on the step and shows exactly the missing fields, each with "This field is required"; otherwise advances unless on step 3; the step stays within 1..3 |
| MemberForm.FormState.HandlePrev | src/components/members/MemberForm.jsx:201-205 | steps back unless on step 1 |
| MemberForm.FormState.HandleSubmit | src/components/members/MemberForm.jsx:207-226 | submits exactly when the form is valid, and then the payload; records every field error with its message; always ends not submitting |
| ExportService.EscapeCounts | src/services/exportService.js:135 | doubling the quotes (`Escape`) adds one character per quote, and leaves a quote-free string unchanged |
| ExportService.HeaderCells | src/services/exportService.js:131 | one header cell per column, in column order: the header wrapped in double quotes, not escaped |
| ExportService.RowValues | src/services/exportService.js:133-134 | one value per column, in column order |
| ExportService.CsvRows | src/services/exportService.js:132-137 | one CSV line per item, in item order |
| ExportService.CellRoundTrip | src/services/exportService.js:135 | reading a written cell back, dropping its outer quotes and collapsing doubled quotes, gives the original text |
| ExportService.ReadEscaped | src/services/exportService.js:135 | the escaped text followed by a closing quote reads back as the text, whatever non-quote input follows |
| ExportService.ReadQuotedLine | src/services/exportService.js:133-136 | a line of quoted cells joined by commas reads back as its cells |
| ExportService.ReadQuotedLines | src/services/exportService.js:132-137 | lines joined by `\n` read back as their records |
| ExportService.CsvRoundTrip | src/services/exportService.js:130-139 | reading the CSV text (`ExportCsv`) back gives the header row followed by one row per item holding each column's text, the value's string form or `''` for a missing or falsy value (`CellText`); this holds when there is a column and no header contains a quote |
| ExportService.TableColumn | src/services/exportService.js:36 | the PDF header row is "No.", "Photo", then the column headers |
| ExportService.PdfCell | src/services/exportService.js:41 | a PDF cell is the item's value when truthy, and the dash placeholder otherwise; it is never empty |
| ExportService.TableRows | src/services/exportService.js:38-42 | body row i is i+1, an empty photo cell, then one cell per column; it is exactly as wide as the header row |
| ExportService.RowOfIsExcelRow | src/services/exportService.js:111-117 | the Excel row's keys are exactly the column headers, and each maps to the value of the last column with that header, or `''` when that value is missing or falsy (`ExcelValue`) |
| ExportService.ExcelRow | src/services/exportService.js:112-116 | the loop filling the row builds the row specified by the column fold |
| ExportService.ExcelRows | src/services/exportService.js:111-117 | one Excel row per item, in order |
| ExportService.FormatRun | src/services/exportService.js:80 | the longest prefix made only of letters and `+` |
| ExportService.FormatGroup | src/services/exportService.js:80 | the captured group is present exactly when the avatar is `data:image/` followed by a non-empty run of letters and `+` and then `;base64,` |
| ExportService.ImageFormatOfDataUri | src/services/exportService.js:80-81 | for `data:image/<fmt>;base64,...`, the format (`ImageFormat`) is `<fmt>` upper-cased |
| ExportService.PhotoFormatOfDataUri | src/services/exportService.js:73-82 | the photo cell of an avatar holding a base64 image data URI is drawn (`PhotoFormat`), in the URI's format upper-cased |
| CustomSelect.SelectedOption | src/components/form/CustomSelect.jsx:21 | the selected option is the first whose value equals the current value, or none exactly when no option has it |
| CustomSelect.DisplayText | src/components/form/CustomSelect.jsx:115-116 | shows the placeholder when no option matches, and otherwise the label of the first match |
| CustomSelect.FirstMatchUnique | src/components/form/CustomSelect.jsx:21 | the first option holding the current value is the option selected |
| CustomSelect.FocusDown | src/components/form/CustomSelect.jsx:52-54 | ArrowDown moves the focus one option down while it is above the last option, and keeps it in -1..n-1 |
| CustomSelect.DownTimesClamps | src/components/form/CustomSelect.jsx:52-54 | k presses of ArrowDown move the focus k options down, but no further than the last option |
| CustomSelect.UpTimesClamps | src/components/form/CustomSelect.jsx:58 | k presses of ArrowUp (`FocusUp`) move the focus k options up, stopping at -1 |
| CustomSelect.SelectBox.constructor | src/components/form/CustomSelect.jsx:16-17 | a new select box is closed, with no focused option |
| CustomSelect.SelectBox.HandleSelect | src/components/form/CustomSelect.jsx:85-95 | emits an event carrying the select's name and the option's value, then closes with no focused option |
| CustomSelect.SelectBox.ToggleDropdown | src/components/form/CustomSelect.jsx:97-100 | flips the open state and clears the focus |
| CustomSelect.SelectBox.ClickOutside | src/components/form/CustomSelect.jsx:24-33 | a press outside closes the list and clears the focus |
| CustomSelect.SelectBox.MouseEnter | src/components/form/CustomSelect.jsx:150 | hovering an option focuses it |
| CustomSelect.SelectBox.HandleKey | src/components/form/CustomSelect.jsx:46-73 | keys do nothing while closed. ArrowDown and ArrowUp move the focus within -1..n-1. Enter selects the focused option only when there is one. Escape closes with no focus. Other keys change nothing |
| CustomSelect.PressDownThenEnter | src/components/form/CustomSelect.jsx:50-64 | opening the list, pressing ArrowDown k times and then Enter selects the k-th option, or the last when k runs past the end, and selects nothing when k is 0 |
| CountryPicker.FilteredCountries | src/components/form/CountryPicker.jsx:36-40 | the list shows exactly the countries whose lower-cased name or nationality contains the lower-cased search, or whose dial code contains the raw search, each as many times as it occurs |
| CountryPicker.FilteredKeepsOrder | src/components/form/CountryPicker.jsx:36-40 | the filtered list keeps the countries' order |
| CountryPicker.EmptySearchListsAll | src/components/form/CountryPicker.jsx:36-40 | an empty search lists every country |
| CountryPicker.LongerSearchNarrows | src/components/form/CountryPicker.jsx:36-40 | extending the search text keeps only countries that the shorter search also listed, in the same order |
| CountryPicker.SelectedCountry | src/components/form/CountryPicker.jsx:22-24 | the selected country is the first whose nationality (for a nationality picker) or name equals the value, or none exactly when none does |
| CountryPicker.SelectThenShow | src/components/form/CountryPicker.jsx:22-24 | passing a chosen country's nationality (or name) back as the value shows that country, provided no earlier country shares it |
| CountryPicker.Picker.constructor | src/components/form/CountryPicker.jsx:18-19 | a new picker is closed, with an empty search |
| CountryPicker.Picker.Shown | src/components/form/CountryPicker.jsx:36-40 | the list shows exactly the countries in the list that match the search, each as many times as it occurs |
| CountryPicker.Picker.HandleSelect | src/components/form/CountryPicker.jsx:42-46 | hands the chosen country on, closes the list and clears the search, so that the full list shows again |
| CountryPicker.Picker.Toggle | src/components/form/CountryPicker.jsx:76-78 | a click on the trigger flips the open state and keeps the search |
| CountryPicker.Picker.SetSearch | src/components/form/CountryPicker.jsx:115 | typing sets the search text and keeps the open state |
| CountryPicker.Picker.ClickOutside | src/components/form/CountryPicker.jsx:27-33 | a press outside closes the list and keeps the search |

## Left out

- HTTP transport (`apiClient`) is not part of this model. A remote call is a `Reply`: data, an answer without data, or a thrown error.
- `fetchMembers` receives a list. A remote `data` that is not an array also falls back to storage; this model does not express it.
- `localStorage` reads and writes, and JSON encoding and parsing, are not modelled.
  - The persisted array is the `records` field of `MemberStore`.
  - A missing or unparsable entry reads as the empty sequence the constructor is given.
  - A failed write is not modelled.
- The code falls back to local storage on every remote failure, including error answers from a reachable server. The model follows the code.
- The code does not keep "failed to fetch" messages out of the hook's error state. The model follows the code.
- Clocks: `Date.now()`, `new Date().toISOString()` and today's date are parameters. A local create reads the clock three times, and each reading is its own parameter.
- ExportService.RowOf: the Excel row is a map, so the key order that `json_to_sheet` turns into column order is not modelled.
- Time zones are not modelled: `new Date(dob)` is read as a `YYYY-MM-DD` calendar date, with a day past the end of its month carried into the next month as V8 does.
- Numbers in records are integers only. Fractional numbers and their `toString` are not modelled.
- Case mapping: `toLowerCase` and `toUpperCase` cover ASCII letters only.
- `MemberForm.NumberValue`: `Number()` of fractional, signed, exponent or whitespace-padded text is not modelled; such text reads as `NaN`.
- `deleteMember`, `restoreMember`, `permanentlyDeleteMember` and `fetchStats` are not defined by the service in the code, so those calls always throw. The hook's operations take the call's outcome as a parameter, and the deletion flag and trash list are not modelled.
- The service ignores the filters `minAge`, `maxAge` and `trash`, so they only pass through to the server.
- React is not modelled:
  - rendering;
  - the effect that re-applies changed `initialValues` (MemberForm.jsx:64-69);
  - the effect that clears the marital status when the age drops below 18 (MemberForm.jsx:72-83). The payload-level rule is modelled instead, by `SubmitPayload` and `MinorStoredWithoutStatus`;
  - the order of state updates within one render.
- Asynchronous interleaving of overlapping calls is not modelled. Each operation runs to completion before the next one starts.
- Export rendering is not modelled:
  - jsPDF layout, fonts and image drawing;
  - XLSX workbook writing;
  - the `Blob` and download link;
  - the date-stamped file names;
  - the SweetAlert error dialog.
- A payload key explicitly set to `undefined` is treated as absent. The spread merge then keeps the stored value for that key, whereas JavaScript overwrites it.
- ExportService.CsvRoundTrip: the round trip is proved only for headers without a double quote. The code writes headers without escaping them, so a header containing one does not read back.
- CustomSelect.SelectBox.MouseEnter: its precondition requires the list to be open and the index to be in range, since options are rendered, and can be hovered, only while the list is open.
- Documents, page components and the remaining form inputs are not part of this model.
