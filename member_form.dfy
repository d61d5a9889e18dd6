/** The member registration/edit form of
    `src/components/members/MemberForm.jsx`: its phone-number check, age
    from date of birth, validation rules, the three-step wizard and the
    payload it submits. */
module MemberForm {

  import opened Wrappers
  import opened Text
  import opened Js
  import MemberService

  /** The form's fields, in the order of `defaultValues`. */
  datatype Field =
    | FullName | Age | Dob | Residence | GpsAddress | PhoneNumber
    | AltPhoneNumber | Nationality | MaritalStatus | JoiningDate | Avatar

  /** The text of every field, as the inputs hold it. */
  datatype Values = Values(
    fullName: string, age: string, dob: string, residence: string,
    gpsAddress: string, phoneNumber: string, altPhoneNumber: string,
    nationality: string, maritalStatus: string, joiningDate: string,
    avatar: string)
  {
    /** `values[field]`. */
    function Get(f: Field): string
    {
      match f
      case FullName => fullName
      case Age => age
      case Dob => dob
      case Residence => residence
      case GpsAddress => gpsAddress
      case PhoneNumber => phoneNumber
      case AltPhoneNumber => altPhoneNumber
      case Nationality => nationality
      case MaritalStatus => maritalStatus
      case JoiningDate => joiningDate
      case Avatar => avatar
    }

    /** `{ ...values, [field]: v }`. */
    function Set(f: Field, v: string): (r: Values)
      ensures r.Get(f) == v
      ensures forall g :: g != f ==> r.Get(g) == Get(g)
    {
      match f
      case FullName => this.(fullName := v)
      case Age => this.(age := v)
      case Dob => this.(dob := v)
      case Residence => this.(residence := v)
      case GpsAddress => this.(gpsAddress := v)
      case PhoneNumber => this.(phoneNumber := v)
      case AltPhoneNumber => this.(altPhoneNumber := v)
      case Nationality => this.(nationality := v)
      case MaritalStatus => this.(maritalStatus := v)
      case JoiningDate => this.(joiningDate := v)
      case Avatar => this.(avatar := v)
    }
  }

  /** `{ ...defaultValues, ...initialValues }`. */
  function InitialValues(initial: map<Field, string>): (r: Values)
    ensures forall f :: r.Get(f) == if f in initial then initial[f] else ""
  {
    var pick := (f: Field) => if f in initial then initial[f] else "";
    Values(pick(FullName), pick(Age), pick(Dob), pick(Residence), pick(GpsAddress),
           pick(PhoneNumber), pick(AltPhoneNumber), pick(Nationality), pick(MaritalStatus),
           pick(JoiningDate), pick(Avatar))
  }

  const Required: string := "This field is required"
  const InvalidPhone: string := "Invalid phone number format"
  const AgeMismatch: string := "Age and Date of Birth do not match. Please ensure they are consistent."

  // ---------------------------------------------------------------------
  // Phone numbers

  /** `phoneRegex.test(s)` for `/^\+?\d{9,15}$/`. */
  function IsValidPhone(s: string): (r: bool)
    ensures r <==>
      || (AllDigits(s) && 9 <= |s| <= 15)
      || (|s| > 0 && s[0] == '+' && AllDigits(s[1..]) && 9 <= |s| - 1 <= 15)
  {
    var digits := if |s| > 0 && s[0] == '+' then s[1..] else s;
    assert |s| > 0 && s[0] == '+' ==> !AllDigits(s);
    9 <= |digits| <= 15 && AllDigits(digits)
  }

  /** Every optional '+' followed by 9 to 15 digits is accepted. */
  lemma PhoneAccepted(plus: bool, digits: string)
    requires AllDigits(digits) && 9 <= |digits| <= 15
    ensures IsValidPhone((if plus then "+" else "") + digits)
  {
    if plus {
      assert ("+" + digits)[1..] == digits;
    } else {
      assert "" + digits == digits;
    }
  }

  // ---------------------------------------------------------------------
  // Age from date of birth

  /** A calendar date; months and days count from 1. */
  datatype Date = Date(year: int, month: int, day: int)

  /** `a` is not later than `b`. */
  predicate OnOrBefore(a: Date, b: Date)
  {
    a.year < b.year || (a.year == b.year && (a.month < b.month || (a.month == b.month && a.day <= b.day)))
  }

  /** The `n`-th birthday of someone born on `birth`. */
  function Anniversary(birth: Date, n: int): Date
  {
    Date(birth.year + n, birth.month, birth.day)
  }

  /** The number of birthdays reached by `today`: the year difference, less
      one when this year's birthday is still to come. */
  function CompletedYears(birth: Date, today: Date): (n: int)
    ensures OnOrBefore(Anniversary(birth, n), today)
    ensures !OnOrBefore(Anniversary(birth, n + 1), today)
  {
    var years := today.year - birth.year;
    if today.month < birth.month || (today.month == birth.month && today.day < birth.day) then years - 1 else years
  }

  predicate IsLeapYear(year: int)
  {
    (year % 4 == 0 && year % 100 != 0) || year % 400 == 0
  }

  /** The length of `month` in `year` of the Gregorian calendar. */
  function DaysInMonth(year: int, month: int): (n: int)
    ensures 28 <= n <= 31
  {
    if month == 2 then (if IsLeapYear(year) then 29 else 28)
    else if month == 4 || month == 6 || month == 9 || month == 11 then 30
    else 31
  }

  /** A date that exists in the calendar. */
  predicate IsCalendarDate(d: Date)
  {
    1 <= d.month <= 12 && 1 <= d.day <= DaysInMonth(d.year, d.month)
  }

  /** The days of `year` before the first of `month`. */
  function DaysBefore(year: int, month: int): int
    decreases month
  {
    if month <= 1 then 0 else DaysBefore(year, month - 1) + DaysInMonth(year, month - 1)
  }

  /** The position of a date within its year, counting 1 January as day 1. */
  function DayOfYear(d: Date): int
  {
    DaysBefore(d.year, d.month) + d.day
  }

  /** How `new Date('YYYY-MM-DD')` reads a day number up to 31 that runs past
      the end of its month: the surplus days carry into the next month. */
  function RollOver(year: int, month: int, day: int): (r: Date)
    requires 1 <= month <= 12 && 1 <= day <= 31
    ensures IsCalendarDate(r) && r.year == year
    ensures day <= DaysInMonth(year, month) ==> r == Date(year, month, day)
  {
    if day <= DaysInMonth(year, month) then Date(year, month, day)
    else Date(year, month + 1, day - DaysInMonth(year, month))
  }

  /** Rolling over moves no day: the date read is the `day`-th day counted
      from the first of the month written. */
  lemma RollOverKeepsDayCount(year: int, month: int, day: int)
    requires 1 <= month <= 12 && 1 <= day <= 31
    ensures DayOfYear(RollOver(year, month, day)) == DaysBefore(year, month) + day
  {
    if day > DaysInMonth(year, month) {
      assert DaysBefore(year, month + 1) == DaysBefore(year, month) + DaysInMonth(year, month);
    }
  }

  /** The text has the `YYYY-MM-DD` shape of a date input's value, with a
      month 1..12 and a day 1..31. */
  predicate IsIsoDateText(s: string)
  {
    && |s| == 10 && s[4] == '-' && s[7] == '-'
    && AllDigits(s[..4]) && AllDigits(s[5..7]) && AllDigits(s[8..])
    && 1 <= DecimalValue(s[5..7]) <= 12 && 1 <= DecimalValue(s[8..]) <= 31
  }

  /** The reading of a date input's value, `YYYY-MM-DD`: the date written,
      with a day past the end of its month carried into the next month. */
  function ParseIsoDate(s: string): (r: Option<Date>)
    ensures r.Some? <==> IsIsoDateText(s)
    ensures r.Some? ==> IsCalendarDate(r.value) && r.value.year == DecimalValue(s[..4])
    ensures r.Some? ==> r.value == RollOver(DecimalValue(s[..4]), DecimalValue(s[5..7]), DecimalValue(s[8..]))
  {
    if IsIsoDateText(s)
    then Some(RollOver(DecimalValue(s[..4]), DecimalValue(s[5..7]), DecimalValue(s[8..])))
    else None
  }

  function Pow10(n: nat): (r: nat)
    ensures r >= 1
  {
    if n == 0 then 1 else 10 * Pow10(n - 1)
  }

  /** `n` in exactly `width` decimal digits, padded with zeros. */
  function PaddedDigits(n: nat, width: nat): (r: string)
    requires n < Pow10(width)
    ensures |r| == width && AllDigits(r) && DecimalValue(r) == n
  {
    if width == 0 then ""
    else
      var r := PaddedDigits(n / 10, width - 1) + [DigitChar(n % 10)];
      assert r[..|r| - 1] == PaddedDigits(n / 10, width - 1);
      r
  }

  /** The value a date input holds for a calendar date. */
  function IsoText(d: Date): string
    requires IsCalendarDate(d) && 0 <= d.year < 10000
  {
    PaddedDigits(d.year, 4) + "-" + PaddedDigits(d.month, 2) + "-" + PaddedDigits(d.day, 2)
  }

  /** Reading the text of a calendar date gives that date back. */
  lemma ParseIsoDateOfText(d: Date)
    requires IsCalendarDate(d) && 0 <= d.year < 10000
    ensures ParseIsoDate(IsoText(d)) == Some(d)
  {
    var y, m, dd := PaddedDigits(d.year, 4), PaddedDigits(d.month, 2), PaddedDigits(d.day, 2);
    var s := IsoText(d);
    assert s[..4] == y && s[5..7] == m && s[8..] == dd;
  }

  /** What `calculateAgeFromDOB(dob)` yields on `today`: the number of
      completed years as text, or `''` when there is no readable date of
      birth or that number is not positive. */
  function AgeFromDob(dob: string, today: Date): (r: string)
    ensures r != "" ==> && dob != "" && ParseIsoDate(dob).Some?
                        && AllDigits(r) && r[0] != '0'
                        && DecimalValue(r) == CompletedYears(ParseIsoDate(dob).value, today) > 0
    ensures r == "" ==> dob == "" || ParseIsoDate(dob).None? || CompletedYears(ParseIsoDate(dob).value, today) <= 0
  {
    if dob == "" then ""
    else match ParseIsoDate(dob)
      case None => ""
      case Some(birth) =>
        var n := CompletedYears(birth, today);
        if n > 0 then NatToString(n) else ""
  }

  /** `calculateAgeFromDOB(dob)`. */
  method CalculateAgeFromDob(dob: string, today: Date) returns (ageText: string)
    ensures ageText == AgeFromDob(dob, today)
  {
    if dob == "" {
      return "";
    }
    var parsed := ParseIsoDate(dob);
    if parsed.None? {
      return "";
    }
    var birthDate := parsed.value;
    var age := today.year - birthDate.year;
    var monthDiff := today.month - birthDate.month;
    if monthDiff < 0 || (monthDiff == 0 && today.day < birthDate.day) {
      age := age - 1;
    }
    ageText := if age > 0 then NatToString(age) else "";
  }

  /** The entered age and the date of birth disagree: both are given, the
      date yields an age, and it is not the entered one. */
  predicate AgeDisagrees(age: string, dob: string, today: Date)
  {
    age != "" && dob != "" && AgeFromDob(dob, today) != "" && AgeFromDob(dob, today) != age
  }

  /** `validateAgeAndDOB(age, dob)`. */
  method ValidateAgeAndDob(age: string, dob: string, today: Date) returns (err: Option<string>)
    ensures err.Some? <==> AgeDisagrees(age, dob, today)
    ensures err.Some? ==> err.value == AgeMismatch
  {
    if age == "" || dob == "" {
      return None;
    }
    var calculatedAge := CalculateAgeFromDob(dob, today);
    if calculatedAge != "" && calculatedAge != age {
      return Some(AgeMismatch);
    }
    return None;
  }

  /** `Number(s)` for the texts the model reads: `''` is 0, a string of
      digits its value; anything else is `NaN` here. */
  function NumberValue(s: string): (r: Option<nat>)
    ensures s == "" ==> r == Some(0)
    ensures AllDigits(s) ==> r == Some(DecimalValue(s))
    ensures !AllDigits(s) ==> r.None?
  {
    if s == "" then Some(0) else if AllDigits(s) then Some(DecimalValue(s)) else None
  }

  /** `isMinor`: the age, read as a number, is between 0 and 18
      exclusive. */
  predicate IsMinor(v: Values)
  {
    var n := NumberValue(v.age);
    n.Some? && 0 < n.value < 18
  }

  // ---------------------------------------------------------------------
  // Validation

  /** The fields `validate` requires. */
  const RequiredFields: seq<Field> := [FullName, Dob, PhoneNumber, Residence, GpsAddress, Nationality, JoiningDate]

  /** The outcome of the checks `validate` makes beyond "is it filled
      in". */
  datatype Checks = Checks(minor: bool, phoneBad: bool, altPhoneBad: bool, ageDisagrees: bool)

  function ChecksOf(v: Values, today: Date): Checks
  {
    Checks(
      minor := IsMinor(v),
      phoneBad := v.phoneNumber != "" && !IsValidPhone(v.phoneNumber),
      altPhoneBad := v.altPhoneNumber != "" && !IsValidPhone(v.altPhoneNumber),
      ageDisagrees := AgeDisagrees(v.age, v.dob, today))
  }

  /** The error recorded for field `f`, given the outcome of the checks. */
  function ErrorFor(v: Values, c: Checks, f: Field): Option<string>
  {
    match f
    case FullName | Residence | GpsAddress | Nationality | JoiningDate =>
      if v.Get(f) == "" then Some(Required) else None
    case PhoneNumber =>
      if v.phoneNumber == "" then Some(Required)
      else if c.phoneBad then Some(InvalidPhone) else None
    case AltPhoneNumber =>
      if c.altPhoneBad then Some(InvalidPhone) else None
    case Dob =>
      if c.ageDisagrees then Some(AgeMismatch)
      else if v.dob == "" then Some(Required) else None
    case Age =>
      if c.ageDisagrees then Some(AgeMismatch) else None
    case MaritalStatus =>
      if !c.minor && v.maritalStatus == "" then Some(Required) else None
    case Avatar => None
  }

  /** The error `validate` records for field `f`, if any. */
  function FieldError(v: Values, f: Field, today: Date): Option<string>
  {
    ErrorFor(v, ChecksOf(v, today), f)
  }

  /** The form may be submitted: the seven required fields are filled in,
      an adult has a marital status, the phone numbers are well-formed and
      the age agrees with the date of birth. */
  predicate FormIsValid(v: Values, today: Date)
  {
    && (forall i :: 0 <= i < |RequiredFields| ==> v.Get(RequiredFields[i]) != "")
    && (IsMinor(v) || v.maritalStatus != "")
    && IsValidPhone(v.phoneNumber)
    && (v.altPhoneNumber == "" || IsValidPhone(v.altPhoneNumber))
    && !AgeDisagrees(v.age, v.dob, today)
  }

  /** A form without field errors is valid. */
  lemma NoFieldErrorMeansValid(v: Values, today: Date)
    requires forall f :: FieldError(v, f, today).None?
    ensures FormIsValid(v, today)
  {
    forall i | 0 <= i < |RequiredFields| ensures v.Get(RequiredFields[i]) != "" {
      assert FieldError(v, RequiredFields[i], today).None?;
    }
    assert FieldError(v, PhoneNumber, today).None?;
    assert FieldError(v, AltPhoneNumber, today).None?;
    assert FieldError(v, MaritalStatus, today).None?;
    assert FieldError(v, Age, today).None?;
  }

  /** A valid form has no field errors. */
  lemma ValidMeansNoFieldError(v: Values, today: Date, f: Field)
    requires FormIsValid(v, today)
    ensures FieldError(v, f, today).None?
  {
    if IsRequired(f) {
      RequiredFieldsAreRequired(f);
      var i :| 0 <= i < |RequiredFields| && RequiredFields[i] == f;
      assert v.Get(f) != "";
    }
  }

  /** The form is valid exactly when no field has an error. */
  lemma ValidIffNoFieldError(v: Values, today: Date)
    ensures FormIsValid(v, today) <==> forall f :: FieldError(v, f, today).None?
  {
    if forall f :: FieldError(v, f, today).None? {
      NoFieldErrorMeansValid(v, today);
    }
    if FormIsValid(v, today) {
      forall f ensures FieldError(v, f, today).None? {
        ValidMeansNoFieldError(v, today, f);
      }
    }
  }

  /** Membership in `RequiredFields`. */
  predicate IsRequired(f: Field)
  {
    !(f.Age? || f.AltPhoneNumber? || f.MaritalStatus? || f.Avatar?)
  }

  lemma RequiredFieldsAreRequired(f: Field)
    ensures f in RequiredFields <==> IsRequired(f)
  {
  }

  /** The required-field pass of `validate`. */
  method RequiredErrors(v: Values) returns (errs: map<Field, string>)
    ensures forall f :: f in errs <==> IsRequired(f) && v.Get(f) == ""
    ensures forall f :: f in errs ==> errs[f] == Required
  {
    errs := map[];
    for i := 0 to |RequiredFields|
      invariant forall f :: f in errs <==> f in RequiredFields[..i] && v.Get(f) == ""
      invariant forall f :: f in errs ==> errs[f] == Required
    {
      var field := RequiredFields[i];
      if v.Get(field) == "" {
        errs := errs[field := Required];
      }
    }
    assert RequiredFields[..|RequiredFields|] == RequiredFields;
    forall f ensures f in RequiredFields <==> IsRequired(f) {
      RequiredFieldsAreRequired(f);
    }
  }

  /** The dictionary `validate` ends with, from the required-field pass
      `base` and the outcome of the other checks, in the order it writes
      them. */
  function Assemble(base: map<Field, string>, v: Values, c: Checks): map<Field, string>
  {
    var withStatus := if !c.minor && v.maritalStatus == "" then base[MaritalStatus := Required] else base;
    var withPhone := if c.phoneBad then withStatus[PhoneNumber := InvalidPhone] else withStatus;
    var withAlt := if c.altPhoneBad then withPhone[AltPhoneNumber := InvalidPhone] else withPhone;
    if c.ageDisagrees then withAlt[Age := AgeMismatch][Dob := AgeMismatch] else withAlt
  }

  lemma AssembleIsFieldErrors(base: map<Field, string>, v: Values, c: Checks)
    requires forall f :: f in base <==> IsRequired(f) && v.Get(f) == ""
    requires forall f :: f in base ==> base[f] == Required
    requires c.phoneBad ==> v.phoneNumber != ""
    requires c.ageDisagrees ==> v.dob != ""
    ensures forall f :: f in Assemble(base, v, c) <==> ErrorFor(v, c, f).Some?
    ensures forall f :: f in Assemble(base, v, c) ==> Assemble(base, v, c)[f] == ErrorFor(v, c, f).value
  {
    var a := Assemble(base, v, c);
    forall f
      ensures f in a <==> ErrorFor(v, c, f).Some?
      ensures f in a ==> a[f] == ErrorFor(v, c, f).value
    {
      AssembleAt(base, v, c, f);
    }
  }

  /** `AssembleIsFieldErrors` for one field. */
  lemma AssembleAt(base: map<Field, string>, v: Values, c: Checks, f: Field)
    requires f in base <==> IsRequired(f) && v.Get(f) == ""
    requires f in base ==> base[f] == Required
    requires c.phoneBad ==> v.phoneNumber != ""
    requires c.ageDisagrees ==> v.dob != ""
    ensures f in Assemble(base, v, c) <==> ErrorFor(v, c, f).Some?
    ensures f in Assemble(base, v, c) ==> Assemble(base, v, c)[f] == ErrorFor(v, c, f).value
  {
  }

  /** The error dictionary `validate` builds. */
  method CollectErrors(v: Values, today: Date) returns (errs: map<Field, string>)
    ensures forall f :: f in errs <==> FieldError(v, f, today).Some?
    ensures forall f :: f in errs ==> errs[f] == FieldError(v, f, today).value
    ensures errs == map[] <==> FormIsValid(v, today)
  {
    var base := RequiredErrors(v);
    ghost var c := ChecksOf(v, today);
    errs := base;
    if !IsMinor(v) && v.maritalStatus == "" {
      errs := errs[MaritalStatus := Required];
    }
    if v.phoneNumber != "" && !IsValidPhone(v.phoneNumber) {
      errs := errs[PhoneNumber := InvalidPhone];
    }
    if v.altPhoneNumber != "" && !IsValidPhone(v.altPhoneNumber) {
      errs := errs[AltPhoneNumber := InvalidPhone];
    }
    var ageError := ValidateAgeAndDob(v.age, v.dob, today);
    if ageError.Some? {
      errs := errs[Age := ageError.value][Dob := ageError.value];
    }
    assert errs == Assemble(base, v, c);
    AssembleIsFieldErrors(base, v, c);
    ValidIffNoFieldError(v, today);
    if errs != map[] {
      var f :| f in errs;
    }
  }

  // ---------------------------------------------------------------------
  // The wizard

  const StepCount: int := 3

  /** `steps.find(s => s.id === step)?.fields || []`. */
  function StepFields(step: int): seq<Field>
  {
    if step == 1 then [FullName, Age, Dob, Nationality, MaritalStatus]
    else if step == 2 then [PhoneNumber, AltPhoneNumber, Residence, GpsAddress]
    else if step == 3 then [JoiningDate]
    else []
  }

  /** Fields `handleNext` does not insist on. */
  predicate IsOptional(f: Field, minor: bool)
  {
    f == AltPhoneNumber || f == Avatar || f == Age || (f == MaritalStatus && minor)
  }

  /** A field of the step that must be filled in and is empty. */
  predicate MissingOnStep(step: int, v: Values, f: Field)
  {
    f in StepFields(step) && !IsOptional(f, IsMinor(v)) && v.Get(f) == ""
  }

  /** The errors `handleNext` collects for the step it is on. */
  method StepErrors(step: int, v: Values) returns (errs: map<Field, string>)
    ensures forall f :: f in errs <==> MissingOnStep(step, v, f)
    ensures forall f :: f in errs ==> errs[f] == Required
  {
    var fields := StepFields(step);
    var minor := IsMinor(v);
    errs := map[];
    for i := 0 to |fields|
      invariant forall f :: f in errs <==> f in fields[..i] && !IsOptional(f, minor) && v.Get(f) == ""
      invariant forall f :: f in errs ==> errs[f] == Required
    {
      var field := fields[i];
      if field == AltPhoneNumber || field == Avatar || field == Age {
        continue;
      }
      if field == MaritalStatus && minor {
        continue;
      }
      if v.Get(field) == "" {
        errs := errs[field := Required];
      }
    }
    assert fields[..|fields|] == fields;
  }

  /** The submitted payload: the values with `age` converted by `Number`,
      and the marital status cleared for a minor. */
  function SubmitPayload(v: Values): (r: MemberService.Record)
    ensures r.id.None? && r.createdAt.None? && r.updatedAt.None?
    ensures IsMinor(v) ==> r.maritalStatus == Some("")
    ensures !IsMinor(v) ==> r.maritalStatus == Some(v.maritalStatus)
    ensures NumberValue(v.age).Some? ==> r.age == Some(Num(NumberValue(v.age).value))
    ensures NumberValue(v.age).None? ==> r.age == Some(NaN)
    ensures r.fullName == Some(v.fullName) && r.dob == Some(v.dob) && r.phoneNumber == Some(v.phoneNumber)
    ensures r.residence == Some(v.residence) && r.gpsAddress == Some(v.gpsAddress)
    ensures r.altPhoneNumber == Some(v.altPhoneNumber) && r.nationality == Some(v.nationality)
    ensures r.joiningDate == Some(v.joiningDate) && r.avatar == Some(v.avatar)
  {
    MemberService.Record(
      id := None,
      fullName := Some(v.fullName),
      age := Some(if NumberValue(v.age).Some? then Num(NumberValue(v.age).value) else NaN),
      dob := Some(v.dob),
      residence := Some(v.residence),
      gpsAddress := Some(v.gpsAddress),
      phoneNumber := Some(v.phoneNumber),
      altPhoneNumber := Some(v.altPhoneNumber),
      nationality := Some(v.nationality),
      maritalStatus := Some(if IsMinor(v) then "" else v.maritalStatus),
      joiningDate := Some(v.joiningDate),
      avatar := Some(v.avatar),
      createdAt := None,
      updatedAt := None)
  }

  /** A minor's record reaches the member list with no marital status,
      whatever was typed into the form. */
  lemma MinorStoredWithoutStatus(v: Values)
    requires IsMinor(v)
    ensures MemberService.Normalize(SubmitPayload(v)).maritalStatus == Some("")
  {
  }

  /** The state of one mounted form. */
  class FormState {
    var values: Values
    var errors: map<Field, string>
    var currentStep: int
    var isSubmitting: bool

    ghost predicate Valid()
      reads this
    {
      1 <= currentStep <= StepCount
    }

    constructor (initial: map<Field, string>)
      ensures Valid() && currentStep == 1 && errors == map[] && !isSubmitting
      ensures values == InitialValues(initial)
    {
      values := InitialValues(initial);
      errors := map[];
      currentStep := 1;
      isSubmitting := false;
    }

    /** `handleChange`: set the named field; a new date of birth also sets
        the age when one can be computed from it; an error shown on the
        field is blanked. */
    method HandleChange(name: Field, value: string, today: Date)
      requires Valid()
      modifies this
      ensures Valid() && currentStep == old(currentStep) && isSubmitting == old(isSubmitting)
      ensures values.Get(name) == value
      ensures forall f :: f != name && !(name == Dob && f == Age) ==> values.Get(f) == old(values).Get(f)
      ensures name == Dob && AgeFromDob(value, today) != "" ==> values.age == AgeFromDob(value, today)
      ensures name == Dob && AgeFromDob(value, today) == "" ==> values.age == old(values).age
      ensures errors == if name in old(errors) && old(errors)[name] != "" then old(errors)[name := ""] else old(errors)
    {
      var newValues := values.Set(name, value);
      if name == Dob {
        var calculatedAge := CalculateAgeFromDob(value, today);
        if calculatedAge != "" {
          newValues := newValues.Set(Age, calculatedAge);
        }
      }
      values := newValues;
      if name in errors && errors[name] != "" {
        errors := errors[name := ""];
      }
    }

    /** `validate`: record the errors and report whether there are none. */
    method Validate(today: Date) returns (ok: bool)
      requires Valid()
      modifies this`errors
      ensures Valid()
      ensures forall f :: f in errors <==> FieldError(values, f, today).Some?
      ensures forall f :: f in errors ==> errors[f] == FieldError(values, f, today).value
      ensures ok <==> FormIsValid(values, today)
    {
      var validationErrors := CollectErrors(values, today);
      errors := validationErrors;
      ok := validationErrors == map[];
    }

    /** `handleNext`: stay and show the missing fields of this step, or
        move on unless this is the last step. */
    method HandleNext()
      requires Valid()
      modifies this`errors, this`currentStep
      ensures Valid()
      ensures (exists f :: MissingOnStep(old(currentStep), values, f)) ==>
                && currentStep == old(currentStep)
                && (forall f :: f in errors <==> MissingOnStep(old(currentStep), values, f))
                && (forall f :: f in errors ==> errors[f] == Required)
      ensures (forall f :: !MissingOnStep(old(currentStep), values, f)) ==>
                && errors == old(errors)
                && currentStep == if old(currentStep) < StepCount then old(currentStep) + 1 else old(currentStep)
    {
      var currentStepErrors := StepErrors(currentStep, values);
      if currentStepErrors != map[] {
        var missing :| missing in currentStepErrors;
        assert MissingOnStep(currentStep, values, missing);
        errors := currentStepErrors;
        return;
      }
      if currentStep < StepCount {
        currentStep := currentStep + 1;
      }
    }

    /** `handlePrev`: step back unless on the first step. */
    method HandlePrev()
      requires Valid()
      modifies this`currentStep
      ensures Valid()
      ensures currentStep == if old(currentStep) > 1 then old(currentStep) - 1 else old(currentStep)
    {
      if currentStep > 1 {
        currentStep := currentStep - 1;
      }
    }

    /** `handleSubmit`: the payload handed to `onSubmit`, or nothing when
        validation fails. */
    method HandleSubmit(today: Date) returns (submitted: Option<MemberService.Record>)
      requires Valid()
      modifies this`errors, this`isSubmitting
      ensures Valid() && !isSubmitting
      ensures submitted.Some? <==> FormIsValid(values, today)
      ensures submitted.Some? ==> submitted.value == SubmitPayload(values)
      ensures forall f :: f in errors <==> FieldError(values, f, today).Some?
      ensures forall f :: f in errors ==> errors[f] == FieldError(values, f, today).value
    {
      isSubmitting := true;
      var ok := Validate(today);
      if !ok {
        isSubmitting := false;
        return None;
      }
      var payload := SubmitPayload(values);
      submitted := Some(payload);
      isSubmitting := false;
    }
  }
}
