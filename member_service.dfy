/** The member-record layer of `src/services/memberService.js`: the canonical
    record shape, the local search/status filter, and the remote-first
    operations with their fallback onto the array persisted in the browser. */
module MemberService {

  import opened Wrappers
  import opened Text
  import opened Js
  import opened Seqs

  /** A member record as JSON gives it. `None` is a key that is absent (or
      `undefined`/`null`); `id` and `age` may be strings or numbers. */
  datatype Record = Record(
    id: Option<JsValue>,
    fullName: Option<string>,
    age: Option<JsValue>,
    dob: Option<string>,
    residence: Option<string>,
    gpsAddress: Option<string>,
    phoneNumber: Option<string>,
    altPhoneNumber: Option<string>,
    nationality: Option<string>,
    maritalStatus: Option<string>,
    joiningDate: Option<string>,
    avatar: Option<string>,
    createdAt: Option<string>,
    updatedAt: Option<string>)

  /** The criteria the list screens pass to `fetchMembers`. Only `search` and
      `maritalStatus` are applied locally; the rest go to the server only. */
  datatype Filters = Filters(search: string, maritalStatus: string, minAge: string, maxAge: string, trash: bool)

  /** How a remote call settled: it answered with a `data` payload, it
      answered without one, or it threw (unreachable server, or a non-2xx
      answer, which the client turns into a thrown Error). */
  datatype Reply<T> = Data(value: T) | NoData | Failed

  const NotFound: string := "Member not found"

  // ---------------------------------------------------------------------
  // Normalisation

  /** Title case: a first character that is not a lower-case letter,
      followed by no upper-case letters. */
  predicate IsTitleCase(s: string)
  {
    s != "" && !IsLower(s[0]) && forall i :: 1 <= i < |s| ==> !IsUpper(s[i])
  }

  /** `capitalizeFirst`: the first character upper-cased, the rest
      lower-cased; the empty string is returned as it is. */
  function CapitalizeFirst(s: string): (r: string)
    ensures |r| == |s|
    ensures Lower(r) == Lower(s)
    ensures s != "" ==> IsTitleCase(r)
  {
    if s == "" then s
    else
      var r := [UpperChar(s[0])] + Lower(s[1..]);
      assert forall i :: 1 <= i < |s| ==> r[i] == LowerChar(s[i]);
      SameLower(r, s);
      r
  }

  /** The canonical form depends only on the letters, not on their case:
      every casing of "married" becomes "Married". */
  lemma CapitalizeIgnoresCase(s: string, t: string)
    requires Lower(s) == Lower(t)
    ensures CapitalizeFirst(s) == CapitalizeFirst(t)
  {
    if s != "" {
      assert LowerChar(s[0]) == LowerChar(t[0]);
      assert UpperChar(s[0]) == UpperChar(t[0]);
      assert Lower(s[1..]) == Lower(t[1..]);
    }
  }

  /** A title-cased string is its own canonical form. */
  lemma CapitalizeFixesTitleCase(s: string)
    requires IsTitleCase(s)
    ensures CapitalizeFirst(s) == s
  {
    assert UpperChar(s[0]) == s[0];
    assert Lower(s[1..]) == s[1..];
  }

  /** The canonical form of any casing of `w` is `w` with its first
      character upper-cased. */
  lemma CapitalizeByLowerForm(s: string, w: string, title: string)
    requires Lower(s) == w && w != ""
    requires |title| == |w| && title[0] == UpperChar(w[0]) && title[1..] == w[1..]
    ensures CapitalizeFirst(s) == title
  {
    assert UpperChar(s[0]) == UpperChar(w[0]);
    assert Lower(s[1..]) == w[1..];
    assert title == [title[0]] + title[1..];
  }

  /** Every casing of one of the four statuses of `MARITAL_STATUS_OPTIONS`
      normalises to its label. */
  lemma CanonicalMaritalStatuses(s: string)
    ensures Lower(s) == "single" ==> CapitalizeFirst(s) == "Single"
    ensures Lower(s) == "married" ==> CapitalizeFirst(s) == "Married"
    ensures Lower(s) == "divorced" ==> CapitalizeFirst(s) == "Divorced"
    ensures Lower(s) == "widowed" ==> CapitalizeFirst(s) == "Widowed"
  {
    if Lower(s) == "single" {
      CapitalizeByLowerForm(s, "single", "Single");
    }
    if Lower(s) == "married" {
      CapitalizeByLowerForm(s, "married", "Married");
    }
    if Lower(s) == "divorced" {
      CapitalizeByLowerForm(s, "divorced", "Divorced");
    }
    if Lower(s) == "widowed" {
      CapitalizeByLowerForm(s, "widowed", "Widowed");
    }
  }

  /** `member.dob ? member.dob.split('T')[0] : ''`, and likewise for
      `joiningDate`. */
  function DatePart(f: Option<string>): string
  {
    if Present(f) then BeforeFirst(f.value, 'T') else ""
  }

  /** The canonical shape `normalizeMember` produces: every data field
      present, dates without a time part, a title-cased or empty marital
      status, and an age that is truthy or the empty string. */
  predicate IsNormalized(r: Record)
  {
    && r.fullName.Some? && r.age.Some? && r.dob.Some? && r.residence.Some?
    && r.gpsAddress.Some? && r.phoneNumber.Some? && r.altPhoneNumber.Some?
    && r.nationality.Some? && r.maritalStatus.Some? && r.joiningDate.Some?
    && r.avatar.Some?
    && 'T' !in r.dob.value && 'T' !in r.joiningDate.value
    && (r.maritalStatus.value == "" || IsTitleCase(r.maritalStatus.value))
    && (Truthy(r.age.value) || r.age.value == Str(""))
  }

  /** `normalizeMember`. */
  function Normalize(m: Record): (r: Record)
    ensures IsNormalized(r)
    ensures r.id == m.id && r.createdAt == m.createdAt && r.updatedAt == m.updatedAt
  {
    Record(
      id := m.id,
      fullName := Some(OrEmpty(m.fullName)),
      age := Some(ValueOrEmpty(m.age)),
      dob := Some(DatePart(m.dob)),
      residence := Some(OrEmpty(m.residence)),
      gpsAddress := Some(OrEmpty(m.gpsAddress)),
      phoneNumber := Some(OrEmpty(m.phoneNumber)),
      altPhoneNumber := Some(OrEmpty(m.altPhoneNumber)),
      nationality := Some(OrEmpty(m.nationality)),
      maritalStatus := Some(if Present(m.maritalStatus) then CapitalizeFirst(m.maritalStatus.value) else ""),
      joiningDate := Some(DatePart(m.joiningDate)),
      avatar := Some(OrEmpty(m.avatar)),
      createdAt := m.createdAt,
      updatedAt := m.updatedAt)
  }

  /** A plain string field keeps a non-empty value and turns a missing or
      empty one into `''`. */
  lemma NormalizeTextFields(m: Record)
    ensures var r := Normalize(m);
      && (Present(m.fullName) ==> r.fullName == m.fullName) && (!Present(m.fullName) ==> r.fullName == Some(""))
      && (Present(m.residence) ==> r.residence == m.residence) && (!Present(m.residence) ==> r.residence == Some(""))
      && (Present(m.gpsAddress) ==> r.gpsAddress == m.gpsAddress) && (!Present(m.gpsAddress) ==> r.gpsAddress == Some(""))
      && (Present(m.phoneNumber) ==> r.phoneNumber == m.phoneNumber) && (!Present(m.phoneNumber) ==> r.phoneNumber == Some(""))
      && (Present(m.altPhoneNumber) ==> r.altPhoneNumber == m.altPhoneNumber)
      && (!Present(m.altPhoneNumber) ==> r.altPhoneNumber == Some(""))
      && (Present(m.nationality) ==> r.nationality == m.nationality) && (!Present(m.nationality) ==> r.nationality == Some(""))
      && (Present(m.avatar) ==> r.avatar == m.avatar) && (!Present(m.avatar) ==> r.avatar == Some(""))
      && (m.age.Some? && Truthy(m.age.value) ==> r.age == m.age)
      && (m.age.None? || !Truthy(m.age.value) ==> r.age == Some(Str("")))
  {
  }

  /** The normalised `dob` and `joiningDate` are the input up to its first
      'T' (all of it when there is none), or `''` when absent. */
  lemma NormalizedDatesAreCutAtT(m: Record)
    ensures var d := Normalize(m).dob.value;
      && (!Present(m.dob) ==> d == "")
      && (Present(m.dob) ==> d <= m.dob.value && 'T' !in d && (|d| < |m.dob.value| ==> m.dob.value[|d|] == 'T'))
    ensures var j := Normalize(m).joiningDate.value;
      && (!Present(m.joiningDate) ==> j == "")
      && (Present(m.joiningDate) ==>
            j <= m.joiningDate.value && 'T' !in j
            && (|j| < |m.joiningDate.value| ==> m.joiningDate.value[|j|] == 'T'))
  {
  }

  /** The normalised marital status is the input with its first character
      upper-cased and the rest lower-cased, or `''` when absent. */
  lemma NormalizedMaritalStatus(m: Record)
    ensures !Present(m.maritalStatus) ==> Normalize(m).maritalStatus == Some("")
    ensures Present(m.maritalStatus) ==>
      var s, r := m.maritalStatus.value, Normalize(m).maritalStatus.value;
      |r| == |s| && r[0] == UpperChar(s[0]) && r[1..] == Lower(s[1..])
  {
  }

  /** A record is in canonical shape exactly when normalising it changes
      nothing. */
  lemma NormalizedIffFixed(r: Record)
    ensures IsNormalized(r) <==> Normalize(r) == r
  {
    if IsNormalized(r) {
      NoSeparatorIsWhole(r.dob.value, 'T');
      NoSeparatorIsWhole(r.joiningDate.value, 'T');
      if r.maritalStatus.value != "" {
        CapitalizeFixesTitleCase(r.maritalStatus.value);
      }
    }
  }

  /** `normalizeMember` is idempotent. */
  lemma NormalizeIdempotent(m: Record)
    ensures Normalize(Normalize(m)) == Normalize(m)
  {
    NormalizedIffFixed(Normalize(m));
  }

  /** `rows.map(normalizeMember)`. */
  function NormalizeAll(rows: seq<Record>): (r: seq<Record>)
    ensures |r| == |rows|
    ensures forall i :: 0 <= i < |r| ==> r[i] == Normalize(rows[i]) && IsNormalized(r[i])
  {
    if rows == [] then [] else [Normalize(rows[0])] + NormalizeAll(rows[1..])
  }

  // ---------------------------------------------------------------------
  // Local filtering

  /** `field?.toLowerCase().includes(needle)` with `needle` already
      lower-cased; an absent field does not match. */
  predicate FieldContains(f: Option<string>, needle: string)
  {
    f.Some? && Includes(Lower(f.value), needle)
  }

  predicate MatchesSearch(m: Record, search: string)
  {
    var needle := Lower(search);
    FieldContains(m.fullName, needle) || FieldContains(m.phoneNumber, needle) || FieldContains(m.residence, needle)
  }

  predicate MatchesStatus(m: Record, status: string)
  {
    m.maritalStatus.Some? && Lower(m.maritalStatus.value) == Lower(status)
  }

  function SearchTest(search: string): Record -> bool
  {
    m => MatchesSearch(m, search)
  }

  function StatusTest(status: string): Record -> bool
  {
    m => MatchesStatus(m, status)
  }

  /** Whether a record passes the criteria: an empty criterion lets every
      record through. */
  predicate Passes(m: Record, filters: Filters)
  {
    && (filters.search == "" || MatchesSearch(m, filters.search))
    && (filters.maritalStatus == "" || MatchesStatus(m, filters.maritalStatus))
  }

  /** `filterMembers`: the search filter, then the marital-status filter,
      each applied only when its criterion is non-empty. */
  function FilterMembers(members: seq<Record>, filters: Filters): (r: seq<Record>)
    ensures forall i :: 0 <= i < |r| ==> r[i] in members && Passes(r[i], filters)
    ensures forall i :: 0 <= i < |members| && Passes(members[i], filters) ==> members[i] in r
  {
    var searched := if filters.search != "" then Filter(members, SearchTest(filters.search)) else members;
    if filters.maritalStatus != "" then Filter(searched, StatusTest(filters.maritalStatus)) else searched
  }

  /** The filter keeps the input's order. */
  lemma FilterMembersIsSubsequence(members: seq<Record>, filters: Filters)
    ensures IsSubsequence(FilterMembers(members, filters), members)
  {
    var searched := if filters.search != "" then Filter(members, SearchTest(filters.search)) else members;
    if filters.search != "" {
      FilterIsSubsequence(members, SearchTest(filters.search));
    } else {
      SubsequenceReflexive(members);
    }
    if filters.maritalStatus != "" {
      FilterIsSubsequence(searched, StatusTest(filters.maritalStatus));
      SubsequenceTransitive(FilterMembers(members, filters), searched, members);
    }
  }

  lemma {:induction false} SubsequenceReflexive<T>(s: seq<T>)
    ensures IsSubsequence(s, s)
  {
    if s != [] {
      SubsequenceReflexive(s[1..]);
    }
  }

  lemma {:induction false} SubsequenceTransitive<T>(a: seq<T>, b: seq<T>, c: seq<T>)
    requires IsSubsequence(a, b) && IsSubsequence(b, c)
    ensures IsSubsequence(a, c)
    decreases |c|
  {
    if a != [] {
      assert b != [] && c != [];
      if b[0] == c[0] && IsSubsequence(b[1..], c[1..]) {
        if a[0] == b[0] && IsSubsequence(a[1..], b[1..]) {
          SubsequenceTransitive(a[1..], b[1..], c[1..]);
        } else {
          SubsequenceTransitive(a, b[1..], c[1..]);
        }
      } else {
        SubsequenceTransitive(a, b, c[1..]);
      }
    }
  }

  /** With no search text and no status the input comes back unchanged. */
  lemma FilterMembersNoCriteria(members: seq<Record>, filters: Filters)
    requires filters.search == "" && filters.maritalStatus == ""
    ensures FilterMembers(members, filters) == members
  {
  }

  /** The two filters in sequence are one filter by `Passes`. */
  lemma FilterMembersIsOneFilter(members: seq<Record>, filters: Filters)
    ensures FilterMembers(members, filters) == Filter(members, m => Passes(m, filters))
  {
    var searched := if filters.search != "" then Filter(members, SearchTest(filters.search)) else members;
    var passes := m => Passes(m, filters);
    if filters.search != "" && filters.maritalStatus != "" {
      FilterFilter(members, SearchTest(filters.search), StatusTest(filters.maritalStatus));
      FilterSamePredicate(members, Both(SearchTest(filters.search), StatusTest(filters.maritalStatus)), passes);
    } else if filters.search != "" {
      FilterSamePredicate(members, SearchTest(filters.search), passes);
    } else if filters.maritalStatus != "" {
      FilterSamePredicate(members, StatusTest(filters.maritalStatus), passes);
    } else {
      FilterKeepsAll(members, passes);
    }
  }

  /** Searching and then filtering by status gives the same records as
      both criteria at once. */
  lemma FilterMembersComposes(members: seq<Record>, search: string, status: string, rest: Filters)
    ensures FilterMembers(FilterMembers(members, rest.(search := search, maritalStatus := "")),
                          rest.(search := "", maritalStatus := status))
         == FilterMembers(members, rest.(search := search, maritalStatus := status))
  {
    var f1 := rest.(search := search, maritalStatus := "");
    var f2 := rest.(search := "", maritalStatus := status);
    var f := rest.(search := search, maritalStatus := status);
    FilterMembersIsOneFilter(members, f1);
    FilterMembersIsOneFilter(Filter(members, m => Passes(m, f1)), f2);
    FilterMembersIsOneFilter(members, f);
    FilterFilter(members, m => Passes(m, f1), m => Passes(m, f2));
    FilterSamePredicate(members, Both(m => Passes(m, f1), m => Passes(m, f2)), m => Passes(m, f));
  }

  /** Filtering an already filtered list again with the same criteria
      changes nothing. */
  lemma FilterMembersIdempotent(members: seq<Record>, filters: Filters)
    ensures FilterMembers(FilterMembers(members, filters), filters) == FilterMembers(members, filters)
  {
    var r := FilterMembers(members, filters);
    FilterMembersIsOneFilter(members, filters);
    FilterMembersIsOneFilter(r, filters);
    FilterIdempotent(members, m => Passes(m, filters));
  }

  // ---------------------------------------------------------------------
  // Lookup by id

  /** `m.id === memberId || m.id === String(memberId)`. */
  predicate IdMatches(m: Record, memberId: JsValue)
  {
    m.id == Some(memberId) || m.id == Some(Str(ToText(memberId)))
  }

  function IdTest(memberId: JsValue): Record -> bool
  {
    m => IdMatches(m, memberId)
  }

  /** The fallback branch of `fetchMember`: the first stored record with the
      id, normalised, or "Member not found". */
  function LocalLookup(stored: seq<Record>, memberId: JsValue): (r: Result<Record, string>)
    ensures r.Err? <==> forall i :: 0 <= i < |stored| ==> !IdMatches(stored[i], memberId)
    ensures r.Err? ==> r.error == NotFound
    ensures r.Ok? ==> exists i :: 0 <= i < |stored| && IdMatches(stored[i], memberId)
                                  && r.value == Normalize(stored[i])
                                  && forall j :: 0 <= j < i ==> !IdMatches(stored[j], memberId)
  {
    var k := FindIndex(stored, IdTest(memberId));
    if k < 0 then Err(NotFound) else Ok(Normalize(stored[k]))
  }

  /** The record the local branch of `createMember` stores: each data field
      is the payload's when it is a non-empty string and `''` otherwise (the
      date and the status are stored as given, not cut or capitalised); the id
      is the millisecond clock in decimal, and the two timestamps are the two
      readings of the clock. */
  function LocalRecord(payload: Record, nowMillis: nat, createdAt: string, updatedAt: string): (r: Record)
    ensures r.id == Some(Str(NatToString(nowMillis)))
    ensures r.createdAt == Some(createdAt) && r.updatedAt == Some(updatedAt)
    ensures r.fullName == Some(OrEmpty(payload.fullName)) && r.dob == Some(OrEmpty(payload.dob))
    ensures r.residence == Some(OrEmpty(payload.residence)) && r.gpsAddress == Some(OrEmpty(payload.gpsAddress))
    ensures r.phoneNumber == Some(OrEmpty(payload.phoneNumber))
    ensures r.altPhoneNumber == Some(OrEmpty(payload.altPhoneNumber))
    ensures r.nationality == Some(OrEmpty(payload.nationality))
    ensures r.maritalStatus == Some(OrEmpty(payload.maritalStatus))
    ensures r.joiningDate == Some(OrEmpty(payload.joiningDate)) && r.avatar == Some(OrEmpty(payload.avatar))
    ensures r.age == Some(ValueOrEmpty(payload.age))
  {
    Record(
      id := Some(Str(NatToString(nowMillis))),
      fullName := Some(OrEmpty(payload.fullName)),
      age := Some(ValueOrEmpty(payload.age)),
      dob := Some(OrEmpty(payload.dob)),
      residence := Some(OrEmpty(payload.residence)),
      gpsAddress := Some(OrEmpty(payload.gpsAddress)),
      phoneNumber := Some(OrEmpty(payload.phoneNumber)),
      altPhoneNumber := Some(OrEmpty(payload.altPhoneNumber)),
      nationality := Some(OrEmpty(payload.nationality)),
      maritalStatus := Some(OrEmpty(payload.maritalStatus)),
      joiningDate := Some(OrEmpty(payload.joiningDate)),
      avatar := Some(OrEmpty(payload.avatar)),
      createdAt := Some(createdAt),
      updatedAt := Some(updatedAt))
  }

  /** Two records agree on every field a member edits. */
  predicate SameData(a: Record, b: Record)
  {
    && a.fullName == b.fullName && a.age == b.age && a.dob == b.dob
    && a.residence == b.residence && a.gpsAddress == b.gpsAddress
    && a.phoneNumber == b.phoneNumber && a.altPhoneNumber == b.altPhoneNumber
    && a.nationality == b.nationality && a.maritalStatus == b.maritalStatus
    && a.joiningDate == b.joiningDate && a.avatar == b.avatar
  }

  /** What a local create returns is the normalised payload, apart from the
      id and the timestamps it assigns. */
  lemma LocalCreateKeepsPayload(payload: Record, nowMillis: nat, createdAt: string, updatedAt: string)
    ensures SameData(Normalize(LocalRecord(payload, nowMillis, createdAt, updatedAt)), Normalize(payload))
  {
  }

  /** `{ ...stored, ...payload, id: stored.id, updatedAt: now }`: fields the
      payload carries win, the id never changes. */
  function Merge(stored: Record, payload: Record, now: string): (r: Record)
    ensures r.id == stored.id && r.updatedAt == Some(now)
    ensures r.fullName == if payload.fullName.Some? then payload.fullName else stored.fullName
    ensures r.age == if payload.age.Some? then payload.age else stored.age
    ensures r.dob == if payload.dob.Some? then payload.dob else stored.dob
    ensures r.residence == if payload.residence.Some? then payload.residence else stored.residence
    ensures r.gpsAddress == if payload.gpsAddress.Some? then payload.gpsAddress else stored.gpsAddress
    ensures r.phoneNumber == if payload.phoneNumber.Some? then payload.phoneNumber else stored.phoneNumber
    ensures r.altPhoneNumber == if payload.altPhoneNumber.Some? then payload.altPhoneNumber else stored.altPhoneNumber
    ensures r.nationality == if payload.nationality.Some? then payload.nationality else stored.nationality
    ensures r.maritalStatus == if payload.maritalStatus.Some? then payload.maritalStatus else stored.maritalStatus
    ensures r.joiningDate == if payload.joiningDate.Some? then payload.joiningDate else stored.joiningDate
    ensures r.avatar == if payload.avatar.Some? then payload.avatar else stored.avatar
    ensures r.createdAt == if payload.createdAt.Some? then payload.createdAt else stored.createdAt
  {
    Record(
      id := stored.id,
      fullName := Override(stored.fullName, payload.fullName),
      age := Override(stored.age, payload.age),
      dob := Override(stored.dob, payload.dob),
      residence := Override(stored.residence, payload.residence),
      gpsAddress := Override(stored.gpsAddress, payload.gpsAddress),
      phoneNumber := Override(stored.phoneNumber, payload.phoneNumber),
      altPhoneNumber := Override(stored.altPhoneNumber, payload.altPhoneNumber),
      nationality := Override(stored.nationality, payload.nationality),
      maritalStatus := Override(stored.maritalStatus, payload.maritalStatus),
      joiningDate := Override(stored.joiningDate, payload.joiningDate),
      avatar := Override(stored.avatar, payload.avatar),
      createdAt := Override(stored.createdAt, payload.createdAt),
      updatedAt := Some(now))
  }

  /** One property of an object spread: a key the later object carries wins. */
  function Override<T>(base: Option<T>, over: Option<T>): Option<T>
  {
    if over.Some? then over else base
  }

  /** Whether `fetchMembers` trusts the server's answer: only a non-empty
      array does. */
  predicate UsesRemoteList(reply: Reply<seq<Record>>)
  {
    reply.Data? && |reply.value| > 0
  }

  /** A record created locally under a fresh id is what a later local
      `fetchMember` of that id finds. */
  lemma {:induction false} FetchFindsLocalCreate(stored: seq<Record>, payload: Record, nowMillis: nat, createdAt: string, updatedAt: string)
    requires forall i :: 0 <= i < |stored| ==> !IdMatches(stored[i], Str(NatToString(nowMillis)))
    ensures LocalLookup(stored + [LocalRecord(payload, nowMillis, createdAt, updatedAt)], Str(NatToString(nowMillis)))
         == Ok(Normalize(LocalRecord(payload, nowMillis, createdAt, updatedAt)))
  {
    var rec := LocalRecord(payload, nowMillis, createdAt, updatedAt);
    var key := Str(NatToString(nowMillis));
    assert (stored + [rec])[|stored|] == rec && IdMatches(rec, key);
    FindIndexOfFirstHit(stored + [rec], IdTest(key), |stored|);
  }

  lemma FindIndexOfFirstHit<T>(s: seq<T>, p: T -> bool, k: nat)
    requires k < |s| && p(s[k]) && forall i :: 0 <= i < k ==> !p(s[i])
    ensures FindIndex(s, p) == k
  {
  }

  /** After a local update, looking the same id up finds the merged
      record. */
  lemma FetchFindsLocalUpdate(stored: seq<Record>, memberId: JsValue, payload: Record, now: string)
    requires FindIndex(stored, IdTest(memberId)) >= 0
    ensures var k := FindIndex(stored, IdTest(memberId));
      LocalLookup(stored[k := Merge(stored[k], payload, now)], memberId)
        == Ok(Normalize(Merge(stored[k], payload, now)))
  {
    var k := FindIndex(stored, IdTest(memberId));
    var updated := stored[k := Merge(stored[k], payload, now)];
    assert IdMatches(updated[k], memberId);
    FindIndexOfFirstHit(updated, IdTest(memberId), k);
  }

  // ---------------------------------------------------------------------
  // The service over the persisted array

  /** The `church_members` entry of the browser's storage. `records` is the
      array as read back: a missing or unparsable entry reads as `[]`. */
  class MemberStore {
    var records: seq<Record>

    constructor (stored: seq<Record>)
      ensures records == stored
    {
      records := stored;
    }

    /** `fetchMembers(filters)`: the server's list when it is a non-empty
        array, otherwise the stored records that pass the filters; either
        way normalised. */
    method FetchMembers(reply: Reply<seq<Record>>, filters: Filters) returns (rows: seq<Record>)
      ensures UsesRemoteList(reply) ==> rows == NormalizeAll(reply.value)
      ensures !UsesRemoteList(reply) ==> rows == NormalizeAll(FilterMembers(records, filters))
      ensures forall i :: 0 <= i < |rows| ==> IsNormalized(rows[i])
      ensures !UsesRemoteList(reply) ==> |rows| <= |records|
    {
      if reply.Data? && |reply.value| > 0 {
        return NormalizeAll(reply.value);
      }
      var members := records;
      var filtered := FilterMembers(members, filters);
      rows := NormalizeAll(filtered);
    }

    /** `fetchMember(memberId)`: the server's record when it answers with
        one, otherwise the first stored record with that id. */
    method FetchMember(reply: Reply<Record>, memberId: JsValue) returns (result: Result<Record, string>)
      ensures reply.Data? ==> result == Ok(Normalize(reply.value))
      ensures !reply.Data? ==> result == LocalLookup(records, memberId)
      ensures result.Ok? ==> IsNormalized(result.value)
      ensures result.Err? ==> result.error == NotFound
    {
      if reply.Data? {
        return Ok(Normalize(reply.value));
      }
      result := LocalLookup(records, memberId);
    }

    /** `createMember(payload)`: appends exactly one record, either the
        server's answer normalised or a locally built record whose id is
        the current time in milliseconds. */
    method CreateMember(reply: Reply<Record>, payload: Record, nowMillis: nat, createdAt: string, updatedAt: string)
      returns (created: Record)
      modifies this
      ensures |records| == |old(records)| + 1 && records[..|old(records)|] == old(records)
      ensures reply.Data? ==> created == Normalize(reply.value) && records[|old(records)|] == created
      ensures !reply.Data? ==>
                && records[|old(records)|] == LocalRecord(payload, nowMillis, createdAt, updatedAt)
                && created == Normalize(LocalRecord(payload, nowMillis, createdAt, updatedAt))
      ensures IsNormalized(created)
    {
      var members := records;
      if reply.Data? {
        created := Normalize(reply.value);
        members := members + [created];
        records := members;
        return;
      }
      var newMember := LocalRecord(payload, nowMillis, createdAt, updatedAt);
      members := members + [newMember];
      records := members;
      created := Normalize(newMember);
    }

    /** `updateMember(memberId, payload)`: on a server answer, the stored
        copy with that id (if any) is replaced by the normalised answer;
        otherwise the stored record is merged with the payload, or the call
        fails with "Member not found" and nothing is written. */
    method UpdateMember(reply: Reply<Record>, memberId: JsValue, payload: Record, now: string)
      returns (result: Result<Record, string>)
      modifies this
      ensures |records| == |old(records)|
      ensures reply.Data? ==>
        var k := FindIndex(old(records), IdTest(memberId));
        && result == Ok(Normalize(reply.value))
        && records == if k < 0 then old(records)
                      else old(records)[k := Normalize(reply.value).(updatedAt := Some(now))]
      ensures !reply.Data? ==>
        var k := FindIndex(old(records), IdTest(memberId));
        && (k < 0 ==> result == Err(NotFound) && records == old(records))
        && (k >= 0 ==> var merged := Merge(old(records)[k], payload, now);
                       && records == old(records)[k := merged]
                       && merged.id == old(records)[k].id
                       && result == Ok(Normalize(merged)))
    {
      var members := records;
      var index := FindIndex(members, IdTest(memberId));
      if reply.Data? {
        var updatedMember := Normalize(reply.value);
        if index != -1 {
          members := members[index := updatedMember.(updatedAt := Some(now))];
          records := members;
        }
        return Ok(updatedMember);
      }
      if index == -1 {
        return Err(NotFound);
      }
      var updatedMember := Merge(members[index], payload, now);
      members := members[index := updatedMember];
      records := members;
      result := Ok(Normalize(updatedMember));
    }
  }
}
