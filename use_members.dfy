/** The state holder of `src/hooks/useMembers.js`: the member list the
    screens show, a loading flag, an error message and the current filters,
    with optimistic removal followed by a reload for the three trash
    operations. */
module UseMembers {

  import opened Wrappers
  import opened Js
  import opened Seqs
  import opened MemberService

  /** `defaultFilters`. */
  const DefaultFilters: Filters := Filters(search := "", maritalStatus := "", minAge := "", maxAge := "", trash := false)

  const LoadFailed: string := "Failed to load members"
  const DeleteFailed: string := "Failed to delete member"
  const RestoreFailed: string := "Failed to restore member"
  const PermanentDeleteFailed: string := "Failed to permanently delete member"

  /** `memberService.fetchMembers` as the hook sees it: for given filters it
      resolves with the rows or rejects with an Error's message. */
  type Fetch = Filters -> Result<seq<Record>, string>

  /** `err.message || fallback`. */
  function ErrorText(message: string, fallback: string): (r: string)
    ensures message != "" ==> r == message
    ensures message == "" ==> r == fallback
  {
    if message != "" then message else fallback
  }

  function OtherThan(id: Option<JsValue>): Record -> bool
  {
    (m: Record) => m.id != id
  }

  /** `prevMembers.filter(member => member.id !== id)`. */
  function WithoutId(members: seq<Record>, id: Option<JsValue>): (r: seq<Record>)
    ensures forall i :: 0 <= i < |r| ==> r[i].id != id && r[i] in members
    ensures forall i :: 0 <= i < |members| && members[i].id != id ==> members[i] in r
    ensures forall i :: 0 <= i < |members| ==>
              multiset(r)[members[i]] == if members[i].id != id then multiset(members)[members[i]] else 0
  {
    Filter(members, OtherThan(id))
  }

  /** The optimistic step keeps the other members in their original order,
      and removes nothing when no member has the id. */
  lemma OptimisticRemovalKeepsOrder(members: seq<Record>, id: Option<JsValue>)
    ensures IsSubsequence(WithoutId(members, id), members)
    ensures (forall i :: 0 <= i < |members| ==> members[i].id != id) ==> WithoutId(members, id) == members
  {
    FilterIsSubsequence(members, OtherThan(id));
    if forall i :: 0 <= i < |members| ==> members[i].id != id {
      FilterKeepsAll(members, OtherThan(id));
    }
  }

  class MembersHook {
    var members: seq<Record>
    var loading: bool
    var error: string
    var filters: Filters

    /** The state of the first render: nothing loaded yet, loading. */
    constructor ()
      ensures members == [] && loading && error == "" && filters == DefaultFilters
    {
      members := [];
      loading := true;
      error := "";
      filters := DefaultFilters;
    }

    /** `loadMembers(customFilters)`: fetch with the given filters, or the
        current ones; on success replace the list and clear the error, on
        failure keep the list and report the message. */
    method LoadMembers(custom: Option<Filters>, fetch: Fetch)
      modifies this
      ensures !loading && filters == old(filters)
      ensures var used := if custom.Some? then custom.value else old(filters);
        && (fetch(used).Ok? ==> members == fetch(used).value && error == "")
        && (fetch(used).Err? ==> members == old(members) && error == ErrorText(fetch(used).error, LoadFailed))
    {
      loading := true;
      error := "";
      var filtersToUse := if custom.Some? then custom.value else filters;
      var data := fetch(filtersToUse);
      if data.Ok? {
        members := data.value;
      } else {
        error := ErrorText(data.error, LoadFailed);
      }
      loading := false;
    }

    /** `reload()`: always fetches with the current filters. */
    method Reload(fetch: Fetch)
      modifies this
      ensures !loading && filters == old(filters)
      ensures fetch(filters).Ok? ==> members == fetch(filters).value && error == ""
      ensures fetch(filters).Err? ==> members == old(members) && error == ErrorText(fetch(filters).error, LoadFailed)
    {
      LoadMembers(Some(filters), fetch);
    }

    /** `setFilters(next)` followed by the effect it triggers, which loads
        with the new filters. */
    method SetFilters(next: Filters, fetch: Fetch)
      modifies this
      ensures !loading && filters == next
      ensures fetch(next).Ok? ==> members == fetch(next).value && error == ""
      ensures fetch(next).Err? ==> members == old(members) && error == ErrorText(fetch(next).error, LoadFailed)
    {
      filters := next;
      LoadMembers(None, fetch);
    }

    /** The shape the three trash operations share: remove the member from
        the list at once, then await the service call `call`; reload on
        success; on failure reload, then report the call's message (or
        `fallback`) and rethrow. The returned outcome is what the caller
        sees: the call's own failure is rethrown. */
    method RemoveThenReload(id: Option<JsValue>, call: Outcome, fallback: string, fetch: Fetch) returns (raised: Outcome)
      modifies this
      ensures raised == call
      ensures !loading && filters == old(filters)
      ensures var reloaded := fetch(old(filters));
        && (reloaded.Ok? ==> members == reloaded.value)
        && (reloaded.Err? ==> members == WithoutId(old(members), id))
        && (call.Pass? && reloaded.Ok? ==> error == "")
        && (call.Pass? && reloaded.Err? ==> error == ErrorText(reloaded.error, LoadFailed))
        && (call.Fail? ==> error == ErrorText(call.message, fallback))
    {
      members := WithoutId(members, id);
      if call.Pass? {
        LoadMembers(Some(filters), fetch);
        raised := Pass;
      } else {
        LoadMembers(Some(filters), fetch);
        error := ErrorText(call.message, fallback);
        raised := call;
      }
    }

    /** `deleteMember(id)`. */
    method DeleteMember(id: Option<JsValue>, call: Outcome, fetch: Fetch) returns (raised: Outcome)
      modifies this
      ensures raised == call
      ensures !loading && filters == old(filters)
      ensures var reloaded := fetch(old(filters));
        && (reloaded.Ok? ==> members == reloaded.value)
        && (reloaded.Err? ==> members == WithoutId(old(members), id))
        && (call.Pass? && reloaded.Ok? ==> error == "")
        && (call.Pass? && reloaded.Err? ==> error == ErrorText(reloaded.error, LoadFailed))
        && (call.Fail? ==> error == ErrorText(call.message, DeleteFailed))
    {
      raised := RemoveThenReload(id, call, DeleteFailed, fetch);
    }

    /** `restoreMember(id)`. */
    method RestoreMember(id: Option<JsValue>, call: Outcome, fetch: Fetch) returns (raised: Outcome)
      modifies this
      ensures raised == call
      ensures !loading && filters == old(filters)
      ensures var reloaded := fetch(old(filters));
        && (reloaded.Ok? ==> members == reloaded.value)
        && (reloaded.Err? ==> members == WithoutId(old(members), id))
        && (call.Pass? && reloaded.Ok? ==> error == "")
        && (call.Pass? && reloaded.Err? ==> error == ErrorText(reloaded.error, LoadFailed))
        && (call.Fail? ==> error == ErrorText(call.message, RestoreFailed))
    {
      raised := RemoveThenReload(id, call, RestoreFailed, fetch);
    }

    /** `permanentlyDeleteMember(id)`. */
    method PermanentlyDeleteMember(id: Option<JsValue>, call: Outcome, fetch: Fetch) returns (raised: Outcome)
      modifies this
      ensures raised == call
      ensures !loading && filters == old(filters)
      ensures var reloaded := fetch(old(filters));
        && (reloaded.Ok? ==> members == reloaded.value)
        && (reloaded.Err? ==> members == WithoutId(old(members), id))
        && (call.Pass? && reloaded.Ok? ==> error == "")
        && (call.Pass? && reloaded.Err? ==> error == ErrorText(reloaded.error, LoadFailed))
        && (call.Fail? ==> error == ErrorText(call.message, PermanentDeleteFailed))
    {
      raised := RemoveThenReload(id, call, PermanentDeleteFailed, fetch);
    }
  }

  /** What the screens can rely on: a failed deletion whose reload succeeds
      leaves exactly the reloaded list on screen, with the member still in
      it if the server still has it, and the deletion's error shown. */
  method FailedDeleteShowsReloadedList(rows: seq<Record>, id: Option<JsValue>, message: string)
    returns (shown: seq<Record>, shownError: string)
    requires message != ""
    ensures shown == rows && shownError == message
  {
    var hook := new MembersHook();
    var fetch: Fetch := (f: Filters) => Ok(rows);
    hook.Reload(fetch);
    var raised := hook.DeleteMember(id, Fail(message), fetch);
    shown, shownError := hook.members, hook.error;
  }
}
