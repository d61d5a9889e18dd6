/** The dropdown of `src/components/form/CustomSelect.jsx`: which option is
    shown as selected, and how the open flag and the keyboard focus move
    under clicks and key presses. */
module CustomSelect {

  import opened Wrappers
  import opened Js
  import opened Seqs

  /** One entry of the `options` prop. */
  datatype SelectOption = SelectOption(value: string, labelText: string)

  /** The synthetic event passed to `onChange`. */
  datatype ChangeEvent = ChangeEvent(name: string, value: string)

  /** The keys the handler distinguishes; every other key is `OtherKey`. */
  datatype Key = ArrowDown | ArrowUp | Enter | Escape | OtherKey

  const DefaultPlaceholder: string := "Select an option"

  /** `opt.value === value`: the prop may be a number, which no option's
      string value equals. */
  predicate HasValue(opt: SelectOption, value: JsValue)
  {
    value == Str(opt.value)
  }

  /** `selectedOption`: the first option whose value is `value`. */
  function SelectedOption(options: seq<SelectOption>, value: JsValue): (r: Option<SelectOption>)
    ensures r.None? <==> forall i :: 0 <= i < |options| ==> !HasValue(options[i], value)
    ensures r.Some? ==> exists i :: 0 <= i < |options| && options[i] == r.value
                                    && HasValue(options[i], value)
                                    && forall j :: 0 <= j < i ==> !HasValue(options[j], value)
  {
    Find(options, (o: SelectOption) => HasValue(o, value))
  }

  /** The text on the trigger: the selected option's label, else the
      placeholder. */
  function DisplayText(options: seq<SelectOption>, value: JsValue, placeholder: string): (r: string)
    ensures (forall i :: 0 <= i < |options| ==> !HasValue(options[i], value)) ==> r == placeholder
    ensures forall i :: 0 <= i < |options| && HasValue(options[i], value)
                        && (forall j :: 0 <= j < i ==> !HasValue(options[j], value))
                        ==> r == options[i].labelText
  {
    match SelectedOption(options, value)
    case Some(o) => FirstMatchUnique(options, value, o); o.labelText
    case None => placeholder
  }

  /** Two first matches are the same option. */
  lemma FirstMatchUnique(options: seq<SelectOption>, value: JsValue, o: SelectOption)
    requires SelectedOption(options, value) == Some(o)
    ensures forall i :: 0 <= i < |options| && HasValue(options[i], value)
                        && (forall j :: 0 <= j < i ==> !HasValue(options[j], value))
                        ==> options[i] == o
  {
    var k :| 0 <= k < |options| && options[k] == o && HasValue(options[k], value)
             && forall j :: 0 <= j < k ==> !HasValue(options[j], value);
    forall i | 0 <= i < |options| && HasValue(options[i], value)
               && (forall j :: 0 <= j < i ==> !HasValue(options[j], value))
      ensures options[i] == o
    {
      assert i == k;
    }
  }

  /** ArrowDown: one option further, stopping at the last one. */
  function FocusDown(prev: int, count: nat): (r: int)
    ensures -1 <= prev < count ==> -1 <= r < count
    ensures r == prev || r == prev + 1
    ensures r == prev + 1 <==> prev < count - 1
  {
    if prev < count - 1 then prev + 1 else prev
  }

  /** ArrowUp: one option back, and from the first option (or none) back to
      no focus at all. */
  function FocusUp(prev: int): (r: int)
    ensures r == -1 || r == prev - 1
    ensures prev > 0 ==> r == prev - 1
    ensures prev <= 0 ==> r == -1
  {
    if prev > 0 then prev - 1 else -1
  }

  function Max(a: int, b: int): int { if a < b then b else a }
  function Min(a: int, b: int): int { if a < b then a else b }

  /** The focus after pressing ArrowDown `k` times. */
  function DownTimes(prev: int, count: nat, k: nat): int
    decreases k
  {
    if k == 0 then prev else DownTimes(FocusDown(prev, count), count, k - 1)
  }

  /** The focus after pressing ArrowUp `k` times. */
  function UpTimes(prev: int, k: nat): int
    decreases k
  {
    if k == 0 then prev else UpTimes(FocusUp(prev), k - 1)
  }

  /** Pressing ArrowDown `k` times from a focus in range moves `k` options
      down, but no further than the last. */
  lemma {:induction false} DownTimesClamps(prev: int, count: nat, k: nat)
    requires -1 <= prev < count
    ensures DownTimes(prev, count, k) == Max(prev, Min(prev + k, count - 1))
    decreases k
  {
    if k > 0 {
      DownTimesClamps(FocusDown(prev, count), count, k - 1);
    }
  }

  /** Pressing ArrowUp `k` times from a focus in range moves `k` options up,
      ending at no focus. */
  lemma {:induction false} UpTimesClamps(prev: int, k: nat)
    requires -1 <= prev
    ensures UpTimes(prev, k) == Max(prev - k, -1)
    decreases k
  {
    if k > 0 {
      UpTimesClamps(FocusUp(prev), k - 1);
    }
  }

  /** The state of one dropdown: the props it reads and the two state
      variables it sets. */
  class SelectBox {
    const name: string
    const options: seq<SelectOption>
    var isOpen: bool
    var focusedIndex: int

    /** The focus is -1 or an option's index, and -1 while closed. */
    predicate Valid()
      reads this
    {
      && -1 <= focusedIndex < |options|
      && (!isOpen ==> focusedIndex == -1)
    }

    constructor(name: string, options: seq<SelectOption>)
      ensures this.name == name && this.options == options
      ensures !isOpen && focusedIndex == -1
      ensures Valid()
    {
      this.name := name;
      this.options := options;
      isOpen := false;
      focusedIndex := -1;
    }

    /** `handleSelect`: report the option's value under the select's name,
        close and drop the focus. */
    method HandleSelect(option: SelectOption) returns (event: ChangeEvent)
      modifies this
      ensures event.name == name && event.value == option.value
      ensures !isOpen && focusedIndex == -1
      ensures Valid()
    {
      event := ChangeEvent(name, option.value);
      isOpen := false;
      focusedIndex := -1;
    }

    /** `toggleDropdown`: flip the open flag and drop the focus. */
    method ToggleDropdown()
      modifies this
      ensures isOpen == !old(isOpen) && focusedIndex == -1
      ensures Valid()
    {
      isOpen := !isOpen;
      focusedIndex := -1;
    }

    /** A mouse press outside the trigger and the list; the listener exists
        only while the dropdown is open. */
    method ClickOutside()
      modifies this
      requires Valid()
      ensures !isOpen && focusedIndex == -1
      ensures Valid()
    {
      if isOpen {
        isOpen := false;
        focusedIndex := -1;
      }
    }

    /** The mouse entering option `index` of the open list. */
    method MouseEnter(index: int)
      modifies this
      requires Valid() && isOpen && 0 <= index < |options|
      ensures isOpen && focusedIndex == index
      ensures Valid()
    {
      focusedIndex := index;
    }

    /** The `keydown` handler. While closed nothing happens. ArrowDown and
        ArrowUp move the focus, Enter picks the focused option if there is
        one, Escape closes. */
    method HandleKey(key: Key) returns (event: Option<ChangeEvent>)
      modifies this
      requires Valid()
      ensures Valid()
      ensures !old(isOpen) ==> event.None? && !isOpen && focusedIndex == old(focusedIndex)
      ensures old(isOpen) && key == ArrowDown ==>
                event.None? && isOpen && focusedIndex == FocusDown(old(focusedIndex), |options|)
      ensures old(isOpen) && key == ArrowUp ==>
                event.None? && isOpen && focusedIndex == FocusUp(old(focusedIndex))
      ensures old(isOpen) && key == Enter && 0 <= old(focusedIndex) ==>
                && event == Some(ChangeEvent(name, options[old(focusedIndex)].value))
                && !isOpen && focusedIndex == -1
      ensures old(isOpen) && key == Enter && old(focusedIndex) < 0 ==>
                event.None? && isOpen && focusedIndex == old(focusedIndex)
      ensures old(isOpen) && key == Escape ==> event.None? && !isOpen && focusedIndex == -1
      ensures old(isOpen) && key == OtherKey ==>
                event.None? && isOpen && focusedIndex == old(focusedIndex)
    {
      event := None;
      if !isOpen {
        return;
      }
      match key
      case ArrowDown =>
        focusedIndex := FocusDown(focusedIndex, |options|);
      case ArrowUp =>
        focusedIndex := FocusUp(focusedIndex);
      case Enter =>
        if 0 <= focusedIndex < |options| {
          var e := HandleSelect(options[focusedIndex]);
          event := Some(e);
        }
      case Escape =>
        isOpen := false;
        focusedIndex := -1;
      case OtherKey =>
    }
  }

  /** Opening the list, pressing ArrowDown `k` times and then Enter picks
      the `k`-th option, or the last one when `k` runs past the end; with no
      press nothing is focused and Enter picks nothing. */
  method PressDownThenEnter(name: string, options: seq<SelectOption>, k: nat)
    returns (event: Option<ChangeEvent>)
    requires options != []
    ensures k == 0 ==> event.None?
    ensures k > 0 ==> event == Some(ChangeEvent(name, options[Min(k, |options|) - 1].value))
  {
    var box := new SelectBox(name, options);
    box.ToggleDropdown();
    var n := 0;
    while n < k
      invariant 0 <= n <= k && box.Valid() && box.isOpen
      invariant box.options == options && box.name == name
      invariant box.focusedIndex == Min(n, |options|) - 1
    {
      var _ := box.HandleKey(ArrowDown);
      n := n + 1;
    }
    event := box.HandleKey(Enter);
  }
}
