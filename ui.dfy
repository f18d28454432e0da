/** The menu of the user interface: a list of entries, each a text and an
    action, and a flag that records whether the list changed since the
    flag was last read. */
module Ui {
  import opened Vec

  /** Only whether an entry has an action is modelled: the action's type is
      NoAction or something else. */
  datatype ActionKind = NoAction | Performs(code: nat)

  datatype Action = Action(kind: ActionKind)

  datatype Entry = Entry(text: string, action: Action)

  /** A default-constructed entry, added when the list grows. */
  const BlankEntry := Entry("", Action(NoAction))

  class UI {
    var entries: seq<Entry>
    var changed: bool

    constructor ()
      ensures entries == [] && !changed
    {
      entries := [];
      changed := false;
    }

    method Clear()
      modifies this
      ensures entries == [] && changed
    {
      entries := [];
      changed := true;
    }

    function NumEntries(): (n: nat)
      reads this
      ensures n == |entries|
      ensures forall i: nat :: HasAction(i) ==> i < n
    {
      |entries|
    }

    function GetText(index: nat): (t: string)
      reads this
      requires index < NumEntries()
      ensures entries[index] == Entry(t, GetAction(index))
    {
      entries[index].text
    }

    function GetAction(index: nat): (a: Action)
      reads this
      requires index < NumEntries()
      ensures a.kind != NoAction <==> HasAction(index)
    {
      entries[index].action
    }

    /** Whether entry index exists and has an action. */
    predicate HasAction(index: nat)
      reads this
      ensures HasAction(index) ==> index < |entries|
    {
      index < |entries| && entries[index].action.kind != NoAction
    }

    /** set_entry: grows the list with blank entries until it holds index,
        then overwrites that entry; every other entry is kept. */
    method SetEntry(index: nat, text: string, action: Action)
      modifies this
      ensures NumEntries() == MaxInt(old(NumEntries()), index + 1)
      ensures GetText(index) == text && GetAction(index) == action
      ensures HasAction(index) <==> action.kind != NoAction
      ensures forall i :: 0 <= i < |entries| && i != index ==>
        entries[i] == (if i < |old(entries)| then old(entries)[i] else BlankEntry)
      ensures changed
    {
      if |entries| <= index {
        entries := entries + seq(index + 1 - |entries|, _ => BlankEntry);
      }
      entries := entries[index := Entry(text, action)];
      changed := true;
    }

    /** has_changed: returns the flag and clears it. */
    method HasChanged() returns (c: bool)
      modifies this
      ensures c == old(changed) && !changed && entries == old(entries)
    {
      c := changed;
      changed := false;
    }

    method SetHasChanged()
      modifies this
      ensures changed && entries == old(entries)
    {
      changed := true;
    }
  }

  /** Reading the flag twice with no change in between: the second read
      is false, whatever the first returned. */
  method ReadChangedTwice(ui: UI) returns (first: bool, second: bool)
    modifies ui
    ensures first == old(ui.changed) && !second && !ui.changed && ui.entries == old(ui.entries)
  {
    first := ui.HasChanged();
    second := ui.HasChanged();
  }

  /** After set_entry the flag reads true once, then false. */
  method SetThenRead(ui: UI, index: nat, text: string, action: Action) returns (first: bool, second: bool)
    modifies ui
    ensures first && !second
    ensures ui.NumEntries() == MaxInt(old(ui.NumEntries()), index + 1) && ui.GetText(index) == text
  {
    ui.SetEntry(index, text, action);
    first := ui.HasChanged();
    second := ui.HasChanged();
  }
}
