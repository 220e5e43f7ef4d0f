/** The stock screen: a selection of item names toggled one by one, and
    the order message built from it. */
module Stock {
  import opened Wrappers
  import Seqs
  import Text

  /** Keeps every name but `name`. */
  function Except(name: string): string -> bool
  {
    x => x != name
  }

  /** `toggleItem`: a selected name is removed, every occurrence of it;
      any other name is appended at the end. */
  function Toggle(selected: seq<string>, name: string): (r: seq<string>)
    ensures name in selected ==> r == Seqs.Filter(selected, Except(name))
    ensures name !in selected ==> r == selected + [name]
  {
    if name in selected then Seqs.Filter(selected, Except(name)) else selected + [name]
  }

  /** The toggled name changes membership; every other name keeps it. */
  lemma ToggleFlips(selected: seq<string>, name: string)
    ensures name in Toggle(selected, name) <==> name !in selected
    ensures forall n :: n != name ==> (n in Toggle(selected, name) <==> n in selected)
  {
    var r := Toggle(selected, name);
    if name in selected {
      forall n | n != name && n in selected ensures n in r {
        var i :| 0 <= i < |selected| && selected[i] == n;
        assert Except(name)(selected[i]);
      }
    }
  }

  /** The other names keep their order: apart from the toggled name the
      selection is exactly what it was. */
  lemma ToggleKeepsOthers(selected: seq<string>, name: string)
    ensures Seqs.Filter(Toggle(selected, name), Except(name)) == Seqs.Filter(selected, Except(name))
  {
    var p := Except(name);
    if name in selected {
      Seqs.FilterAll(Seqs.Filter(selected, p), p);
    } else {
      Seqs.FilterAppend(selected, [name], p);
      assert Seqs.Filter([name], p) == [] by {
        assert !p(name);
        assert [name][1..] == [];
      }
      assert selected + [name] == Toggle(selected, name);
    }
  }

  /** Toggling a name that is not selected twice gives back the
      selection. */
  lemma ToggleTwice(selected: seq<string>, name: string)
    requires name !in selected
    ensures Toggle(Toggle(selected, name), name) == selected
  {
    var p := Except(name);
    var once := selected + [name];
    assert name in once;
    Seqs.FilterAppend(selected, [name], p);
    assert Seqs.Filter([name], p) == [] by {
      assert !p(name);
      assert [name][1..] == [];
    }
    assert forall i :: 0 <= i < |selected| ==> p(selected[i]);
    Seqs.FilterAll(selected, p);
  }

  const Header: string := "\U{26A0}\U{FE0F} *PEDIDO DE STOCK*\n\nSe necesita urgente:\n"

  /** One line per selected name, in selection order. */
  function Lines(selected: seq<string>): (r: seq<string>)
    ensures |r| == |selected|
    ensures forall i :: 0 <= i < |r| ==> r[i] == "\U{2022} " + selected[i]
  {
    seq(|selected|, i requires 0 <= i < |selected| => "\U{2022} " + selected[i])
  }

  /** The text of `sendList`: none for an empty selection, else the fixed
      header and the lines joined by line breaks. */
  function Message(selected: seq<string>): (r: Option<string>)
    ensures r.None? <==> |selected| == 0
    ensures r.Some? ==> r.value == Header + Text.Join(Lines(selected), '\n')
  {
    if |selected| == 0 then None else Some(Header + Text.Join(Lines(selected), '\n'))
  }

  /** When no name holds a line break, the list part of the message
      splits back into exactly one line per selected name. */
  lemma MessageLines(selected: seq<string>)
    requires |selected| > 0
    requires forall i :: 0 <= i < |selected| ==> '\n' !in selected[i]
    ensures Message(selected).Some?
    ensures Message(selected).value[|Header|..] == Text.Join(Lines(selected), '\n')
    ensures Text.Split(Message(selected).value[|Header|..], '\n') == Lines(selected)
  {
    var ls := Lines(selected);
    forall i | 0 <= i < |ls| ensures '\n' !in ls[i] {
      assert ls[i] == "\U{2022} " + selected[i];
      assert ls[i][2..] == selected[i];
    }
    Text.JoinSplit(ls, '\n');
  }

  class StockScreen {
    var selected: seq<string>

    constructor ()
      ensures selected == []
    {
      selected := [];
    }

    method ToggleItem(name: string)
      modifies this
      ensures selected == Toggle(old(selected), name)
    {
      selected := Toggle(selected, name);
    }

    /** `sendList`: the message to open in the messaging app; the
        selection is cleared once it is sent. */
    method SendList() returns (message: Option<string>)
      modifies this
      ensures message == Message(old(selected))
      ensures message.Some? ==> selected == []
      ensures message.None? ==> selected == old(selected)
    {
      message := Message(selected);
      if message.Some? {
        selected := [];
      }
    }
  }
}
