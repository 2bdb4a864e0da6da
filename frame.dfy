/** The part of a pandas `DataFrame` that loading changes in place: its column labels and columns. */
module Frames {
  import opened Wrappers

  /** One column with the dtype it has at that point of loading. */
  datatype Column =
    | Text(cells: seq<Option<string>>)
    | Stamps(days: seq<Option<int>>)
    | Floats(values: seq<real>)

  function Height(c: Column): nat
  {
    match c
    case Text(cells) => |cells|
    case Stamps(days) => |days|
    case Floats(values) => |values|
  }

  /** The label index `df[name]` selects: the first column with that label, `None` for a `KeyError`. */
  function Position(names: seq<string>, name: string): (r: Option<nat>)
    ensures r.Some? ==> r.value < |names| && names[r.value] == name
    ensures r.Some? ==> forall k :: 0 <= k < r.value ==> names[k] != name
    ensures r.None? <==> name !in names
  {
    if names == [] then None
    else if names[0] == name then Some(0)
    else match Position(names[1..], name)
      case Some(k) => Some(k + 1)
      case None => None
  }

  class Frame {
    var names: seq<string>
    var columns: seq<Column>
    const height: nat

    /** One label per column, and every column has `height` cells. */
    ghost predicate Valid()
      reads this
    {
      |names| == |columns| && forall j :: 0 <= j < |columns| ==> Height(columns[j]) == height
    }

    /** The frame `read_csv` hands over: every column still text. */
    constructor (header: seq<string>, cells: seq<seq<Option<string>>>, height: nat)
      requires |header| == |cells|
      requires forall j :: 0 <= j < |cells| ==> |cells[j]| == height
      ensures Valid()
      ensures names == header && this.height == height
      ensures |columns| == |cells| && forall j :: 0 <= j < |cells| ==> columns[j] == Text(cells[j])
    {
      names := header;
      columns := seq(|cells|, j requires 0 <= j < |cells| => Text(cells[j]));
      this.height := height;
    }

    /** `df.columns = new`: relabels every column at once, leaving the data alone. */
    method Relabel(labels: seq<string>)
      modifies this
      requires Valid() && |labels| == |names|
      ensures Valid()
      ensures names == labels && columns == old(columns)
    {
      names := labels;
    }

    /** `df[names[j]] = c`: replaces one existing column and nothing else. */
    method Assign(j: nat, c: Column)
      modifies this
      requires Valid() && j < |columns| && Height(c) == height
      ensures Valid()
      ensures names == old(names) && columns == old(columns)[j := c]
    {
      columns := columns[j := c];
    }
  }
}
