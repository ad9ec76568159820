/**
 List arrays as values, offsets and validity, the loops that build them, and the coalescing of several physical
 lanes into one logical column.
*/
module ArrowLists {
  import opened Prelude

  /** A NULL row is None; a list row is a sequence of nullable elements. */
  type ListRow<T> = Option<seq<Option<T>>>

  /** Row i of a list array is values[offsets[i]..offsets[i + 1]], unless it is not valid. */
  datatype ListArray<T> = ListArray(values: seq<Option<T>>, offsets: seq<nat>, validity: seq<bool>)

  /** Offsets start at zero, never fall, and end at the number of values; a NULL row may span values. */
  ghost predicate WellFormed<T>(a: ListArray<T>) {
    && |a.offsets| == |a.validity| + 1
    && a.offsets[0] == 0
    && a.offsets[|a.validity|] == |a.values|
    && (forall i, j :: 0 <= i <= j < |a.offsets| ==> a.offsets[i] <= a.offsets[j])
  }

  function RowAt<T>(a: ListArray<T>, i: nat): ListRow<T>
    requires WellFormed(a) && i < |a.validity|
  {
    if a.validity[i] then Some(a.values[a.offsets[i]..a.offsets[i + 1]]) else None
  }

  ghost function Rows<T>(a: ListArray<T>): (rows: seq<ListRow<T>>)
    requires WellFormed(a)
    ensures |rows| == |a.validity| && forall i :: 0 <= i < |rows| ==> rows[i] == RowAt(a, i)
  {
    seq(|a.validity|, i requires 0 <= i < |a.validity| => RowAt(a, i))
  }

  /** Appends elements to the open row, and closes rows. */
  class ListBuilder<T> {
    var values: seq<Option<T>>
    var offsets: seq<nat>
    var validity: seq<bool>

    ghost predicate Valid()
      reads this
    {
      |offsets| > 0 && offsets[|offsets| - 1] <= |values| &&
      WellFormed(ListArray(values[..offsets[|offsets| - 1]], offsets, validity))
    }

    /** The closed rows. */
    ghost function Done(): seq<ListRow<T>>
      requires Valid()
      reads this
    {
      Rows(ListArray(values[..offsets[|offsets| - 1]], offsets, validity))
    }

    /** The elements of the open row. */
    ghost function Open(): seq<Option<T>>
      requires Valid()
      reads this
    {
      values[offsets[|offsets| - 1]..]
    }

    constructor ()
      ensures Valid() && Done() == [] && Open() == []
    {
      values, offsets, validity := [], [0], [];
    }

    method AppendElement(value: Option<T>)
      requires Valid()
      modifies this`values
      ensures Valid() && Done() == old(Done()) && Open() == old(Open()) + [value]
    {
      ghost var closed := offsets[|offsets| - 1];
      assert (values + [value])[..closed] == values[..closed];
      values := values + [value];
    }

    /** Closes the open row. A row closed as NULL keeps its elements out of sight. */
    method Append(valid: bool)
      requires Valid()
      modifies this`offsets, this`validity
      ensures Valid() && Open() == []
      ensures Done() == old(Done()) + [if valid then Some(old(Open())) else None]
    {
      ghost var before := ListArray(values[..offsets[|offsets| - 1]], offsets, validity);
      offsets := offsets + [|values|];
      validity := validity + [valid];
      assert values[..|values|] == values;
      ghost var after := ListArray(values, offsets, validity);
      forall i | 0 <= i < |before.validity|
        ensures RowAt(after, i) == RowAt(before, i)
      {
        assert before.offsets[i + 1] <= before.offsets[|before.validity|];
        if before.validity[i] {
          assert after.values[before.offsets[i]..before.offsets[i + 1]] ==
            before.values[before.offsets[i]..before.offsets[i + 1]];
        }
      }
      assert Done() == old(Done()) + [if valid then Some(old(Open())) else None];
    }

    method Finish() returns (list: ListArray<T>)
      requires Valid() && Open() == []
      ensures WellFormed(list) && Rows(list) == Done()
    {
      assert values[..offsets[|offsets| - 1]] == values;
      list := ListArray(values, offsets, validity);
    }
  }

  // ---------------------------------------------------------------------------
  // The building loops
  // ---------------------------------------------------------------------------

  /** One value becomes a one-element list, NULL stays NULL. */
  function WrapRow<T>(value: Option<T>): ListRow<T> {
    if value.Some? then Some([value]) else None
  }

  method WrapScalarArrayInList<T>(scalars: seq<Option<T>>) returns (list: ListArray<T>)
    ensures WellFormed(list) && |Rows(list)| == |scalars|
    ensures forall i :: 0 <= i < |scalars| ==> Rows(list)[i] == WrapRow(scalars[i])
  {
    var builder := new ListBuilder<T>();
    for row := 0 to |scalars|
      invariant fresh(builder) && builder.Valid() && builder.Open() == []
      invariant |builder.Done()| == row
      invariant forall i :: 0 <= i < row ==> builder.Done()[i] == WrapRow(scalars[i])
    {
      ghost var done := builder.Done();
      if scalars[row].None? {
        builder.Append(false);
      } else {
        builder.AppendElement(scalars[row]);
        assert builder.Open() == [scalars[row]];
        builder.Append(true);
      }
      assert builder.Done() == done + [WrapRow(scalars[row])];
    }
    list := builder.Finish();
  }

  /** A multi-valued fast field: every document has a list, possibly empty, never NULL. */
  method BuildListFromValues<T>(docs: seq<nat>, valuesForDoc: nat -> seq<T>) returns (list: ListArray<T>)
    ensures WellFormed(list) && |Rows(list)| == |docs|
    ensures forall i :: 0 <= i < |docs| ==>
      Rows(list)[i].Some? && Rows(list)[i].value == Present(valuesForDoc(docs[i]))
  {
    var builder := new ListBuilder<T>();
    for row := 0 to |docs|
      invariant fresh(builder) && builder.Valid() && builder.Open() == []
      invariant |builder.Done()| == row
      invariant forall i :: 0 <= i < row ==> builder.Done()[i] == Some(Present(valuesForDoc(docs[i])))
    {
      var values := valuesForDoc(docs[row]);
      ghost var done := builder.Done();
      for n := 0 to |values|
        invariant fresh(builder) && builder.Valid() && builder.Open() == Present(values)[..n]
        invariant builder.Done() == done
      {
        builder.AppendElement(Some(values[n]));
      }
      assert builder.Open() == Present(values);
      builder.Append(true);
      assert builder.Done() == done + [Some(Present(values))];
    }
    list := builder.Finish();
  }

  function Present<T>(values: seq<T>): (elements: seq<Option<T>>)
    ensures |elements| == |values| && forall i :: 0 <= i < |values| ==> elements[i] == Some(values[i])
  {
    seq(|values|, i requires 0 <= i < |values| => Some(values[i]))
  }

  /** Each element parsed; NULL for a NULL or unparsable element, and the list keeps its length. */
  function CastRow<S, T>(row: ListRow<S>, parse: S -> Option<T>): (cast: ListRow<T>)
    ensures cast.Some? == row.Some? && (row.Some? ==> |cast.value| == |row.value|)
  {
    match row
    case None => None
    case Some(elements) =>
      Some(seq(|elements|, i requires 0 <= i < |elements| =>
        if elements[i].Some? then parse(elements[i].value) else None))
  }

  /** One turn of the casting loop. */
  method AppendCastRow<S, T>(builder: ListBuilder<T>, source: ListArray<S>, row: nat, parse: S -> Option<T>)
    requires builder.Valid() && builder.Open() == []
    requires WellFormed(source) && row < |source.validity|
    modifies builder
    ensures builder.Valid() && builder.Open() == []
    ensures builder.Done() == old(builder.Done()) + [CastRow(RowAt(source, row), parse)]
  {
    if !source.validity[row] {
      builder.Append(false);
      return;
    }
    ghost var target := CastRow(RowAt(source, row), parse).value;
    var start, end := source.offsets[row], source.offsets[row + 1];
    for idx := start to end
      invariant builder.Valid() && builder.Done() == old(builder.Done())
      invariant builder.Open() == target[..idx - start]
    {
      assert source.values[start..end][idx - start] == source.values[idx];
      builder.AppendElement(if source.values[idx].Some? then parse(source.values[idx].value) else None);
    }
    assert target[..end - start] == target;
    builder.Append(true);
  }

  method TryCastList<S, T>(source: ListArray<S>, parse: S -> Option<T>) returns (list: ListArray<T>)
    requires WellFormed(source)
    ensures WellFormed(list) && |Rows(list)| == |Rows(source)|
    ensures forall i :: 0 <= i < |Rows(source)| ==> Rows(list)[i] == CastRow(Rows(source)[i], parse)
  {
    var builder := new ListBuilder<T>();
    for row := 0 to |source.validity|
      invariant fresh(builder) && builder.Valid() && builder.Open() == []
      invariant |builder.Done()| == row
      invariant forall i :: 0 <= i < row ==> builder.Done()[i] == CastRow(RowAt(source, i), parse)
    {
      AppendCastRow(builder, source, row, parse);
    }
    list := builder.Finish();
  }

  // ---------------------------------------------------------------------------
  // Lanes
  // ---------------------------------------------------------------------------

  datatype Column<T> = Scalars(values: seq<Option<T>>) | Lists(list: ListArray<T>)

  datatype Cell<T> = ScalarCell(value: Option<T>) | ListCell(row: ListRow<T>)

  ghost predicate ValidColumn<T>(column: Column<T>) {
    column.Lists? ==> WellFormed(column.list)
  }

  function Length<T>(column: Column<T>): nat {
    match column
    case Scalars(values) => |values|
    case Lists(list) => |list.validity|
  }

  function CellAt<T>(column: Column<T>, i: nat): Cell<T>
    requires ValidColumn(column) && i < Length(column)
  {
    match column
    case Scalars(values) => ScalarCell(values[i])
    case Lists(list) => ListCell(RowAt(list, i))
  }

  /** A list counts only if it has a non-null element. */
  predicate IsPresent<T>(cell: Cell<T>) {
    match cell
    case ScalarCell(value) => value.Some?
    case ListCell(None) => false
    case ListCell(Some(elements)) => exists i :: 0 <= i < |elements| && elements[i].Some?
  }

  /** Row i has a value: its single value, or one of its elements, is not NULL. */
  ghost predicate HasValue<T>(column: Column<T>, i: nat)
    requires ValidColumn(column) && i < Length(column)
  {
    match column
    case Scalars(values) => values[i] != None
    case Lists(list) =>
      list.validity[i] && exists k :: list.offsets[i] <= k < list.offsets[i + 1] && list.values[k] != None
  }

  lemma {:induction false} PresentHasValue<T>(column: Column<T>, i: nat)
    requires ValidColumn(column) && i < Length(column)
    ensures IsPresent(CellAt(column, i)) <==> HasValue(column, i)
  {
    if column.Lists? && column.list.validity[i] {
      var list, start := column.list, column.list.offsets[i];
      var elements := CellAt(column, i).row.value;
      assert forall k :: start <= k < list.offsets[i + 1] ==> list.values[k] == elements[k - start];
      assert forall k :: 0 <= k < |elements| ==> elements[k] == list.values[start + k];
    }
  }

  method SourceValuePresentMask<T>(column: Column<T>) returns (mask: seq<bool>)
    requires ValidColumn(column)
    ensures |mask| == Length(column)
    ensures forall i :: 0 <= i < |mask| ==> (mask[i] <==> HasValue(column, i))
    ensures forall i :: 0 <= i < |mask| ==> mask[i] == IsPresent(CellAt(column, i))
  {
    mask := [];
    match column
    case Scalars(values) =>
      for row := 0 to |values|
        invariant |mask| == row && forall i :: 0 <= i < row ==> mask[i] == values[i].Some?
      {
        mask := mask + [values[row].Some?];
      }
    case Lists(list) =>
      for row := 0 to |list.validity|
        invariant |mask| == row
        invariant forall i :: 0 <= i < row ==> mask[i] == IsPresent(CellAt(column, i)) && mask[i] == HasValue(column, i)
      {
        var present := false;
        if list.validity[row] {
          var start, end := list.offsets[row], list.offsets[row + 1];
          ghost var elements := list.values[start..end];
          for idx := start to end
            invariant present <==> exists i :: 0 <= i < idx - start && elements[i].Some?
          {
            assert elements[idx - start] == list.values[idx];
            if list.values[idx].Some? {
              present := true;
            }
          }
          assert CellAt(column, row) == ListCell(Some(elements));
        }
        assert present == IsPresent(CellAt(column, row));
        PresentHasValue(column, row);
        mask := mask + [present];
      }
  }

  method CopyRow<T>(builder: ListBuilder<T>, source: ListArray<T>, row: nat)
    requires builder.Valid() && builder.Open() == []
    requires WellFormed(source) && row < |source.validity|
    modifies builder
    ensures builder.Valid() && builder.Open() == []
    ensures builder.Done() == old(builder.Done()) + [RowAt(source, row)]
  {
    var start, end := source.offsets[row], source.offsets[row + 1];
    for idx := start to end
      invariant builder.Valid() && builder.Done() == old(builder.Done())
      invariant builder.Open() == source.values[start..idx]
    {
      assert source.values[start..idx + 1] == source.values[start..idx] + [source.values[idx]];
      builder.AppendElement(source.values[idx]);
    }
    builder.Append(source.validity[row]);
  }

  /** Row by row, the first column where the mask is set and the second elsewhere. */
  method Zip<T>(mask: seq<bool>, a: Column<T>, b: Column<T>) returns (zipped: Column<T>)
    requires ValidColumn(a) && ValidColumn(b) && a.Lists? == b.Lists?
    requires |mask| == Length(a) == Length(b)
    ensures ValidColumn(zipped) && zipped.Lists? == a.Lists? && Length(zipped) == |mask|
    ensures forall i :: 0 <= i < |mask| ==> CellAt(zipped, i) == if mask[i] then CellAt(a, i) else CellAt(b, i)
  {
    if a.Scalars? {
      zipped := Scalars(
        seq(|mask|, i requires 0 <= i < |mask| => if mask[i] then a.values[i] else b.values[i]));
      return;
    }
    var builder := new ListBuilder<T>();
    for row := 0 to |mask|
      invariant fresh(builder) && builder.Valid() && builder.Open() == []
      invariant |builder.Done()| == row
      invariant forall i :: 0 <= i < row ==>
        builder.Done()[i] == if mask[i] then RowAt(a.list, i) else RowAt(b.list, i)
    {
      var source := if mask[row] then a.list else b.list;
      CopyRow(builder, source, row);
    }
    var list := builder.Finish();
    zipped := Lists(list);
    assert forall i :: 0 <= i < |mask| ==> Rows(list)[i] == RowAt(list, i);
  }

  /** The first source whose row is present, otherwise the last source's row. */
  function FirstPresent<T>(columns: seq<Column<T>>, row: nat): Cell<T>
    requires columns != [] && forall c :: 0 <= c < |columns| ==> ValidColumn(columns[c]) && row < Length(columns[c])
  {
    if |columns| == 1 || IsPresent(CellAt(columns[0], row)) then CellAt(columns[0], row)
    else FirstPresent(columns[1..], row)
  }

  /** All lanes are valid, of one kind, and n rows long. */
  ghost predicate Lanes<T>(columns: seq<Column<T>>, lists: bool, n: nat) {
    forall c :: 0 <= c < |columns| ==> ValidColumn(columns[c]) && columns[c].Lists? == lists && Length(columns[c]) == n
  }

  method CoalesceProjectedArrays<T>(columns: seq<Column<T>>, ghost lists: bool, ghost n: nat)
    returns (r: Option<Column<T>>)
    requires Lanes(columns, lists, n)
    ensures r.None? <==> columns == []
    ensures r.Some? ==>
      ValidColumn(r.value) && Length(r.value) == n &&
      forall row :: 0 <= row < n ==> CellAt(r.value, row) == FirstPresent(columns, row)
  {
    if columns == [] {
      return None;
    }
    var merged := columns[0];
    assert [merged] + columns[1..] == columns;
    for k := 1 to |columns|
      invariant ValidColumn(merged) && merged.Lists? == lists && Length(merged) == n
      invariant Lanes([merged] + columns[k..], lists, n)
      invariant forall row :: 0 <= row < n ==>
        FirstPresent([merged] + columns[k..], row) == FirstPresent(columns, row)
    {
      var mask := SourceValuePresentMask(merged);
      var next := Zip(mask, merged, columns[k]);
      forall row | 0 <= row < n
        ensures FirstPresent([next] + columns[k + 1..], row) == FirstPresent(columns, row)
      {
        var before, after := [merged] + columns[k..], [next] + columns[k + 1..];
        assert before[1..] == columns[k..] && before[1..][1..] == columns[k + 1..];
        assert after[1..] == columns[k + 1..];
        assert FirstPresent(before, row) == FirstPresent(columns, row);
      }
      merged := next;
    }
    assert [merged] + columns[|columns|..] == [merged];
    forall row | 0 <= row < n
      ensures CellAt(merged, row) == FirstPresent(columns, row)
    {
      assert FirstPresent([merged], row) == CellAt(merged, row);
    }
    return Some(merged);
  }

  /**
   The coalesced row is that of the first lane with a value in the row, or of the last lane if none has one. A list of
   NULLs has no value, and so yields to the next lane.
  */
  lemma {:induction false} FirstPresentMeaning<T>(columns: seq<Column<T>>, row: nat)
    requires columns != [] && forall c :: 0 <= c < |columns| ==> ValidColumn(columns[c]) && row < Length(columns[c])
    ensures forall c :: 0 <= c < |columns| ==>
      (HasValue(columns[c], row) && (forall d :: 0 <= d < c ==> !HasValue(columns[d], row)) ==>
      FirstPresent(columns, row) == CellAt(columns[c], row))
    ensures (forall c :: 0 <= c < |columns| ==> !HasValue(columns[c], row)) ==>
      FirstPresent(columns, row) == CellAt(columns[|columns| - 1], row)
  {
    PresentHasValue(columns[0], row);
    if |columns| > 1 && !IsPresent(CellAt(columns[0], row)) {
      FirstPresentMeaning(columns[1..], row);
      assert forall c :: 1 <= c < |columns| ==> columns[c] == columns[1..][c - 1];
      assert forall c :: 0 <= c < |columns[1..]| ==> columns[1..][c] == columns[c + 1];
    }
  }
}
