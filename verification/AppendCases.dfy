/** What append and insert make of every kind of table and of element, cell by cell. */
module AppendCases {
  import opened Options
  import opened Rows
  import opened Tables
  import opened PackLaws
  import opened AppendLaws

  /** The value under a column, null where there is none. */
  function CellAt(r: Row, c: Column): Value { if c in r then r[c] else Null }

  // ---- columns of both tables ----

  /** Appended rows: those of the table and then the new ones, all with the columns of both. */
  ghost predicate Behind(all: ArrowTable, t: ArrowTable, added: ArrowTable) {
    && all.cols == t.cols + added.cols
    && |all.rows| == |t.rows| + |added.rows|
    && forall i, c :: 0 <= i < |all.rows| && c in all.cols ==>
         c in all.rows[i] && all.rows[i][c] == CellAt(if i < |t.rows| then t.rows[i] else added.rows[i - |t.rows|], c)
  }

  lemma {:induction false} PromotedCells(t: ArrowTable, added: ArrowTable)
    ensures Behind(ConcatPromote(t, added), t, added)
  {}

  // ---- a grouped table ----

  /** The id of the i-th new element of a list: the largest id, the one after it, or counted up from there. */
  function NextId(largest: int, addNewGroup: bool, isGrouped: bool, i: nat): int {
    if !addNewGroup then largest else if isGrouped then largest + 1 else largest + 1 + i
  }

  /** A list of dicts goes behind the rows, each under its id. */
  lemma {:induction false} ListAppended(t: ArrowTable, elems: seq<Value>, addNewGroup: bool, isGrouped: bool)
    requires Packable(t) && Matching(elems, t) && MaxId(t.rows).Some? && MaxId(t.rows).value != -1
    ensures var a := Appended(t, List(elems), addNewGroup, isGrouped);
      && a.Ok? && a.value.cols == t.cols && |a.value.rows| == |t.rows| + |elems|
      && a.value.rows[..|t.rows|] == t.rows
      && forall i :: 0 <= i < |elems| ==>
           a.value.rows[|t.rows| + i] ==
           elems[i].fields[GROUP := Int(NextId(MaxId(t.rows).value, addNewGroup, isGrouped, i))]
  {
    hide Appended, AddModeFor, NextId;
    var mode := InferredMode(t, elems, addNewGroup, isGrouped);
    AppendedRows(t, elems, mode, addNewGroup, isGrouped);
    forall i | 0 <= i < |elems|
      ensures NewRows(elems, mode)[i] == elems[i].fields[GROUP := Int(NextId(MaxId(t.rows).value, addNewGroup, isGrouped, i))]
    {
      RowOfMode(elems, MaxId(t.rows).value, addNewGroup, isGrouped, i);
    }
  }

  lemma {:induction false} RowOfMode(elems: seq<Value>, largest: int, addNewGroup: bool, isGrouped: bool, i: nat)
    requires AllDicts(elems) && i < |elems| && largest != -1
    ensures NewRows(elems, ModeFrom(largest, addNewGroup, isGrouped))[i] ==
      elems[i].fields[GROUP := Int(NextId(largest, addNewGroup, isGrouped, i))]
  {}

  /** A single dict goes behind the rows, under the largest id or, in a new group, the one after it. */
  lemma {:induction false} DictAppended(t: ArrowTable, fields: Row, addNewGroup: bool, isGrouped: bool)
    requires Packable(t) && fields.Keys + {GROUP} == t.cols && MaxId(t.rows).Some? && MaxId(t.rows).value != -1
    ensures Appended(t, Dict(fields), addNewGroup, isGrouped) ==
      Ok(ArrowTable(t.cols, t.rows + [fields[GROUP := Int(MaxId(t.rows).value + if addNewGroup then 1 else 0)]]))
  {
    var row := fields[GROUP := Int(MaxId(t.rows).value + if addNewGroup then 1 else 0)];
    var mode := ModeFrom(MaxId(t.rows).value, addNewGroup, isGrouped);
    assert Marked(fields, mode, 0) == row;
    assert row.Keys == t.cols;
    SameColumns([row], t.cols);
    assert NewTable(Dict(fields), mode) == Ok(ArrowTable(t.cols, [row]));
    ConcatMatching(t.rows, [row], t.cols);
  }

  /** With the largest id -1 a single dict is appended without an id of its own. */
  lemma {:induction false} DictUnmarked(t: ArrowTable, fields: Row, addNewGroup: bool, isGrouped: bool)
    requires t.Grouped() && MaxId(t.rows) == Some(-1)
    ensures Appended(t, Dict(fields), addNewGroup, isGrouped) == Ok(ConcatPromote(t, FromPyList([fields])))
  {}

  // ---- a table without groups ----

  /** There are no rows, or neither of the two columns that make a table grouped or packed. */
  ghost predicate Ungrouped(t: ArrowTable) { t.rows == [] || (GROUP !in t.cols && t.cols != {PACK}) }

  /** The rows the caller passes in, under the columns of the first one. */
  ghost predicate ListedRows(added: ArrowTable, rows: seq<Row>)
    requires rows != []
  {
    && added.cols == rows[0].Keys && |added.rows| == |rows|
    && forall i, c :: 0 <= i < |rows| && c in added.cols ==> c in added.rows[i] && added.rows[i][c] == CellAt(rows[i], c)
  }

  lemma {:induction false} RowsListed(rows: seq<Row>)
    requires rows != []
    ensures ListedRows(FromPyList(rows), rows)
  {}

  /** No ids are given out, whatever the caller asks for: the rows are appended as they are. */
  lemma {:induction false} PlainAppended(t: ArrowTable, elem: Value, addNewGroup: bool, isGrouped: bool)
    returns (added: ArrowTable)
    requires Ungrouped(t)
    requires elem.Dict? || (elem.List? && elem.items != [] && AllDicts(elem.items))
    ensures var a := Appended(t, elem, addNewGroup, isGrouped);
      && a.Ok? && Behind(a.value, t, added)
      && ListedRows(added, if elem.Dict? then [elem.fields] else DictsToRows(elem.items))
  {
    var rows := if elem.Dict? then [elem.fields] else DictsToRows(elem.items);
    added := FromPyList(rows);
    assert elem.List? ==> NewRows(elem.items, Unmarked) == rows;
    RowsListed(rows);
    PromotedCells(t, added);
  }

  // ---- a packed table ----

  /** The cells a packed table gains: a list of dicts or a single dict makes one, lists and strings one each. */
  function NewCells(elem: Value): Option<seq<Value>> {
    match elem
    case Str(_) => Some([elem])
    case Dict(_) => Some([List([elem])])
    case List(items) =>
      if items == [] then None
      else
        (match items[0]
         case Dict(_) => Some([elem])
         case Str(_) => Some(items)
         case List(inner) => if inner != [] && inner[0].Dict? then Some(items) else None
         case _ => None)
    case _ => None
  }

  lemma {:induction false} PackedAppended(cells: seq<Value>, elem: Value, addNewGroup: bool, isGrouped: bool)
    requires cells != []
    ensures Appended(FromPacked(cells), elem, addNewGroup, isGrouped) ==
      match NewCells(elem)
      case Some(added) => Ok(FromPacked(cells + added))
      case None => Raised
  {
    if NewCells(elem).Some? {
      var added := NewCells(elem).value;
      assert NewTable(elem, ToPacked) == Ok(FromPacked(added));
      ConcatMatching(FromPacked(cells).rows, FromPacked(added).rows, {PACK});
      assert FromPacked(cells).rows + FromPacked(added).rows == FromPacked(cells + added).rows;
    }
  }

  // ---- what is refused ----

  /** Rows can be made of a dict and of a list of dicts; a string is for packed tables, an empty list for none. */
  lemma {:induction false} AppendRaises(t: ArrowTable, elem: Value, addNewGroup: bool, isGrouped: bool)
    requires !t.Packed() && (t.Grouped() ==> MaxId(t.rows).Some?)
    ensures Appended(t, elem, addNewGroup, isGrouped).Ok? <==>
      elem.Dict? || (elem.List? && elem.items != [] && AllDicts(elem.items))
  {}

  /** With null ids alone there is no largest one: it cannot be counted up, and a single dict not be marked with it. */
  lemma {:induction false} NullIdRaises(t: ArrowTable, elem: Value, addNewGroup: bool, isGrouped: bool)
    requires t.Grouped() && MaxId(t.rows) == None
    ensures Appended(t, elem, addNewGroup, isGrouped).Ok? <==>
      !addNewGroup && elem.List? && elem.items != [] && AllDicts(elem.items)
  {}

  // ---- insert ----

  /** Without a group id an insert is an append whose new rows stand before the given position. */
  lemma {:induction false} InsertedLikeAppended(t: ArrowTable, elem: Value, index: int, addNewGroup: bool, isGrouped: bool)
    requires forall r: Row :: r in t.rows ==> r.Keys == t.cols
    ensures Inserted(t, elem, index, -1, addNewGroup, isGrouped).Ok? <==>
      Appended(t, elem, addNewGroup, isGrouped).Ok? && 0 <= index <= |t.rows|
    ensures Inserted(t, elem, index, -1, addNewGroup, isGrouped).Ok? ==>
      var all, a := Appended(t, elem, addNewGroup, isGrouped).value, Inserted(t, elem, index, -1, addNewGroup, isGrouped).value;
      var n := |t.rows|;
      a.cols == all.cols && n <= |all.rows| && a.rows == all.rows[..index] + all.rows[n..] + all.rows[index..n]
  {
    hide NewTable, AddModeFor;
    var mode := AddModeFor(t, addNewGroup, isGrouped, -1);
    if mode.Ok? && NewTable(elem, mode.value).Ok? && 0 <= index <= |t.rows| {
      InsertedBetween(t, NewTable(elem, mode.value).value, index);
    }
  }

  /** Putting rows in between is putting them behind, and then in their place. */
  lemma {:induction false} InsertedBetween(t: ArrowTable, added: ArrowTable, index: nat)
    requires index <= |t.rows|
    ensures var all, n := ConcatPromote(t, added), |t.rows|;
      var a := ConcatPromote(ConcatPromote(ArrowTable(t.cols, t.rows[..index]), added), ArrowTable(t.cols, t.rows[index..]));
      a.cols == all.cols && n <= |all.rows| && a.rows == all.rows[..index] + all.rows[n..] + all.rows[index..n]
  {
    hide WithColumns;
    var all, n, k := ConcatPromote(t, added), |t.rows|, |added.rows|;
    var cols := all.cols;
    var front := ConcatPromote(ArrowTable(t.cols, t.rows[..index]), added);
    var a := ConcatPromote(front, ArrowTable(t.cols, t.rows[index..]));
    assert a.cols == cols && front.cols == cols;
    forall i | 0 <= i < index + k ensures a.rows[i] == all.rows[if i < index then i else n + i - index] {
      WidenedTwice(if i < index then t.rows[i] else added.rows[i - index], cols);
    }
    forall i | index + k <= i < n + k ensures a.rows[i] == all.rows[i - k] {
      assert (front.rows + t.rows[index..])[i] == t.rows[i - k];
    }
    SplitInThree(a.rows, all.rows, index, n, k);
  }

  lemma {:induction false} SplitInThree<T>(a: seq<T>, all: seq<T>, index: nat, n: nat, k: nat)
    requires index <= n && |a| == |all| == n + k
    requires forall i :: 0 <= i < index + k ==> a[i] == all[if i < index then i else n + i - index]
    requires forall i :: index + k <= i < n + k ==> a[i] == all[i - k]
    ensures a == all[..index] + all[n..] + all[index..n]
  {}

  lemma {:induction false} WidenedTwice(r: Row, cols: set<Column>)
    ensures WithColumns(WithColumns(r, cols), cols) == WithColumns(r, cols)
  {}

  /** The id that is given goes for grouped tables only. */
  lemma {:induction false} InsertIgnoresId(t: ArrowTable, elem: Value, index: int, groupId: int, addNewGroup: bool, isGrouped: bool)
    requires !t.Grouped()
    ensures Inserted(t, elem, index, groupId, addNewGroup, isGrouped) == Inserted(t, elem, index, -1, addNewGroup, isGrouped)
  {}

  /** A position outside of the table is refused. */
  lemma {:induction false} InsertOutside(t: ArrowTable, elem: Value, index: int, groupId: int, addNewGroup: bool, isGrouped: bool)
    requires index < 0 || index > |t.rows|
    ensures Inserted(t, elem, index, groupId, addNewGroup, isGrouped) == Raised
  {}
}
