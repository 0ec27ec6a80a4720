/** Stable sorting and stable grouping of rows by the integer in their `_group` column. */
module Grouping {
  import opened Rows
  import opened Sequences

  /** The group id of a row; rows of a grouped table without null ids always carry an integer. */
  function Id(r: Row): int {
    if GROUP in r && r[GROUP].Int? then r[GROUP].n else 0
  }

  ghost predicate Ascending(s: seq<Row>) {
    forall i, j :: 0 <= i < j < |s| ==> Id(s[i]) <= Id(s[j])
  }

  ghost predicate StrictlyIncreasing(ids: seq<int>) {
    forall i, j :: 0 <= i < j < |ids| ==> ids[i] < ids[j]
  }

  /** The rows of one group, in their original order: the reference for "stable". */
  function Select(s: seq<Row>, g: int): seq<Row> {
    if s == [] then []
    else
      var n := |s| - 1;
      if Id(s[n]) == g then Select(s[..n], g) + [s[n]] else Select(s[..n], g)
  }

  function InsertAfterEquals(s: seq<Row>, r: Row): seq<Row> {
    if s == [] || Id(s[|s| - 1]) <= Id(r) then s + [r]
    else InsertAfterEquals(s[..|s| - 1], r) + [s[|s| - 1]]
  }

  /** pyarrow's sort_by on the group column, which is a stable ascending sort. */
  function StableSort(s: seq<Row>): seq<Row> {
    if s == [] then []
    else InsertAfterEquals(StableSort(s[..|s| - 1]), s[|s| - 1])
  }

  function AddId(ids: seq<int>, g: int): seq<int> {
    if ids == [] || ids[|ids| - 1] < g then ids + [g]
    else if ids[|ids| - 1] == g then ids
    else AddId(ids[..|ids| - 1], g) + [ids[|ids| - 1]]
  }

  /** The distinct group ids in ascending order. */
  function Ids(s: seq<Row>): seq<int> {
    if s == [] then [] else AddId(Ids(s[..|s| - 1]), Id(s[|s| - 1]))
  }

  /** The group-by the documentation promises: one group per distinct id, ids ascending. */
  function GroupBy(s: seq<Row>): seq<seq<Row>> {
    SelectAll(s, Ids(s))
  }

  function SelectAll(s: seq<Row>, ids: seq<int>): seq<seq<Row>> {
    seq(|ids|, k requires 0 <= k < |ids| => Select(s, ids[k]))
  }

  /** Maximal runs of neighbouring rows with the same id. */
  function Runs(s: seq<Row>): seq<seq<Row>> {
    if s == [] then []
    else
      var n := |s| - 1;
      var rs := Runs(s[..n]);
      if n > 0 && rs != [] && Id(s[n - 1]) == Id(s[n])
      then rs[..|rs| - 1] + [rs[|rs| - 1] + [s[n]]]
      else rs + [[s[n]]]
  }

  // ---- Select and Ids on extended sequences ----

  lemma {:induction false} SelectConcat(s: seq<Row>, t: seq<Row>, g: int)
    ensures Select(s + t, g) == Select(s, g) + Select(t, g)
  {
    if t == [] {
      assert s + t == s;
    } else {
      var n := |t| - 1;
      assert (s + t)[..|s + t| - 1] == s + t[..n];
      SelectConcat(s, t[..n], g);
    }
  }

  lemma {:induction false} SelectOne(r: Row, g: int)
    ensures Select([r], g) == if Id(r) == g then [r] else []
  {
    assert [r][..0] == [];
  }

  lemma {:induction false} SelectOutside(s: seq<Row>, g: int)
    requires forall r :: r in s ==> Id(r) != g
    ensures Select(s, g) == []
  {
    if s != [] { SelectOutside(s[..|s| - 1], g); }
  }

  lemma {:induction false} SelectMembers(s: seq<Row>, g: int)
    ensures forall r :: r in Select(s, g) <==> r in s && Id(r) == g
  {
    if s != [] {
      var n := |s| - 1;
      SelectMembers(s[..n], g);
      assert s == s[..n] + [s[n]];
    }
  }

  lemma {:induction false} AddIdCorrect(ids: seq<int>, g: int)
    requires StrictlyIncreasing(ids)
    ensures StrictlyIncreasing(AddId(ids, g))
    ensures forall h :: h in AddId(ids, g) <==> h in ids || h == g
  {
    if ids == [] || ids[|ids| - 1] <= g {
    } else {
      var n := |ids| - 1;
      AddIdCorrect(ids[..n], g);
      assert ids == ids[..n] + [ids[n]];
      var a := AddId(ids[..n], g);
      forall i | 0 <= i < |a| ensures a[i] < ids[n] { assert a[i] in a; }
    }
  }

  /** The ids are listed once each, in ascending order. */
  lemma {:induction false} IdsCorrect(s: seq<Row>)
    ensures StrictlyIncreasing(Ids(s))
    ensures forall g :: g in Ids(s) <==> exists r :: r in s && Id(r) == g
  {
    if s != [] {
      var n := |s| - 1;
      IdsCorrect(s[..n]);
      AddIdCorrect(Ids(s[..n]), Id(s[n]));
      assert s == s[..n] + [s[n]];
      assert s[n] in s;
      forall g ensures g in Ids(s) <==> exists r :: r in s && Id(r) == g {
        if g in Ids(s[..n]) {
          var r :| r in s[..n] && Id(r) == g;
          assert r in s;
        }
        if r :| r in s && Id(r) == g {
          assert r in s[..n] || r == s[n];
        }
      }
    }
  }

  /** Two strictly increasing sequences with the same members are equal. */
  lemma {:induction false} EnumerationUnique(a: seq<int>, b: seq<int>)
    requires StrictlyIncreasing(a) && StrictlyIncreasing(b)
    requires forall g :: g in a <==> g in b
    ensures a == b
  {
    assert a == [] <==> b == [] by {
      if a != [] { assert a[0] in a; }
      if b != [] { assert b[0] in b; }
    }
    if a != [] {
      var i, j := |a| - 1, |b| - 1;
      assert a[i] in b && b[j] in a;
      assert a[i] == b[j];
      forall g ensures g in a[..i] <==> g in b[..j] {
        if g in a[..i] { assert g in a && g != a[i]; }
        if g in b[..j] { assert g in b && g != b[j]; }
      }
      EnumerationUnique(a[..i], b[..j]);
      assert a == a[..i] + [a[i]] && b == b[..j] + [b[j]];
    }
  }

  // ---- the sort is the stable sort ----

  lemma {:induction false} InsertMembers(s: seq<Row>, r: Row)
    ensures multiset(InsertAfterEquals(s, r)) == multiset(s) + multiset{r}
  {
    if s == [] || Id(s[|s| - 1]) <= Id(r) {
    } else {
      var front, last := s[..|s| - 1], s[|s| - 1];
      assert s == front + [last] && InsertAfterEquals(s, r) == InsertAfterEquals(front, r) + [last];
      hide InsertAfterEquals;
      InsertMembers(front, r);
    }
  }

  lemma {:induction false} InsertAscending(s: seq<Row>, r: Row)
    requires Ascending(s)
    ensures Ascending(InsertAfterEquals(s, r))
  {
    if s == [] || Id(s[|s| - 1]) <= Id(r) {
    } else {
      var front, last := s[..|s| - 1], s[|s| - 1];
      InsertAscending(front, r);
      InsertMembers(front, r);
      var ins := InsertAfterEquals(front, r);
      forall i | 0 <= i < |ins| ensures Id(ins[i]) <= Id(last) {
        assert ins[i] in multiset(ins);
        assert ins[i] in front || ins[i] == r;
      }
    }
  }

  lemma {:induction false} InsertKeepsGroups(s: seq<Row>, r: Row, g: int)
    ensures Select(InsertAfterEquals(s, r), g) == Select(s, g) + Select([r], g)
  {
    hide Select;
    if s == [] || Id(s[|s| - 1]) <= Id(r) {
      SelectConcat(s, [r], g);
    } else {
      var front, last := s[..|s| - 1], s[|s| - 1];
      InsertKeepsGroups(front, r, g);
      SelectConcat(InsertAfterEquals(front, r), [last], g);
      SelectPass(front, last, r, g);
      assert s == front + [last];
    }
  }

  /** Rows of different groups may change places. */
  lemma {:induction false} SelectPass(front: seq<Row>, last: Row, r: Row, g: int)
    requires Id(last) != Id(r)
    ensures Select(front, g) + Select([r], g) + Select([last], g) == Select(front + [last], g) + Select([r], g)
  {
    SelectConcat(front, [last], g);
    SelectOne(last, g);
    SelectOne(r, g);
  }

  lemma {:induction false} SortKeepsGroup(s: seq<Row>, g: int)
    ensures Select(StableSort(s), g) == Select(s, g)
  {
    if s != [] {
      var front, r := s[..|s| - 1], s[|s| - 1];
      SortKeepsGroup(front, g);
      InsertKeepsGroups(StableSort(front), r, g);
      SelectConcat(front, [r], g);
      assert s == front + [r];
    }
  }

  lemma {:induction false} SortAscending(s: seq<Row>)
    ensures Ascending(StableSort(s))
  {
    if s != [] {
      hide StableSort, Ascending;
      var front, r := s[..|s| - 1], s[|s| - 1];
      assert s == front + [r];
      SortAscending(front);
      SortMore(front, r);
      InsertAscending(StableSort(front), r);
    }
  }

  lemma {:induction false} SortKeepsRows(s: seq<Row>)
    ensures multiset(StableSort(s)) == multiset(s)
  {
    if s != [] {
      hide StableSort;
      var front, r := s[..|s| - 1], s[|s| - 1];
      SortKeepsRows(front);
      SortMore(front, r);
      InsertMembers(StableSort(front), r);
      assert s == front + [r];
    }
  }

  /** Ascending by id, nothing lost or duplicated, and the order inside every group kept. */
  lemma {:induction false} StableSortCorrect(s: seq<Row>)
    ensures Ascending(StableSort(s))
    ensures multiset(StableSort(s)) == multiset(s)
    ensures forall g :: Select(StableSort(s), g) == Select(s, g)
  {
    SortAscending(s);
    SortKeepsRows(s);
    forall g ensures Select(StableSort(s), g) == Select(s, g) { SortKeepsGroup(s, g); }
  }

  lemma {:induction false} StableSortSameRows(s: seq<Row>)
    ensures |StableSort(s)| == |s|
    ensures forall r :: r in StableSort(s) <==> r in s
    ensures Ids(StableSort(s)) == Ids(s)
  {
    StableSortCorrect(s);
    var t := StableSort(s);
    assert |multiset(t)| == |multiset(s)|;
    forall r ensures r in t <==> r in s {
      assert r in t <==> r in multiset(t);
      assert r in s <==> r in multiset(s);
    }
    IdsCorrect(s);
    IdsCorrect(t);
    forall g ensures g in Ids(s) <==> g in Ids(t) {
      if g in Ids(s) { var r :| r in s && Id(r) == g; assert r in t; }
      if g in Ids(t) { var r :| r in t && Id(r) == g; assert r in s; }
    }
    EnumerationUnique(Ids(s), Ids(t));
  }

  /** Sorting what is already sorted changes nothing. */
  lemma {:induction false} StableSortIdempotent(s: seq<Row>)
    requires Ascending(s)
    ensures StableSort(s) == s
  {
    if s != [] {
      hide StableSort;
      var front, r := s[..|s| - 1], s[|s| - 1];
      assert s == front + [r];
      assert front != [] ==> front[|front| - 1] == s[|s| - 2] && Id(s[|s| - 2]) <= Id(r);
      StableSortIdempotent(front);
      SortMore(front, r);
    }
  }

  lemma {:induction false} SortMore(s: seq<Row>, r: Row)
    ensures StableSort(s + [r]) == InsertAfterEquals(StableSort(s), r)
  {
    assert (s + [r])[..|s|] == s;
  }

  lemma {:induction false} RunsMore(s: seq<Row>, r: Row)
    ensures s != [] ==> Runs(s) != []
    ensures Runs(s + [r]) ==
      if s != [] && Id(s[|s| - 1]) == Id(r) then WithRow(Runs(s), r, true) else Runs(s) + [[r]]
  {
    assert (s + [r])[..|s|] == s;
    assert s == [] ==> Runs(s) == [];
  }

  // ---- runs of a sorted sequence are its groups ----

  lemma {:induction false} IdsOfAscending(s: seq<Row>)
    requires Ascending(s) && s != []
    ensures Ids(s) != [] && Ids(s)[|Ids(s)| - 1] == Id(s[|s| - 1])
    ensures |s| > 1 && Id(s[|s| - 2]) == Id(s[|s| - 1]) ==> Ids(s) == Ids(s[..|s| - 1])
    ensures |s| > 1 && Id(s[|s| - 2]) != Id(s[|s| - 1]) ==> Ids(s) == Ids(s[..|s| - 1]) + [Id(s[|s| - 1])]
  {
    if |s| > 1 {
      var n := |s| - 1;
      IdsOfAscending(s[..n]);
      assert s[..n][|s[..n]| - 1] == s[n - 1];
    } else {
      assert s[..0] == [];
    }
  }

  /** One more row in ascending order extends the last group or opens a new last group. */
  lemma {:induction false} GroupByExtends(s: seq<Row>)
    requires Ascending(s) && |s| > 1
    ensures GroupBy(s[..|s| - 1]) != []
    ensures GroupBy(s) == WithRow(GroupBy(s[..|s| - 1]), s[|s| - 1], Id(s[|s| - 2]) == Id(s[|s| - 1]))
  {
    var front, r := s[..|s| - 1], s[|s| - 1];
    assert front[|front| - 1] == s[|s| - 2];
    assert s == front + [r];
    var ids := Ids(front);
    IdsCorrect(front);
    IdsOfAscending(front);
    assert Ids(s) == if Id(s[|s| - 2]) == Id(r) then ids else ids + [Id(r)] by { IdsOfAscending(s); }
    if Id(s[|s| - 2]) == Id(r) {
      SameGroup(front, r, ids);
    } else {
      forall x | x in front ensures Id(x) in ids && Id(x) < Id(r) { }
      NewGroup(front, r, ids);
    }
  }

  lemma {:induction false} SameGroup(front: seq<Row>, r: Row, ids: seq<int>)
    requires StrictlyIncreasing(ids) && ids != [] && ids[|ids| - 1] == Id(r)
    ensures SelectAll(front + [r], ids) == WithRow(SelectAll(front, ids), r, true)
  {
    hide Select;
    var n := |ids| - 1;
    var before, after := SelectAll(front, ids), SelectAll(front + [r], ids);
    forall k | 0 <= k < |ids| ensures after[k] == if k == n then before[k] + [r] else before[k] {
      SelectMore(front, r, ids[k]);
      assert k < n ==> ids[k] < ids[n];
    }
  }

  lemma {:induction false} SelectMore(s: seq<Row>, r: Row, g: int)
    ensures Select(s + [r], g) == if Id(r) == g then Select(s, g) + [r] else Select(s, g)
  {
    assert (s + [r])[..|s|] == s;
  }

  lemma {:induction false} NewGroup(front: seq<Row>, r: Row, ids: seq<int>)
    requires ids != [] && Id(r) !in ids && forall x :: x in front ==> Id(x) in ids
    ensures SelectAll(front + [r], ids + [Id(r)]) == WithRow(SelectAll(front, ids), r, false)
  {
    var g := Id(r);
    SelectOutside(front, g);
    SelectConcat(front, [r], g);
    SelectOne(r, g);
    assert Select(front + [r], g) == [r];
    forall k | 0 <= k < |ids| ensures Select(front + [r], ids[k]) == Select(front, ids[k]) {
      SelectConcat(front, [r], ids[k]);
      SelectOne(r, ids[k]);
    }
    assert SelectAll(front + [r], ids) == SelectAll(front, ids);
    assert SelectAll(front + [r], ids + [g]) == SelectAll(front + [r], ids) + [Select(front + [r], g)];
  }

  /** The groups with one more row, put in the last group or in a new one. */
  ghost function WithRow(groups: seq<seq<Row>>, r: Row, sameGroup: bool): seq<seq<Row>>
    requires groups != []
  {
    if sameGroup then groups[..|groups| - 1] + [groups[|groups| - 1] + [r]] else groups + [[r]]
  }

  /** On ascending rows, cutting at every change of id yields exactly the stable group-by. */
  lemma {:induction false} RunsAreGroups(s: seq<Row>)
    requires Ascending(s)
    ensures Runs(s) == GroupBy(s)
  {
    if |s| == 1 {
      assert s == [s[0]] && s[..0] == [];
      SelectOne(s[0], Id(s[0]));
      assert Ids(s) == [Id(s[0])];
      assert GroupBy(s) == [Select(s, Id(s[0]))];
    } else if s != [] {
      RunsAreGroups(s[..|s| - 1]);
      GroupByExtends(s);
    }
  }

  predicate AllHaveRows(groups: seq<seq<Row>>) {
    forall k :: 0 <= k < |groups| ==> |groups[k]| > 0
  }

  lemma {:induction false} RunsHaveRows(s: seq<Row>)
    ensures AllHaveRows(Runs(s))
  {
    if s != [] {
      hide Runs, AllHaveRows;
      var front, r := s[..|s| - 1], s[|s| - 1];
      RunsHaveRows(front);
      assert s == front + [r];
      RunsMore(front, r);
      RowAdded(Runs(front), r);
    }
  }

  lemma {:induction false} RowAdded(groups: seq<seq<Row>>, r: Row)
    requires AllHaveRows(groups)
    ensures AllHaveRows(groups + [[r]]) && (groups != [] ==> AllHaveRows(WithRow(groups, r, true)))
  {}

  lemma {:induction false} FlattenRuns(s: seq<Row>)
    ensures Join(Runs(s)) == s
    ensures forall k :: 0 <= k < |Runs(s)| ==> Runs(s)[k] != []
  {
    RunsHaveRows(s);
    JoinRuns(s);
  }

  lemma {:induction false} JoinRuns(s: seq<Row>)
    ensures Join(Runs(s)) == s
  {
    if s != [] {
      var front, r := s[..|s| - 1], s[|s| - 1];
      JoinRuns(front);
      assert s == front + [r];
      RunsMore(front, r);
      hide Runs;
      if front != [] && Id(front[|front| - 1]) == Id(r) {
        JoinLastGrows(Runs(front), r);
      } else {
        JoinMore(Runs(front), [r]);
      }
    }
  }

  lemma {:induction false} JoinLastGrows(groups: seq<seq<Row>>, r: Row)
    requires groups != []
    ensures Join(WithRow(groups, r, true)) == Join(groups) + [r]
  {
    var front, last := groups[..|groups| - 1], groups[|groups| - 1];
    JoinMore(front, last);
    JoinMore(front, last + [r]);
    assert groups == front + [last];
    assert (Join(front) + last) + [r] == Join(front) + (last + [r]);
  }

  /** The group-by of a table is the group-by of its sorted rows, whose runs are the groups. */
  lemma {:induction false} GroupByOfSorted(s: seq<Row>)
    ensures Runs(StableSort(s)) == GroupBy(s)
  {
    StableSortCorrect(s);
    StableSortSameRows(s);
    RunsAreGroups(StableSort(s));
  }

  /** Read in order, the groups are the sorted rows: no row is lost or duplicated. */
  lemma {:induction false} GroupsJoined(s: seq<Row>)
    ensures Join(GroupBy(s)) == StableSort(s)
    ensures multiset(Join(GroupBy(s))) == multiset(s)
    ensures forall k :: 0 <= k < |GroupBy(s)| ==> GroupBy(s)[k] != []
  {
    GroupByOfSorted(s);
    FlattenRuns(StableSort(s));
    SortKeepsRows(s);
  }

  /** The stable sort is the only ascending sequence that keeps every group as it is. */
  lemma {:induction false} StableSortUnique(s: seq<Row>, t: seq<Row>)
    requires Ascending(t)
    requires forall g :: Select(t, g) == Select(s, g)
    ensures t == StableSort(s)
  {
    IdsCorrect(s);
    IdsCorrect(t);
    forall g ensures g in Ids(s) <==> g in Ids(t) {
      SelectMembers(s, g);
      SelectMembers(t, g);
      if g in Ids(s) { var r :| r in s && Id(r) == g; assert r in Select(t, g); }
      if g in Ids(t) { var r :| r in t && Id(r) == g; assert r in Select(s, g); }
    }
    EnumerationUnique(Ids(s), Ids(t));
    assert GroupBy(s) == GroupBy(t);
    GroupsJoined(s);
    GroupsJoined(t);
    StableSortIdempotent(t);
  }
}
