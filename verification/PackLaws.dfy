/** What pack means: the stable group-by of the table, exactly when the table fits in one slice. */
module PackLaws {
  import opened Options
  import opened Rows
  import opened Sequences
  import opened Grouping
  import opened MapperReader
  import opened Tables

  // ---- squash ----

  lemma {:induction false} LastRank(s: seq<Row>)
    requires Ascending(s) && s != []
    ensures Ranks(s)[|s| - 1] == |Ids(s)| - 1
  {
    IdsOfAscending(s);
    var front := s[..|s| - 1];
    if front == [] {
      assert Ids(s) == [Id(s[0])];
    } else {
      assert front[|front| - 1] == s[|s| - 2];
      LastRank(front);
    }
  }

  /** A squashed number is the position of the old id among the distinct ids. */
  lemma {:induction false} RankIsPosition(s: seq<Row>, i: nat)
    requires Ascending(s) && i < |s|
    ensures Ranks(s)[i] < |Ids(s)| && Ids(s)[Ranks(s)[i]] == Id(s[i])
    decreases |s|
  {
    IdsOfAscending(s);
    if i == |s| - 1 {
      LastRank(s);
    } else {
      RankIsPosition(s[..|s| - 1], i);
    }
  }

  /** Squashing keeps the order of the groups and separates exactly what was separate. */
  lemma {:induction false} SquashKeepsOrder(s: seq<Row>, i: nat, j: nat)
    requires Ascending(s) && i < |s| && j < |s|
    ensures Id(Renumber(s)[i]) < Id(Renumber(s)[j]) <==> Id(s[i]) < Id(s[j])
    ensures Id(Renumber(s)[i]) == Id(Renumber(s)[j]) <==> Id(s[i]) == Id(s[j])
  {
    IdsCorrect(s);
    RankIsPosition(s, i);
    RankIsPosition(s, j);
  }

  lemma {:induction false} SquashAscending(s: seq<Row>)
    requires Ascending(s)
    ensures Ascending(Renumber(s))
  {
    var t := Renumber(s);
    forall i, j | 0 <= i < j < |t| ensures Id(t[i]) <= Id(t[j]) { SquashKeepsOrder(s, j, i); }
  }

  /** The squashed ids are 0, 1, 2, ... without a gap. */
  lemma {:induction false} SquashContiguous(s: seq<Row>)
    requires Ascending(s)
    ensures Ids(Renumber(s)) == seq(|Ids(s)|, k => k)
  {
    var t, expected := Renumber(s), seq(|Ids(s)|, k => k);
    IdsCorrect(s);
    IdsCorrect(t);
    forall g ensures g in Ids(t) <==> g in expected {
      if g in Ids(t) {
        var r :| r in t && Id(r) == g;
        var i :| 0 <= i < |t| && t[i] == r;
        RankIsPosition(s, i);
        assert expected[g] == g;
      }
      if g in expected { SquashCovers(s, g); }
    }
    EnumerationUnique(Ids(t), expected);
  }

  lemma {:induction false} SquashCovers(s: seq<Row>, g: int)
    requires Ascending(s) && 0 <= g < |Ids(s)|
    ensures exists r :: r in Renumber(s) && Id(r) == g
  {
    IdsCorrect(s);
    assert Ids(s)[g] in Ids(s);
    var r :| r in s && Id(r) == Ids(s)[g];
    var i :| 0 <= i < |s| && s[i] == r;
    RankIsPosition(s, i);
    assert Renumber(s)[i] in Renumber(s) && Id(Renumber(s)[i]) == Ranks(s)[i];
  }

  // ---- packing the squashed rows is packing the original groups ----

  /** Two row sequences that pack alike: same payloads, cut at the same places. */
  ghost predicate SameShape(s: seq<Row>, t: seq<Row>) {
    && |s| == |t|
    && (forall i :: 0 <= i < |s| ==> Payload(s[i]) == Payload(t[i]))
    && (forall i :: 0 < i < |s| ==> (Id(s[i - 1]) == Id(s[i]) <==> Id(t[i - 1]) == Id(t[i])))
  }

  lemma {:induction false} PackGroupExtends(g: seq<Row>, r: Row)
    ensures PackGroup(g + [r]) == List(PackGroup(g).items + [Dict(Payload(r))])
  {
    assert Payloads(g + [r]) == Payloads(g) + [Payload(r)];
  }

  lemma {:induction false} LastGroupGrows(groups: seq<seq<Row>>, r: Row)
    requires groups != []
    ensures var k := |groups| - 1;
      PackGroups(groups[..k] + [groups[k] + [r]]) ==
      PackGroups(groups)[..k] + [List(PackGroups(groups)[k].items + [Dict(Payload(r))])]
  {
    PackGroupExtends(groups[|groups| - 1], r);
  }

  lemma {:induction false} GroupAdded(groups: seq<seq<Row>>, r: Row)
    ensures PackGroups(groups + [[r]]) == PackGroups(groups) + [List([Dict(Payload(r))])]
  {
    assert RowsToDicts(Payloads([r])) == [Dict(Payload(r))];
  }

  lemma {:induction false} SameShapePacksAlike(s: seq<Row>, t: seq<Row>)
    requires SameShape(s, t)
    ensures PackGroups(Runs(s)) == PackGroups(Runs(t))
  {
    if s != [] {
      var n := |s| - 1;
      SameShapePacksAlike(s[..n], t[..n]);
      var a, b := Runs(s[..n]), Runs(t[..n]);
      assert |a| == |PackGroups(a)| == |PackGroups(b)| == |b|;
      if n > 0 && a != [] && Id(s[n - 1]) == Id(s[n]) {
        LastGroupGrows(a, s[n]);
        LastGroupGrows(b, t[n]);
      } else {
        GroupAdded(a, s[n]);
        GroupAdded(b, t[n]);
      }
    }
  }

  lemma {:induction false} PayloadIgnoresMarks(r: Row, g: int, i: int)
    ensures Payload(WithGroup(r, g)[INDEX := Int(i)]) == Payload(r)
    ensures Payload(WithGroup(r, g)) == Payload(r)
    ensures Id(WithGroup(r, g)[INDEX := Int(i)]) == Id(WithGroup(r, g)) == g
  {
    assert WithGroup(r, g)[INDEX := Int(i)] - {INDEX, GROUP} == r - {INDEX, GROUP};
    assert WithGroup(r, g) - {INDEX, GROUP} == r - {INDEX, GROUP};
  }

  lemma {:induction false} MarkedRow(sorted: seq<Row>, i: nat)
    requires i < |sorted|
    ensures Renumber(sorted)[i] == WithGroup(sorted[i], Ranks(sorted)[i])
    ensures WithIndices(Renumber(sorted))[i] == WithGroup(sorted[i], Ranks(sorted)[i])[INDEX := Int(i)]
  {}

  lemma {:induction false} MarksKeepShape(sorted: seq<Row>)
    requires Ascending(sorted)
    ensures Ascending(WithIndices(Renumber(sorted)))
    ensures SameShape(WithIndices(Renumber(sorted)), sorted)
  {
    var renumbered := Renumber(sorted);
    var ordered := WithIndices(renumbered);
    SquashAscending(sorted);
    forall i | 0 <= i < |ordered| ensures Id(ordered[i]) == Id(renumbered[i]) && Payload(ordered[i]) == Payload(sorted[i]) {
      MarkedRow(sorted, i);
      PayloadIgnoresMarks(sorted[i], Ranks(sorted)[i], i);
    }
    forall i | 0 < i < |ordered| ensures Id(ordered[i - 1]) == Id(ordered[i]) <==> Id(sorted[i - 1]) == Id(sorted[i]) {
      SquashKeepsOrder(sorted, i - 1, i);
    }
  }

  /** The rows pack works on are already in order: its second sort changes nothing. */
  lemma {:induction false} OrderedRows(rows: seq<Row>)
    ensures var ordered := WithIndices(Renumber(StableSort(rows)));
      && StableSort(ordered) == ordered
      && Ascending(ordered)
      && SameShape(ordered, StableSort(rows))
  {
    StableSortCorrect(rows);
    MarksKeepShape(StableSort(rows));
    StableSortIdempotent(WithIndices(Renumber(StableSort(rows))));
  }

  lemma {:induction false} PackedGroups(rows: seq<Row>)
    ensures PackGroups(Runs(WithIndices(Renumber(StableSort(rows))))) == PackGroups(GroupBy(rows))
  {
    OrderedRows(rows);
    SameShapePacksAlike(WithIndices(Renumber(StableSort(rows))), StableSort(rows));
    GroupByOfSorted(rows);
  }

  // ---- the theorem ----

  /** A table that pack is meant for: grouped, no null group id, another column beside `_group`. */
  ghost predicate Packable(t: ArrowTable) {
    t.Valid() && t.Grouped() && !t.HasNull(GROUP) && |t.cols| > 1
  }

  /** The packed table the documentation promises. */
  function PackedTable(rows: seq<Row>): ArrowTable {
    FromPacked(PackGroups(GroupBy(rows)))
  }

  lemma {:induction false} RunsOfPrefix(s: seq<Row>, m: nat)
    requires m <= |s|
    ensures |Runs(s[..m])| <= |Runs(s)|
    decreases |s|
  {
    if m < |s| {
      RunsOfPrefix(s[..|s| - 1], m);
      assert s[..|s| - 1][..m] == s[..m];
    } else {
      assert s[..m] == s;
    }
  }

  lemma {:induction false} RunsNonEmpty(s: seq<Row>)
    ensures Runs(s) == [] <==> s == []
  {}

  lemma {:induction false} CollectOne(chunk: seq<Value>, batchSize: nat, handed: nat)
    ensures chunk == [] || handed == 0 ==> Collect([chunk], batchSize, handed) == Raised
    ensures chunk != [] && handed > 0 ==> Collect([chunk], batchSize, handed) == ChunkTable(chunk)
  {
    assert Received([chunk], batchSize) == if chunk == [] then [] else [chunk];
    assert ChunkTables([]) == Ok([]);
    if chunk != [] {
      assert [chunk][1..] == [] && [chunk][..0] == [];
    }
  }

  lemma {:induction false} CollectMany(chunks: seq<seq<Value>>, batchSize: nat, handed: nat)
    requires chunks != [] && batchSize != 1
    ensures Collect(chunks, batchSize, handed) == Collect([chunks[0]], batchSize, handed)
  {
    ReceivedFirstOnly(chunks, batchSize);
    ReceivedFirstOnly([chunks[0]], batchSize);
  }

  /** For a packable table only the reading back of the slices decides. */
  lemma {:induction false} PackableOutcome(t: ArrowTable, batchSize: int, schedule: Schedule)
    requires Packable(t) && 0 < batchSize
    ensures |Ordered(t)| == |t.rows|
    ensures PackGroups(Runs(Ordered(t))) == PackGroups(GroupBy(t.rows))
    ensures PackOutcome(t, batchSize, schedule) == PackRead(Squashed(t), Ordered(t), batchSize, schedule)
  {
    StableSortSameRows(t.rows);
    OrderedRows(t.rows);
    PackedGroups(t.rows);
  }

  lemma {:induction false} OneChunk(t: ArrowTable, ordered: seq<Row>, batchSize: nat, schedule: Schedule)
    requires 0 < |ordered| <= batchSize
    ensures PackRead(t, ordered, batchSize, schedule) ==
      if schedule.handed > 0 then Outcome(Ok(true), FromPacked(PackGroups(Runs(ordered)))) else Outcome(Raised, t)
  {
    OneTask(|ordered|, batchSize);
    assert ordered[0..|ordered|] == ordered;
    var chunk := PackChunk(ordered, true);
    assert PackChunks(ordered, [Task(0, |ordered|)]) == [chunk];
    RunsNonEmpty(ordered);
    CollectOne(chunk, batchSize, schedule.handed);
  }

  /** With room for all rows in one slice, pack replaces the table by its stable group-by, if the slice arrives. */
  lemma {:induction false} PackFits(t: ArrowTable, batchSize: int, schedule: Schedule)
    requires Packable(t) && |t.rows| <= batchSize
    ensures PackOutcome(t, batchSize, schedule) ==
      if schedule.handed > 0 then Outcome(Ok(true), PackedTable(t.rows)) else Outcome(Raised, Squashed(t))
  {
    PackableOutcome(t, batchSize, schedule);
    OneChunk(Squashed(t), Ordered(t), batchSize, schedule);
  }

  /** The first of several slices yields fewer rows than there are groups, and none of size one. */
  lemma {:induction false} FirstChunk(ordered: seq<Row>, tasks: seq<Task>, batchSize: nat)
    requires 0 < batchSize < |ordered| && tasks == Tasks(0, |ordered|, batchSize)
    ensures Within(tasks, |ordered|)
    ensures tasks != []
    ensures var chunk := PackChunks(ordered, tasks)[0];
      && |chunk| < |Runs(ordered)|
      && (batchSize == 1 ==> chunk == [])
      && forall i :: 0 <= i < |chunk| ==> chunk[i].List?
  {
    OneTask(|ordered|, batchSize);
    TaskAt(0, |ordered|, batchSize, 0);
    TasksWithin(0, |ordered|, batchSize);
    var slice := ordered[..batchSize];
    assert ordered[0..batchSize] == slice;
    RunsOfPrefix(ordered, batchSize);
    RunsNonEmpty(slice);
    if batchSize == 1 { assert slice[..0] == []; }
  }

  /** What comes of several slices of pack: the reader is blocked, or hands on at most the first one. */
  lemma {:induction false} SeveralChunks(t: ArrowTable, ordered: seq<Row>, batchSize: nat, schedule: Schedule)
    requires 0 < batchSize < |ordered|
    ensures var o := PackRead(t, ordered, batchSize, schedule);
      && (o.Outcome? && o.result == Ok(true) ==> |o.table.rows| < |Runs(ordered)|)
      && (o.Outcome? ==> o.result != Ok(false)) && (o.Waiting? ==> o.table == t)
      && (o.Waiting? <==> schedule.blocks && 1 < batchSize && PackChunk(ordered[..batchSize], false) != [])
  {
    var tasks := Tasks(0, |ordered|, batchSize);
    FirstChunk(ordered, tasks, batchSize);
    var chunks := PackChunks(ordered, tasks);
    OneTask(|ordered|, batchSize);
    FirstTask(0, |ordered|, batchSize);
    assert ordered[0..batchSize] == ordered[..batchSize] && chunks[0] == PackChunk(ordered[..batchSize], false);
    if batchSize == 1 {
      assert Received(chunks, 1) == [];
    } else {
      CollectMany(chunks, batchSize, schedule.handed);
      CollectOne(chunks[0], batchSize, schedule.handed);
    }
  }

  /** With more rows than one slice holds, pack waits for ever, fails or leaves out at least one group. */
  lemma {:induction false} PackOverflows(t: ArrowTable, batchSize: int, schedule: Schedule)
    requires Packable(t) && 0 < batchSize < |t.rows|
    ensures var o := PackOutcome(t, batchSize, schedule);
      || o == Waiting(Squashed(t))
      || (o.Outcome? && o.result == Raised)
      || (o.Outcome? && o.result == Ok(true) && |o.table.rows| < |PackedTable(t.rows).rows|)
  {
    PackableOutcome(t, batchSize, schedule);
    SeveralChunks(Squashed(t), Ordered(t), batchSize, schedule);
    assert |PackGroups(Runs(Ordered(t)))| == |Runs(Ordered(t))|;
    assert |PackedTable(t.rows).rows| == |PackGroups(GroupBy(t.rows))|;
  }

  /** Pack yields the stable group-by if and only if the rows fit in one slice and that slice is handed on. */
  lemma {:induction false} PackIsGroupBy(t: ArrowTable, batchSize: int, schedule: Schedule)
    requires Packable(t)
    ensures PackOutcome(t, batchSize, schedule) == Outcome(Ok(true), PackedTable(t.rows)) <==>
      |t.rows| <= batchSize && schedule.handed > 0
  {
    if |t.rows| <= batchSize {
      PackFits(t, batchSize, schedule);
    } else if 0 < batchSize {
      PackOverflows(t, batchSize, schedule);
    }
  }

  // ---- when pack waits for ever ----

  lemma {:induction false} OneRunIff(s: seq<Row>)
    requires Ascending(s) && s != []
    ensures |Runs(s)| == 1 <==> Id(s[0]) == Id(s[|s| - 1])
  {
    var front, r := s[..|s| - 1], s[|s| - 1];
    assert s == front + [r];
    RunsMore(front, r);
    if front == [] {
      RunsNonEmpty(front);
    } else {
      AscendingPrefix(s, |s| - 1);
      assert front[|front| - 1] == s[|s| - 2] && front[0] == s[0];
      assert Id(s[0]) <= Id(s[|s| - 2]) <= Id(r);
      hide Runs, Id, Ascending;
      OneRunIff(front);
    }
  }

  lemma {:induction false} SameShapePrefix(s: seq<Row>, t: seq<Row>, n: nat)
    requires SameShape(s, t) && n <= |s|
    ensures SameShape(s[..n], t[..n])
  {}

  lemma {:induction false} AscendingPrefix(s: seq<Row>, n: nat)
    requires Ascending(s) && n <= |s|
    ensures Ascending(s[..n])
  {}

  lemma {:induction false} ChunkOfTwoGroups(slice: seq<Row>)
    requires Ascending(slice) && slice != []
    ensures PackChunk(slice, false) != [] <==> Id(slice[0]) != Id(slice[|slice| - 1])
  {
    OneRunIff(slice);
    RunsNonEmpty(slice);
    PackGroupsSize(Runs(slice));
  }

  /** The first slice holds two groups at least exactly if its first and its last row are of different groups. */
  lemma {:induction false} FirstSliceGroups(ordered: seq<Row>, sorted: seq<Row>, n: nat)
    requires SameShape(ordered, sorted) && Ascending(sorted) && 0 < n <= |sorted|
    ensures PackChunk(ordered[..n], false) != [] <==> Id(sorted[0]) != Id(sorted[n - 1])
  {
    var a, b := ordered[..n], sorted[..n];
    SameShapePrefix(ordered, sorted, n);
    SameShapePacksAlike(a, b);
    assert PackChunk(a, false) == PackChunk(b, false);
    AscendingPrefix(sorted, n);
    hide PackChunk, SameShape, Ascending;
    ChunkOfTwoGroups(b);
  }

  lemma {:induction false} PackGroupsSize(groups: seq<seq<Row>>)
    ensures |PackGroups(groups)| == |groups|
  {}

  /**
   * Pack can wait for ever exactly with several slices of more than one row whose first one holds rows of
   * two groups; the schedule decides whether it does.
   */
  lemma {:induction false} PackWaitsIff(t: ArrowTable, batchSize: int, schedule: Schedule)
    requires Packable(t) && 0 < batchSize
    ensures |StableSort(t.rows)| == |t.rows|
    ensures PackOutcome(t, batchSize, schedule).Waiting? <==>
      schedule.blocks && 1 < batchSize < |t.rows|
      && Id(StableSort(t.rows)[0]) != Id(StableSort(t.rows)[batchSize - 1])
  {
    hide SameShape, Ascending, PackChunk, PackOutcome, StableSort;
    StableSortSameRows(t.rows);
    PackableOutcome(t, batchSize, schedule);
    if |t.rows| <= batchSize {
      PackFits(t, batchSize, schedule);
    } else {
      SeveralChunks(Squashed(t), Ordered(t), batchSize, schedule);
      OrderedRows(t.rows);
      StableSortCorrect(t.rows);
      FirstSliceGroups(Ordered(t), StableSort(t.rows), batchSize);
    }
  }

  // ---- a reader that loses nothing ----

  /** How many elements the packed cells hold. */
  function Held(cells: seq<Value>): nat {
    if cells == [] then 0
    else
      var n := |cells| - 1;
      Held(cells[..n]) + if cells[n].List? then |cells[n].items| else 0
  }

  lemma {:induction false} HeldConcat(a: seq<Value>, b: seq<Value>)
    ensures Held(a + b) == Held(a) + Held(b)
  {
    if b == [] {
      assert a + b == a;
    } else {
      assert (a + b)[..|a + b| - 1] == a + b[..|b| - 1];
      HeldConcat(a, b[..|b| - 1]);
    }
  }

  lemma {:induction false} HeldByGroups(groups: seq<seq<Row>>)
    ensures Held(PackGroups(groups)) == |Join(groups)|
  {
    if groups != [] {
      var n := |groups| - 1;
      HeldByGroups(groups[..n]);
      assert PackGroups(groups)[..n] == PackGroups(groups[..n]);
    }
  }

  /** A slice that is not the last one keeps back its last group. */
  lemma {:induction false} HeldByChunk(slice: seq<Row>, isLast: bool)
    requires slice != []
    ensures Held(PackChunk(slice, isLast)) <= |slice|
    ensures Held(PackChunk(slice, isLast)) == |slice| <==> isLast
  {
    FlattenRuns(slice);
    HeldByGroups(Runs(slice));
    RunsNonEmpty(slice);
    var n := |Runs(slice)| - 1;
    assert |PackGroups(Runs(slice))[n].items| == |Runs(slice)[n]| > 0;
  }

  function PackChunksFrom(ordered: seq<Row>, start: nat, batchSize: nat): seq<seq<Value>>
    requires 0 < batchSize
  {
    TasksWithin(start, |ordered|, batchSize);
    PackChunks(ordered, Tasks(start, |ordered|, batchSize))
  }

  lemma {:induction false} NextPackChunk(ordered: seq<Row>, start: nat, batchSize: nat)
    requires 0 < batchSize && start < |ordered|
    ensures var next := NextStart(start, |ordered|, batchSize);
      PackChunksFrom(ordered, start, batchSize) ==
      [PackChunk(ordered[start..next], next == |ordered|)] + PackChunksFrom(ordered, next, batchSize)
  {
    FirstTask(start, |ordered|, batchSize);
  }

  lemma {:induction false} HeldFrom(ordered: seq<Row>, start: nat, batchSize: nat)
    requires 0 < batchSize && start <= |ordered|
    ensures Held(Join(PackChunksFrom(ordered, start, batchSize))) <= |ordered| - start
    ensures start + batchSize < |ordered| ==> Held(Join(PackChunksFrom(ordered, start, batchSize))) < |ordered| - start
    decreases |ordered| - start
  {
    if start < |ordered| {
      hide Held, PackChunk, PackChunksFrom;
      var next := NextStart(start, |ordered|, batchSize);
      var first, rest := PackChunk(ordered[start..next], next == |ordered|), PackChunksFrom(ordered, next, batchSize);
      NextPackChunk(ordered, start, batchSize);
      JoinConcat([first], rest);
      JoinOne(first);
      HeldConcat(first, Join(rest));
      HeldByChunk(ordered[start..next], next == |ordered|);
      HeldFrom(ordered, next, batchSize);
    } else {
      assert PackChunksFrom(ordered, start, batchSize) == [];
    }
  }

  /**
   * Even if every slice arrived and was put in its place, the groups that slices keep back are missing:
   * the slices together are the group-by if and only if there is one slice.
   */
  lemma {:induction false} SlicesTogether(ordered: seq<Row>, batchSize: nat)
    requires ordered != [] && 0 < batchSize
    ensures Join(PackChunksFrom(ordered, 0, batchSize)) == PackGroups(Runs(ordered)) <==> |ordered| <= batchSize
  {
    if |ordered| <= batchSize {
      NextPackChunk(ordered, 0, batchSize);
      assert PackChunksFrom(ordered, |ordered|, batchSize) == [];
      assert ordered[0..|ordered|] == ordered;
      JoinOne(PackChunk(ordered, true));
    } else {
      HeldFrom(ordered, 0, batchSize);
      FlattenRuns(ordered);
      HeldByGroups(Runs(ordered));
    }
  }
}
