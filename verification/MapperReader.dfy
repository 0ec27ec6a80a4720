/**
 * The worker pool behind pack, unpack and map: slices are handed out by a dispatcher, processed by
 * threads, put in a priority queue under the index of their first row, and taken out by one reader.
 * The reader expects the next id to be its own counter, which grows by one per slice.
 */
module MapperReader {

  /** A slice of the work: its first row and its length. */
  datatype Task = Task(start: nat, size: nat)

  /** The consecutive slices of n rows. */
  function Tasks(start: nat, n: nat, batchSize: nat): (tasks: seq<Task>)
    requires 0 < batchSize
    decreases n - start
  {
    if start >= n then []
    else
      var size := if n - start < batchSize then n - start else batchSize;
      [Task(start, size)] + Tasks(start + batchSize, n, batchSize)
  }

  /** All slices lie within n rows. */
  ghost predicate Within(tasks: seq<Task>, n: nat) {
    forall k :: 0 <= k < |tasks| ==> tasks[k].start + tasks[k].size <= n
  }

  lemma {:induction false} TasksWithin(start: nat, n: nat, batchSize: nat)
    requires 0 < batchSize
    ensures Within(Tasks(start, n, batchSize), n)
    decreases n - start
  {
    if start < n { TasksWithin(start + batchSize, n, batchSize); }
  }

  /** Where the slice from `start` ends. */
  function NextStart(start: nat, n: nat, batchSize: nat): nat
    requires start <= n
  {
    if n - start < batchSize then n else start + batchSize
  }

  lemma {:induction false} FirstTask(start: nat, n: nat, batchSize: nat)
    requires 0 < batchSize && start < n
    ensures var next := NextStart(start, n, batchSize);
      Tasks(start, n, batchSize) == [Task(start, next - start)] + Tasks(next, n, batchSize)
  {}

  /** The k-th slice starts at k batches and ends at the next slice or at the end of the rows. */
  lemma {:induction false} TaskAt(start: nat, n: nat, batchSize: nat, k: nat)
    requires 0 < batchSize && k < |Tasks(start, n, batchSize)|
    ensures var t := Tasks(start, n, batchSize)[k];
            && t.start == start + k * batchSize
            && 0 < t.size <= batchSize
            && t.start + t.size <= n
            && (k + 1 < |Tasks(start, n, batchSize)| <==> t.start + t.size < n)
            && (t.start + t.size < n ==> t.size == batchSize)
    decreases n - start
  {
    if k > 0 {
      TaskAt(start + batchSize, n, batchSize, k - 1);
      assert k * batchSize == batchSize + (k - 1) * batchSize;
    } else {
      assert 0 * batchSize == 0;
    }
  }

  /** The slices follow one another without gap or overlap, from the first row to the last. */
  lemma {:induction false} TasksAdjoin(start: nat, n: nat, batchSize: nat, k: nat)
    requires 0 < batchSize && k < |Tasks(start, n, batchSize)|
    ensures var tasks := Tasks(start, n, batchSize);
            && tasks[0].start == start
            && 0 < tasks[k].size
            && tasks[k].start + tasks[k].size == if k + 1 < |tasks| then tasks[k + 1].start else n
    decreases n - start
  {
    FirstTask(start, n, batchSize);
    if k > 0 {
      TasksAdjoin(start + batchSize, n, batchSize, k - 1);
    } else if 1 < |Tasks(start, n, batchSize)| {
      TasksAdjoin(start + batchSize, n, batchSize, 0);
    }
  }

  lemma {:induction false} OneTask(n: nat, batchSize: nat)
    requires 0 < n && 0 < batchSize
    ensures Tasks(0, n, batchSize) != []
    ensures |Tasks(0, n, batchSize)| == 1 <==> n <= batchSize
    ensures n <= batchSize ==> Tasks(0, n, batchSize) == [Task(0, n)]
  {
    TaskAt(0, n, batchSize, 0);
  }

  /**
   * What the reader hands on, at best: the chunks whose id equals its counter, up to the first
   * mismatch, and an empty chunk ends the iteration too.
   */
  function Received<T>(chunks: seq<seq<T>>, batchSize: nat, k: nat := 0): seq<seq<T>>
    decreases |chunks| - k
  {
    if k >= |chunks| || k * batchSize != k || chunks[k] == [] then []
    else [chunks[k]] + Received(chunks, batchSize, k + 1)
  }

  /** With slices of more than one row the counter never matches a second slice. */
  lemma {:induction false} ReceivedFirstOnly<T>(chunks: seq<seq<T>>, batchSize: nat)
    requires batchSize != 1 && chunks != []
    ensures Received(chunks, batchSize) == if chunks[0] == [] then [] else [chunks[0]]
  {
    assert 1 * batchSize != 1;
  }

  /** The chunks that match are all there is before the first that is missing, does not match or is empty. */
  lemma {:induction false} ReceivedUpTo<T>(chunks: seq<seq<T>>, batchSize: nat, k: nat)
    requires k <= |chunks|
    ensures var m := k + |Received(chunks, batchSize, k)|;
      && m <= |chunks|
      && Received(chunks, batchSize, k) == chunks[k..m]
      && (forall j: nat :: k <= j < m ==> j * batchSize == j && chunks[j] != [])
      && (m < |chunks| ==> m * batchSize != m || chunks[m] == [])
    decreases |chunks| - k
  {
    if k < |chunks| && k * batchSize == k && chunks[k] != [] {
      ReceivedUpTo(chunks, batchSize, k + 1);
      var m := k + |Received(chunks, batchSize, k)|;
      assert chunks[k..m] == [chunks[k]] + chunks[k + 1..m];
    }
  }

  /** What a schedule lets the reader hand on: the first so many of the chunks it could. */
  function HandedOn<T>(chunks: seq<seq<T>>, batchSize: nat, handed: nat): seq<seq<T>> {
    var all := Received(chunks, batchSize);
    if handed <= |all| then all[..handed] else all
  }

  /** What a schedule comes to: how many matching chunks are handed on, and whether the reader ends up blocked. */
  datatype Schedule = Schedule(handed: nat, blocks: bool)

  /** Only then can the reader be blocked for ever though all workers are done. */
  predicate CanBlock<T>(chunks: seq<seq<T>>, batchSize: nat) {
    1 < batchSize && 1 < |chunks| && chunks[0] != []
  }

  // ---- every interleaving of the workers and the reader ----

  /**
   * Where the reader stands, waiting for a permit in two places; `seen` is what had been put when it last
   * looked at the queue.
   */
  datatype Reader =
    | TestEmpty
    | TestDone(seen: set<nat>)
    | Wait(seen: set<nat>)
    | Take
    | WaitAfterMismatch(seen: set<nat>)
    | TestDoneAfterMismatch(seen: set<nat>)
    | Stopped(seen: set<nat>)

  /**
   * Slices are named by their position; the slice at position k is put under the id k * batchSize. Between
   * its put and its test whether to release a permit, a slice is pending.
   */
  datatype State = State(put: set<nat>, pending: set<nat>, queue: set<nat>, done: bool, released: bool, permits: nat,
                         counter: nat, reader: Reader, out: seq<nat>)

  ghost predicate Init(s: State) {
    s == State({}, {}, {}, false, false, 1, 0, TestEmpty, [])
  }

  ghost predicate IsLeast(k: nat, queue: set<nat>) {
    k in queue && forall j :: j in queue ==> k <= j
  }

  /** A worker puts a finished slice, in any order. */
  ghost predicate Put<T>(s: State, s': State, chunks: seq<seq<T>>) {
    exists k: nat :: k < |chunks| && k !in s.put &&
      s' == s.(put := s.put + {k}, pending := s.pending + {k}, queue := s.queue + {k})
  }

  /** And releases a permit if its id is not above the reader's counter. */
  ghost predicate Release(s: State, s': State, batchSize: nat) {
    exists k: nat :: k in s.pending &&
      s' == s.(pending := s.pending - {k}, permits := s.permits + if k * batchSize <= s.counter then 1 else 0)
  }

  /** All workers have met at the barrier: first the event is set, then a permit released. */
  ghost predicate Finish<T>(s: State, s': State, chunks: seq<seq<T>>) {
    if !s.done then (forall k: nat :: k < |chunks| ==> k in s.put) && s.pending == {} && s' == s.(done := true)
    else !s.released && s' == s.(released := true, permits := s.permits + 1)
  }

  /** One step of the reader; where it waits it goes on only with a permit. */
  ghost predicate Read<T>(s: State, s': State, chunks: seq<seq<T>>, batchSize: nat) {
    match s.reader
    case TestEmpty => s' == s.(reader := if s.queue == {} then TestDone(s.put) else Take)
    case TestDone(seen) => s' == s.(reader := if s.done then Stopped(seen) else Wait(seen))
    case Wait(_) => s.permits > 0 && s' == s.(permits := s.permits - 1, reader := TestEmpty)
    case Take =>
      exists k: nat :: IsLeast(k, s.queue) && k < |chunks| && Taken(s, s', k, chunks, batchSize)
    case WaitAfterMismatch(seen) =>
      s.permits > 0 && s' == s.(permits := s.permits - 1, reader := TestDoneAfterMismatch(seen))
    case TestDoneAfterMismatch(seen) => s' == s.(reader := if s.done then Stopped(seen) else Take)
    case Stopped(_) => false
  }

  /** The least of the queue: put back, or taken out and handed on, unless it is empty. */
  ghost predicate Taken<T>(s: State, s': State, k: nat, chunks: seq<seq<T>>, batchSize: nat)
    requires k < |chunks|
  {
    if k * batchSize != s.counter then s' == s.(reader := WaitAfterMismatch(s.put))
    else if chunks[k] == [] then s' == s.(queue := s.queue - {k}, counter := s.counter + 1, reader := Stopped(s.put))
    else s' == s.(queue := s.queue - {k}, counter := s.counter + 1, reader := TestEmpty, out := s.out + [k])
  }

  ghost predicate Next<T>(s: State, s': State, chunks: seq<seq<T>>, batchSize: nat) {
    Put(s, s', chunks) || Release(s, s', batchSize) || Finish(s, s', chunks) || Read(s, s', chunks, batchSize)
  }

  ghost predicate Run<T>(run: seq<State>, chunks: seq<seq<T>>, batchSize: nat) {
    && run != [] && Init(run[0])
    && forall i :: 0 <= i < |run| - 1 ==> Next(run[i], run[i + 1], chunks, batchSize)
  }

  ghost function Delivered<T>(s: State, chunks: seq<seq<T>>): seq<seq<T>>
    requires |s.out| <= |chunks|
  {
    chunks[..|s.out|]
  }

  /** The positions below n. */
  function UpTo(n: nat): (positions: set<nat>)
    ensures forall k: nat :: k in positions <==> k < n
  {
    if n == 0 then {} else UpTo(n - 1) + {n - 1}
  }

  /** A chunk whose id is its number: the reader takes it when it is its turn. */
  predicate Matches<T>(k: nat, chunks: seq<seq<T>>, batchSize: nat) { k < |chunks| && k * batchSize == k }

  /** A chunk the reader would hand on next, if it saw it. */
  predicate Wanted<T>(k: nat, chunks: seq<seq<T>>, batchSize: nat) { Matches(k, chunks, batchSize) && chunks[k] != [] }

  /** What the reader saw before it looked for the end: all it handed on, and nothing it wanted more. */
  ghost predicate SawNoMore<T>(seen: set<nat>, n: nat, chunks: seq<seq<T>>, batchSize: nat) {
    && (forall k: nat :: k < n ==> k in seen)
    && (n in seen ==> !Wanted(n, chunks, batchSize))
  }

  predicate Waits(r: Reader) { r.Wait? || r.WaitAfterMismatch? }

  ghost predicate Inv<T>(s: State, chunks: seq<seq<T>>, batchSize: nat) {
    var n := |s.out|;
    && n <= |chunks|
    && (forall k: nat :: k < n ==> s.out[k] == k && k in s.put && k !in s.queue && Wanted(k, chunks, batchSize))
    && s.queue <= s.put
    && (forall k: nat :: k in s.put ==> k < |chunks|)
    && (s.done ==> forall k: nat :: k < |chunks| ==> k in s.put)
    && (!s.reader.Stopped? ==> s.counter == n && forall k: nat :: k in s.put && k >= n ==> k in s.queue)
    && (s.reader.Take? || s.reader.WaitAfterMismatch? || s.reader.TestDoneAfterMismatch? ==> s.queue != {})
    && (!s.reader.TestEmpty? && !s.reader.Take? ==> SawNoMore(s.reader.seen, n, chunks, batchSize))
    && (s.reader.Stopped? && !s.done ==> n in s.put && n * batchSize == n && chunks[n] == [])
  }

  /** The permits: a reader that waits for the next chunk gets one when that chunk comes, or at the end. */
  ghost predicate Permitted<T>(s: State, chunks: seq<seq<T>>, batchSize: nat) {
    && s.pending <= s.put
    && (s.done ==> s.pending == {}) && (s.released ==> s.done)
    && (s.reader.TestDone? || Waits(s.reader) ==>
          Matches(|s.out|, chunks, batchSize) && |s.out| in s.put ==> |s.out| in s.pending || s.permits > 0)
    && (s.reader.Wait? && s.released ==> s.permits > 0)
  }

  lemma {:induction false} HandedMatches<T>(s: State, chunks: seq<seq<T>>, batchSize: nat, k: nat)
    requires Inv(s, chunks, batchSize)
    ensures k < |s.out| ==> s.out[k] == k && Wanted(k, chunks, batchSize)
  {}

  lemma {:induction false} Multiples(n: nat, batchSize: nat)
    ensures batchSize == 1 ==> n * batchSize == n
    ensures batchSize > 0 ==> n * batchSize >= n
  {}

  lemma {:induction false} Matching<T>(s: State, k: nat, batchSize: nat, chunks: seq<seq<T>>)
    requires 0 < batchSize && Inv(s, chunks, batchSize) && !s.reader.Stopped?
    requires k in s.queue && k * batchSize == s.counter
    ensures k == s.counter
  {
    HandedMatches(s, chunks, batchSize, 1);
    Multiples(k, batchSize);
  }

  /** The reader takes the least of the queue: on a mismatch the chunk it wants is not there. */
  lemma {:induction false} TakeKeepsInv<T>(s: State, s': State, chunks: seq<seq<T>>, batchSize: nat)
    requires 0 < batchSize && Inv(s, chunks, batchSize) && s.reader.Take? && Read(s, s', chunks, batchSize)
    ensures Inv(s', chunks, batchSize)
    ensures s'.reader.WaitAfterMismatch? ==> |s'.out| !in s'.put || !Matches(|s'.out|, chunks, batchSize)
  {
    var k: nat :| IsLeast(k, s.queue) && k < |chunks| && Taken(s, s', k, chunks, batchSize);
    if k * batchSize == s.counter {
      Matching(s, k, batchSize, chunks);
    } else {
      assert s.counter in s.queue ==> k == s.counter || k < s.counter;
    }
  }

  lemma {:induction false} PutKeepsInv<T>(s: State, s': State, chunks: seq<seq<T>>, batchSize: nat)
    requires Inv(s, chunks, batchSize) && Put(s, s', chunks)
    ensures Inv(s', chunks, batchSize)
  {
    hide Wanted;
  }

  lemma {:induction false} StepKeepsInv<T>(s: State, s': State, chunks: seq<seq<T>>, batchSize: nat)
    requires 0 < batchSize && Inv(s, chunks, batchSize) && Next(s, s', chunks, batchSize)
    ensures Inv(s', chunks, batchSize)
  {
    hide Wanted;
    if Put(s, s', chunks) {
      PutKeepsInv(s, s', chunks, batchSize);
    } else if Read(s, s', chunks, batchSize) && s.reader.Take? {
      TakeKeepsInv(s, s', chunks, batchSize);
    }
  }

  lemma {:induction false} StepKeepsPermits<T>(s: State, s': State, chunks: seq<seq<T>>, batchSize: nat)
    requires 0 < batchSize && Inv(s, chunks, batchSize) && Permitted(s, chunks, batchSize)
    requires Next(s, s', chunks, batchSize)
    ensures Permitted(s', chunks, batchSize)
  {
    if Read(s, s', chunks, batchSize) {
      if s.reader.Take? { TakeKeepsInv(s, s', chunks, batchSize); }
    } else if Release(s, s', batchSize) {
      ReleaseKeepsPermits(s, s', chunks, batchSize);
    }
  }

  lemma {:induction false} ReleaseKeepsPermits<T>(s: State, s': State, chunks: seq<seq<T>>, batchSize: nat)
    requires Inv(s, chunks, batchSize) && Permitted(s, chunks, batchSize) && Release(s, s', batchSize)
    ensures Permitted(s', chunks, batchSize)
  {
    var k: nat :| k in s.pending &&
      s' == s.(pending := s.pending - {k}, permits := s.permits + if k * batchSize <= s.counter then 1 else 0);
    assert k == |s.out| && Matches(k, chunks, batchSize) && !s.reader.Stopped? ==> s'.permits > 0;
  }

  lemma {:induction false} RunKeepsInv<T>(run: seq<State>, chunks: seq<seq<T>>, batchSize: nat)
    requires 0 < batchSize && Run(run, chunks, batchSize)
    ensures Inv(run[|run| - 1], chunks, batchSize) && Permitted(run[|run| - 1], chunks, batchSize)
  {
    hide Inv, Permitted, Next;
    var n := |run| - 1;
    if n == 0 {
      InitInv(run[0], chunks, batchSize);
    } else {
      RunKeepsInv(run[..n], chunks, batchSize);
      assert Next(run[n - 1], run[n], chunks, batchSize);
      StepKeepsInv(run[n - 1], run[n], chunks, batchSize);
      StepKeepsPermits(run[n - 1], run[n], chunks, batchSize);
    }
  }

  lemma {:induction false} InitInv<T>(s: State, chunks: seq<seq<T>>, batchSize: nat)
    requires Init(s)
    ensures Inv(s, chunks, batchSize) && Permitted(s, chunks, batchSize)
  {}

  // ---- what is handed on ----

  /** Whatever the schedule, the reader hands on the first so many of the chunks that match, in order. */
  lemma {:induction false} DeliveredInOrder<T>(run: seq<State>, chunks: seq<seq<T>>, batchSize: nat)
    requires 0 < batchSize && Run(run, chunks, batchSize)
    ensures |run[|run| - 1].out| <= |Received(chunks, batchSize)| <= |chunks|
    ensures Delivered(run[|run| - 1], chunks) == HandedOn(chunks, batchSize, |run[|run| - 1].out|)
  {
    RunKeepsInv(run, chunks, batchSize);
    ReceivedUpTo(chunks, batchSize, 0);
    var n, m := |run[|run| - 1].out|, |Received(chunks, batchSize)|;
    HandedMatches(run[|run| - 1], chunks, batchSize, m);
    assert chunks[0..m][..n] == chunks[..n];
  }

  /**
   * A reader that has stopped has handed on all chunks that match if and only if they had all been put
   * when it last looked at the queue. It does not look again once it finds that the workers are done.
   */
  lemma {:induction false} AllHandedOnIff<T>(run: seq<State>, chunks: seq<seq<T>>, batchSize: nat)
    requires 0 < batchSize && Run(run, chunks, batchSize) && run[|run| - 1].reader.Stopped?
    ensures |run[|run| - 1].out| <= |chunks|
    ensures Delivered(run[|run| - 1], chunks) == Received(chunks, batchSize) <==>
      UpTo(|Received(chunks, batchSize)|) <= run[|run| - 1].reader.seen
  {
    RunKeepsInv(run, chunks, batchSize);
    DeliveredInOrder(run, chunks, batchSize);
    ReceivedUpTo(chunks, batchSize, 0);
    var n, m := |run[|run| - 1].out|, |Received(chunks, batchSize)|;
    assert n < m ==> Wanted(n, chunks, batchSize);
    assert n == m ==> HandedOn(chunks, batchSize, n) == Received(chunks, batchSize);
  }

  /** Under every schedule all slices but the first are lost, unless slices hold a single row. */
  lemma {:induction false} LaterSlicesLost<T>(run: seq<State>, chunks: seq<seq<T>>, batchSize: nat)
    requires 1 < batchSize && chunks != [] && Run(run, chunks, batchSize)
    ensures run[|run| - 1].out == [] || run[|run| - 1].out == [0]
  {
    RunKeepsInv(run, chunks, batchSize);
    HandedMatches(run[|run| - 1], chunks, batchSize, 1);
  }

  /** A single slice arrives exactly when it had been put when the reader last looked at the queue. */
  lemma {:induction false} SingleSliceArrives<T>(run: seq<State>, chunk: seq<T>, batchSize: nat)
    requires 0 < batchSize && chunk != [] && Run(run, [chunk], batchSize)
    requires run[|run| - 1].reader.Stopped?
    ensures 0 in run[|run| - 1].reader.seen <==> run[|run| - 1].out == [0]
    ensures 0 !in run[|run| - 1].reader.seen <==> run[|run| - 1].out == []
  {
    RunKeepsInv(run, [chunk], batchSize);
    assert Wanted(0, [chunk], batchSize);
  }

  /** All slices but one are put, and the reader waits for a permit that nobody will release. */
  ghost predicate OthersBlocked(s: State, n: nat, missing: nat) {
    && Waits(s.reader) && s.permits == 0 && s.pending == {}
    && forall k: nat :: k < n && k != missing ==> k in s.put
  }

  /**
   * A worker that raises never puts its slice and never comes to the barrier. Then the reader stops at
   * an empty chunk before that slice or not at all; if it stops, it has handed on all that matches. If
   * there is such a chunk, it does not come to be blocked once all other slices have been put.
   */
  lemma {:induction false} WithoutOneWorker<T>(run: seq<State>, chunks: seq<seq<T>>, batchSize: nat, missing: nat)
    requires 0 < batchSize && Run(run, chunks, batchSize) && missing < |chunks| && missing !in run[|run| - 1].put
    ensures var s, m := run[|run| - 1], |Received(chunks, batchSize)|;
      && !s.done && |s.out| <= missing
      && (s.reader.Stopped? ==> |s.out| == m < missing && m * batchSize == m && chunks[m] == [])
      && (OthersBlocked(s, |chunks|, missing) ==> !(m < missing && m * batchSize == m))
  {
    RunKeepsInv(run, chunks, batchSize);
    DeliveredInOrder(run, chunks, batchSize);
    ReceivedUpTo(chunks, batchSize, 0);
    var n, m := |run[|run| - 1].out|, |Received(chunks, batchSize)|;
    assert n < m ==> chunks[n] != [];
  }

  // ---- how runs end ----

  /** All workers are done and the reader waits for a permit that nobody will release. */
  ghost predicate Blocked(s: State) {
    s.done && s.released && s.pending == {} && s.permits == 0 && Waits(s.reader)
  }

  /** Then nothing can happen any more. */
  lemma {:induction false} BlockedForEver<T>(s: State, s': State, chunks: seq<seq<T>>, batchSize: nat)
    requires 0 < batchSize && Inv(s, chunks, batchSize) && Blocked(s)
    ensures !Next(s, s', chunks, batchSize)
  {}

  /** The reader is blocked only with several slices of more than one row, after it has handed on the first. */
  lemma {:induction false} BlockedOnlyIf<T>(run: seq<State>, chunks: seq<seq<T>>, batchSize: nat)
    requires 0 < batchSize && Run(run, chunks, batchSize) && Blocked(run[|run| - 1])
    ensures CanBlock(chunks, batchSize) && run[|run| - 1].out == [0] && run[|run| - 1].reader.WaitAfterMismatch?
  {
    RunKeepsInv(run, chunks, batchSize);
    var s := run[|run| - 1];
    var n := |s.out|;
    Multiples(n, batchSize);
    HandedMatches(s, chunks, batchSize, 0);
    HandedMatches(s, chunks, batchSize, 1);
    var k :| k in s.queue;
    assert n <= k < |chunks| && !Matches(n, chunks, batchSize);
    assert 0 * batchSize == 0;
  }

  /** In every other state something can happen, until the reader has stopped and the workers are done. */
  lemma {:induction false} GoesOn<T>(s: State, chunks: seq<seq<T>>, batchSize: nat) returns (s': State)
    requires 0 < batchSize && Inv(s, chunks, batchSize) && Permitted(s, chunks, batchSize)
    requires !Blocked(s) && !(s.reader.Stopped? && s.released)
    ensures Next(s, s', chunks, batchSize)
  {
    hide Inv, Permitted;
    if k: nat :| k < |chunks| && k !in s.put {
      s' := s.(put := s.put + {k}, pending := s.pending + {k}, queue := s.queue + {k});
      assert Put(s, s', chunks);
    } else if k :| k in s.pending {
      s' := s.(pending := s.pending - {k}, permits := s.permits + if k * batchSize <= s.counter then 1 else 0);
      assert Release(s, s', batchSize);
    } else if !s.done {
      s' := s.(done := true);
      assert Finish(s, s', chunks);
    } else if !s.released {
      s' := s.(released := true, permits := s.permits + 1);
      assert Finish(s, s', chunks);
    } else {
      s' := ReaderGoesOn(s, chunks, batchSize);
    }
  }

  lemma {:induction false} ReaderGoesOn<T>(s: State, chunks: seq<seq<T>>, batchSize: nat) returns (s': State)
    requires Inv(s, chunks, batchSize) && !s.reader.Stopped? && (Waits(s.reader) ==> s.permits > 0)
    ensures Read(s, s', chunks, batchSize)
  {
    match s.reader
    case TestEmpty => s' := s.(reader := if s.queue == {} then TestDone(s.put) else Take);
    case TestDone(seen) => s' := s.(reader := if s.done then Stopped(seen) else Wait(seen));
    case Wait(_) => s' := s.(permits := s.permits - 1, reader := TestEmpty);
    case WaitAfterMismatch(seen) => s' := s.(permits := s.permits - 1, reader := TestDoneAfterMismatch(seen));
    case TestDoneAfterMismatch(seen) => s' := s.(reader := if s.done then Stopped(seen) else Take);
    case Take =>
      var k := Least(s.queue);
      assert k in s.put;
      s' := if k * batchSize != s.counter then s.(reader := WaitAfterMismatch(s.put))
            else if chunks[k] == [] then s.(queue := s.queue - {k}, counter := s.counter + 1, reader := Stopped(s.put))
            else s.(queue := s.queue - {k}, counter := s.counter + 1, reader := TestEmpty, out := s.out + [k]);
      assert Taken(s, s', k, chunks, batchSize);
  }

  lemma {:induction false} Least(queue: set<nat>) returns (k: nat)
    requires queue != {}
    ensures IsLeast(k, queue)
    decreases queue
  {
    var any :| any in queue;
    var below := set j | j in queue && j < any;
    if below == {} {
      k := any;
      forall j | j in queue ensures k <= j { assert j !in below; }
    } else {
      assert any !in below;
      k := Least(below);
      forall j | j in queue ensures k <= j { assert j < any ==> j in below; }
    }
  }

  function Rank(r: Reader): nat {
    match r
    case TestEmpty => 3
    case TestDone(_) => 2
    case Wait(_) => 1
    case Take => 2
    case WaitAfterMismatch(_) => 1
    case TestDoneAfterMismatch(_) => 3
    case Stopped(_) => 0
  }

  /** What is left to happen: every step takes something away, and permits are the only thing given. */
  function StepsLeft(s: State, n: nat): int {
    5 * (n - |s.put|) + 4 * |s.pending| + (if s.done then 0 else 1) + (if s.released then 0 else 4)
    + 3 * s.permits + 2 * (n - |s.out|) + Rank(s.reader)
  }

  lemma {:induction false} PutTakesAway<T>(s: State, s': State, chunks: seq<seq<T>>)
    requires s.pending <= s.put && Put(s, s', chunks)
    ensures StepsLeft(s', |chunks|) < StepsLeft(s, |chunks|)
  {
    var k: nat :| k < |chunks| && k !in s.put &&
      s' == s.(put := s.put + {k}, pending := s.pending + {k}, queue := s.queue + {k});
    assert |s.put + {k}| == |s.put| + 1 && |s.pending + {k}| == |s.pending| + 1;
  }

  lemma {:induction false} ReleaseTakesAway(s: State, s': State, n: nat, batchSize: nat)
    requires Release(s, s', batchSize)
    ensures StepsLeft(s', n) < StepsLeft(s, n)
  {
    var k: nat :| k in s.pending &&
      s' == s.(pending := s.pending - {k}, permits := s.permits + if k * batchSize <= s.counter then 1 else 0);
    assert |s.pending - {k}| == |s.pending| - 1;
  }

  lemma {:induction false} ReadTakesAway<T>(s: State, s': State, chunks: seq<seq<T>>, batchSize: nat)
    requires Read(s, s', chunks, batchSize)
    ensures StepsLeft(s', |chunks|) < StepsLeft(s, |chunks|)
  {
    if s.reader.Take? {
      var k: nat :| IsLeast(k, s.queue) && k < |chunks| && Taken(s, s', k, chunks, batchSize);
    }
  }

  lemma {:induction false} StepTakesAway<T>(s: State, s': State, chunks: seq<seq<T>>, batchSize: nat)
    requires s.pending <= s.put && Next(s, s', chunks, batchSize)
    ensures StepsLeft(s', |chunks|) < StepsLeft(s, |chunks|)
  {
    if Put(s, s', chunks) {
      PutTakesAway(s, s', chunks);
    } else if Release(s, s', batchSize) {
      ReleaseTakesAway(s, s', |chunks|, batchSize);
    } else if Read(s, s', chunks, batchSize) {
      hide StepsLeft, Read;
      ReadTakesAway(s, s', chunks, batchSize);
    }
  }

  lemma {:induction false} PositionsFit(put: set<nat>, n: nat)
    requires forall k :: k in put ==> k < n
    ensures |put| <= n
  {
    if n > 0 {
      PositionsFit(put - {n - 1}, n - 1);
      assert n - 1 in put ==> put == put - {n - 1} + {n - 1};
      assert n - 1 !in put ==> put == put - {n - 1};
    }
  }

  /** So every run comes to an end, after a number of steps that only the number of slices bounds. */
  lemma {:induction false} RunsEnd<T>(run: seq<State>, chunks: seq<seq<T>>, batchSize: nat)
    requires 0 < batchSize && Run(run, chunks, batchSize)
    ensures |run| <= 7 * |chunks| + 12
  {
    RunTakesAway(run, chunks, batchSize);
    RunKeepsInv(run, chunks, batchSize);
    PositionsFit(run[|run| - 1].put, |chunks|);
  }

  lemma {:induction false} RunTakesAway<T>(run: seq<State>, chunks: seq<seq<T>>, batchSize: nat)
    requires 0 < batchSize && Run(run, chunks, batchSize)
    ensures StepsLeft(run[|run| - 1], |chunks|) + |run| <= 7 * |chunks| + 12
  {
    hide Inv, Next;
    var n := |run| - 1;
    if n > 0 {
      RunTakesAway(run[..n], chunks, batchSize);
      RunKeepsInv(run[..n], chunks, batchSize);
      assert Next(run[n - 1], run[n], chunks, batchSize);
      StepTakesAway(run[n - 1], run[n], chunks, batchSize);
    }
  }

  // ---- which schedules there are ----

  function Counted(n: nat): seq<nat> { seq(n, i => i) }

  /** The reader has handed on the first n slices and nothing else was put. */
  function HandedState(n: nat): State {
    State(UpTo(n), {}, {}, false, false, 1 + n, n, TestEmpty, Counted(n))
  }

  /** Slices up to k were put since, while the reader stands still having seen the first n. */
  ghost predicate LateState(s: State, n: nat, k: nat, reader: Reader, out: seq<nat>) {
    && n <= k && s.put == UpTo(k) && s.pending == {} && s.queue == UpTo(k) - UpTo(n) && !s.done && !s.released
    && s.counter == n && s.reader == reader && s.out == out
  }

  lemma {:induction false} OneMoreStep<T>(run: seq<State>, s: State, chunks: seq<seq<T>>, batchSize: nat)
    requires Run(run, chunks, batchSize) && Next(run[|run| - 1], s, chunks, batchSize)
    ensures Run(run + [s], chunks, batchSize)
  {
    hide Next;
    var all := run + [s];
    forall i | 0 <= i < |all| - 1 ensures Next(all[i], all[i + 1], chunks, batchSize) {
      if i < |run| - 1 { assert Next(run[i], run[i + 1], chunks, batchSize); }
    }
  }

  /** A worker puts slice k and makes its test at once. */
  function PutAndTested(s: State, k: nat, batchSize: nat): State {
    s.(put := s.put + {k}, queue := s.queue + {k}, permits := s.permits + if k * batchSize <= s.counter then 1 else 0)
  }

  lemma {:induction false} PutOne<T>(before: seq<State>, k: nat, chunks: seq<seq<T>>, batchSize: nat)
    returns (run: seq<State>)
    requires Run(before, chunks, batchSize)
    requires var s := before[|before| - 1]; k < |chunks| && k !in s.put && s.pending == {}
    ensures Run(run, chunks, batchSize) && run[|run| - 1] == PutAndTested(before[|before| - 1], k, batchSize)
  {
    var s := before[|before| - 1];
    var put := s.(put := s.put + {k}, pending := s.pending + {k}, queue := s.queue + {k});
    assert Put(s, put, chunks);
    OneMoreStep(before, put, chunks, batchSize);
    var tested := PutAndTested(s, k, batchSize);
    assert put.pending - {k} == {};
    assert tested ==
      put.(pending := put.pending - {k}, permits := put.permits + if k * batchSize <= put.counter then 1 else 0);
    assert Release(put, tested, batchSize);
    OneMoreStep(before + [put], tested, chunks, batchSize);
    run := before + [put] + [tested];
  }

  lemma {:induction false} HandNext<T>(before: seq<State>, n: nat, chunks: seq<seq<T>>, batchSize: nat)
    returns (run: seq<State>)
    requires Run(before, chunks, batchSize) && before[|before| - 1] == HandedState(n) && Wanted(n, chunks, batchSize)
    ensures Run(run, chunks, batchSize) && run[|run| - 1] == HandedState(n + 1)
  {
    var put := PutOne(before, n, chunks, batchSize);
    var s := put[|put| - 1];
    assert UpTo(n + 1) == UpTo(n) + {n} && {} + {n} == {n};
    var take, next := s.(reader := Take), HandedState(n + 1);
    OneMoreStep(put, take, chunks, batchSize);
    assert IsLeast(n, take.queue) && {n} - {n} == {} && Counted(n + 1) == Counted(n) + [n];
    assert Taken(take, next, n, chunks, batchSize);
    OneMoreStep(put + [take], next, chunks, batchSize);
    run := put + [take] + [next];
  }

  lemma {:induction false} HandFirst<T>(n: nat, chunks: seq<seq<T>>, batchSize: nat) returns (run: seq<State>)
    requires forall k: nat :: k < n ==> Wanted(k, chunks, batchSize)
    ensures Run(run, chunks, batchSize) && run[|run| - 1] == HandedState(n)
  {
    if n == 0 {
      assert Counted(0) == [];
      run := [HandedState(0)];
    } else {
      run := HandFirst(n - 1, chunks, batchSize);
      run := HandNext(run, n - 1, chunks, batchSize);
    }
  }

  lemma {:induction false} PutLate<T>(before: seq<State>, n: nat, k: nat, chunks: seq<seq<T>>, batchSize: nat, quiet: bool)
    returns (run: seq<State>)
    requires Run(before, chunks, batchSize) && n <= k <= |chunks|
    requires var s := before[|before| - 1]; LateState(s, n, k, s.reader, s.out)
    requires quiet ==> n == 1 && batchSize > 1
    ensures Run(run, chunks, batchSize)
    ensures var s, s' := before[|before| - 1], run[|run| - 1];
      LateState(s', n, |chunks|, s.reader, s.out) && (quiet ==> s'.permits == s.permits)
    decreases |chunks| - k
  {
    if k == |chunks| {
      run := before;
    } else {
      run := PutOne(before, k, chunks, batchSize);
      assert UpTo(k + 1) == UpTo(k) + {k} && UpTo(k + 1) - UpTo(n) == (UpTo(k) - UpTo(n)) + {k};
      assert quiet ==> k * batchSize >= batchSize;
      run := PutLate(run, n, k + 1, chunks, batchSize, quiet);
    }
  }

  /** Of the chunks that match, every number can be handed on: it is the schedule that decides. */
  lemma {:induction false} EveryNumberHappens<T>(chunks: seq<seq<T>>, batchSize: nat, handed: nat) returns (run: seq<State>)
    requires handed <= |Received(chunks, batchSize)|
    ensures Run(run, chunks, batchSize)
    ensures run[|run| - 1].reader.Stopped? && |run[|run| - 1].out| == handed
  {
    ReceivedUpTo(chunks, batchSize, 0);
    run := HandFirst(handed, chunks, batchSize);
    var s := HandedState(handed);
    var late := s.(reader := TestDone(s.put));
    OneMoreStep(run, late, chunks, batchSize);
    assert UpTo(handed) - UpTo(handed) == {};
    run := PutLate(run + [late], handed, handed, chunks, batchSize, false);
    var all := run[|run| - 1];
    var done := all.(done := true);
    assert Finish(all, done, chunks);
    OneMoreStep(run, done, chunks, batchSize);
    var end := done.(reader := Stopped(UpTo(handed)));
    OneMoreStep(run + [done], end, chunks, batchSize);
    run := run + [done] + [end];
  }

  /** The run that loses the only slice: put and barrier fall between the two tests. */
  lemma {:induction false} SingleSliceCanBeLost<T>(chunk: seq<T>, batchSize: nat) returns (run: seq<State>)
    requires 0 < batchSize && chunk != []
    ensures Run(run, [chunk], batchSize)
    ensures run[|run| - 1].reader.Stopped? && run[|run| - 1].out == []
  {
    run := EveryNumberHappens([chunk], batchSize, 0);
  }

  /** Slice 1 comes first, the reader puts it back, slice 0 and the barrier come, and the reader stops. */
  lemma {:induction false} MismatchLosesSlices<T>(a: seq<T>, b: seq<T>, batchSize: nat) returns (run: seq<State>)
    requires 0 < batchSize && a != [] && b != []
    ensures Run(run, [a, b], batchSize)
    ensures run[|run| - 1].reader == Stopped({1}) && run[|run| - 1].out == [] && Received([a, b], batchSize) != []
  {
    var chunks := [a, b];
    assert UpTo(0) == {} && Counted(0) == [];
    run := PutOne([HandedState(0)], 1, chunks, batchSize);
    var s1 := run[|run| - 1];
    assert s1.put == {1} && s1.queue == {1} && 1 * batchSize > 0;
    var s2 := s1.(reader := Take);
    OneMoreStep(run, s2, chunks, batchSize);
    var s3 := s2.(reader := WaitAfterMismatch({1}));
    assert IsLeast(1, s2.queue) && Taken(s2, s3, 1, chunks, batchSize);
    OneMoreStep(run + [s2], s3, chunks, batchSize);
    var s4 := s3.(permits := s3.permits - 1, reader := TestDoneAfterMismatch({1}));
    OneMoreStep(run + [s2] + [s3], s4, chunks, batchSize);
    run := PutOne(run + [s2] + [s3] + [s4], 0, chunks, batchSize);
    var s5 := run[|run| - 1];
    var s6 := s5.(done := true);
    assert Finish(s5, s6, chunks);
    OneMoreStep(run, s6, chunks, batchSize);
    var s7 := s6.(reader := Stopped({1}));
    OneMoreStep(run + [s6], s7, chunks, batchSize);
    run := run + [s6] + [s7];
    assert 0 * batchSize == 0;
  }

  // ---- the run that blocks the reader ----

  /** The reader finds the queue empty and takes the initial permit, and then waits again. */
  lemma {:induction false} SpendInitialPermit<T>(chunks: seq<seq<T>>, batchSize: nat) returns (run: seq<State>)
    ensures Run(run, chunks, batchSize)
    ensures run[|run| - 1] == State({}, {}, {}, false, false, 0, 0, Wait({}), [])
  {
    var s0 := State({}, {}, {}, false, false, 1, 0, TestEmpty, []);
    var s1 := s0.(reader := TestDone({}));
    var s2 := s0.(reader := Wait({}));
    var s3 := s0.(permits := 0);
    run := [s0, s1, s2, s3, s3.(reader := TestDone({})), s3.(reader := Wait({}))];
  }

  /** Slice 0 comes with a permit, is handed on, and the reader waits for the next one. */
  lemma {:induction false} HandFirstWaiting<T>(before: seq<State>, chunks: seq<seq<T>>, batchSize: nat)
    returns (run: seq<State>)
    requires Run(before, chunks, batchSize) && chunks != [] && chunks[0] != []
    requires before[|before| - 1] == State({}, {}, {}, false, false, 0, 0, Wait({}), [])
    ensures Run(run, chunks, batchSize)
    ensures run[|run| - 1] == State({0}, {}, {}, false, false, 0, 1, Wait({0}), [0])
  {
    run := PutOne(before, 0, chunks, batchSize);
    assert 0 * batchSize == 0;
    var s1 := State({0}, {}, {0}, false, false, 0, 0, TestEmpty, []);
    OneMoreStep(run, s1, chunks, batchSize);
    var s2 := s1.(reader := Take);
    OneMoreStep(run + [s1], s2, chunks, batchSize);
    var s3 := State({0}, {}, {}, false, false, 0, 1, TestEmpty, [0]);
    assert IsLeast(0, s2.queue) && Taken(s2, s3, 0, chunks, batchSize);
    OneMoreStep(run + [s1] + [s2], s3, chunks, batchSize);
    var s4 := s3.(reader := TestDone({0}));
    OneMoreStep(run + [s1] + [s2] + [s3], s4, chunks, batchSize);
    OneMoreStep(run + [s1] + [s2] + [s3] + [s4], s3.(reader := Wait({0})), chunks, batchSize);
    run := run + [s1] + [s2] + [s3] + [s4] + [s3.(reader := Wait({0}))];
  }

  /** The last permit wakes the reader, which puts slice 1 back and waits for another one. */
  lemma {:induction false} WakeAndBlock<T>(before: seq<State>, chunks: seq<seq<T>>, batchSize: nat)
    returns (run: seq<State>)
    requires Run(before, chunks, batchSize) && CanBlock(chunks, batchSize)
    requires var s := before[|before| - 1]; LateState(s, 1, |chunks|, Wait({0}), [0]) && s.permits == 0
    ensures Run(run, chunks, batchSize) && Blocked(run[|run| - 1]) && run[|run| - 1].out == [0]
  {
    var s0 := before[|before| - 1];
    var s1 := s0.(done := true);
    assert Finish(s0, s1, chunks);
    OneMoreStep(before, s1, chunks, batchSize);
    var s2 := s1.(released := true, permits := 1);
    assert Finish(s1, s2, chunks);
    OneMoreStep(before + [s1], s2, chunks, batchSize);
    var s3 := s2.(permits := 0, reader := TestEmpty);
    OneMoreStep(before + [s1] + [s2], s3, chunks, batchSize);
    assert 1 in s3.queue && 0 !in s3.queue && IsLeast(1, s3.queue);
    var s4 := s3.(reader := Take);
    OneMoreStep(before + [s1] + [s2] + [s3], s4, chunks, batchSize);
    var s5 := s3.(reader := WaitAfterMismatch(s3.put));
    assert Taken(s4, s5, 1, chunks, batchSize);
    OneMoreStep(before + [s1] + [s2] + [s3] + [s4], s5, chunks, batchSize);
    run := before + [s1] + [s2] + [s3] + [s4] + [s5];
  }

  /** Whenever there are several slices of more than one row and the first is not empty, the reader can be blocked. */
  lemma {:induction false} CanBeBlocked<T>(chunks: seq<seq<T>>, batchSize: nat) returns (run: seq<State>)
    requires CanBlock(chunks, batchSize)
    ensures Run(run, chunks, batchSize) && Blocked(run[|run| - 1]) && run[|run| - 1].out == [0]
  {
    run := SpendInitialPermit(chunks, batchSize);
    run := HandFirstWaiting(run, chunks, batchSize);
    assert UpTo(1) == {0} && UpTo(1) - UpTo(1) == {};
    run := PutLate(run, 1, 1, chunks, batchSize, true);
    run := WakeAndBlock(run, chunks, batchSize);
  }

  /**
   * A run can end with all workers done and the reader blocked for ever if and only if there are several
   * slices of more than one row and the first chunk is not empty.
   */
  lemma {:induction false} BlockedIff<T>(chunks: seq<seq<T>>, batchSize: nat)
    requires 0 < batchSize
    ensures (exists run :: Run(run, chunks, batchSize) && Blocked(run[|run| - 1])) <==> CanBlock(chunks, batchSize)
  {
    if run :| Run(run, chunks, batchSize) && Blocked(run[|run| - 1]) {
      BlockedOnlyIf(run, chunks, batchSize);
    }
    if CanBlock(chunks, batchSize) {
      var run := CanBeBlocked(chunks, batchSize);
    }
  }
}
