/**
 * Splitting one iterator into two branches with a queue each. Whoever finds its queue empty pulls
 * the next result of the source and hands it to both queues.
 */
module Tee {

  datatype Side = Left | Right

  /** How many results were pulled, and what each branch still has to deliver. */
  datatype State<T> = State(pulled: nat, left: seq<T>, right: seq<T>) {
    function Queue(side: Side): seq<T> { if side.Left? then left else right }
  }

  /** The iterator's results in order; after its end it keeps answering that it is done. */
  type Source<T> = nat -> T

  function Shift<T>(s: State<T>, side: Side): State<T>
    requires s.Queue(side) != []
  {
    if side.Left? then s.(left := s.left[1..]) else s.(right := s.right[1..])
  }

  function Pull<T>(source: Source<T>, s: State<T>): State<T> {
    State(s.pulled + 1, s.left + [source(s.pulled)], s.right + [source(s.pulled)])
  }

  /** One call of next() on a branch: the state after it and the result it delivers. */
  function Next<T>(source: Source<T>, s: State<T>, side: Side): (State<T>, T) {
    var ready := if s.Queue(side) == [] then Pull(source, s) else s;
    (Shift(ready, side), ready.Queue(side)[0])
  }

  datatype Trace<T> = Trace(state: State<T>, left: seq<T>, right: seq<T>) {
    function Got(side: Side): seq<T> { if side.Left? then left else right }
  }

  function Delivered<T>(t: Trace<T>, s: State<T>, side: Side, result: T): Trace<T> {
    if side.Left? then Trace(s, t.left + [result], t.right) else Trace(s, t.left, t.right + [result])
  }

  /** A whole interleaving of calls on the two branches. */
  function Run<T>(source: Source<T>, calls: seq<Side>): Trace<T> {
    if calls == [] then Trace(State(0, [], []), [], [])
    else
      var n := |calls| - 1;
      var before := Run(source, calls[..n]);
      var (after, result) := Next(source, before.state, calls[n]);
      Delivered(before, after, calls[n], result)
  }

  function Calls(calls: seq<Side>, side: Side): nat {
    if calls == [] then 0
    else
      var n := |calls| - 1;
      Calls(calls[..n], side) + if calls[n] == side then 1 else 0
  }

  /** The results from position a up to b. */
  function Results<T>(source: Source<T>, a: nat, b: nat): seq<T>
    requires a <= b
  {
    seq(b - a, i requires 0 <= i < b - a => source(a + i))
  }

  ghost predicate Lag<T>(source: Source<T>, t: Trace<T>, side: Side, count: nat) {
    && count <= t.state.pulled
    && t.Got(side) == Results(source, 0, count)
    && t.state.Queue(side) == Results(source, count, t.state.pulled)
  }

  /**
   * Under every interleaving each branch sees the results of the source from the first on, as many as
   * it asked for; the source is pulled as often as the busier branch asked; and one queue is empty.
   */
  lemma {:induction false} BranchesSeeTheSource<T>(source: Source<T>, calls: seq<Side>)
    ensures var t := Run(source, calls);
      && t.left == Results(source, 0, Calls(calls, Left))
      && t.right == Results(source, 0, Calls(calls, Right))
      && t.state.pulled == (if Calls(calls, Left) < Calls(calls, Right) then Calls(calls, Right) else Calls(calls, Left))
      && (t.state.left == [] || t.state.right == [])
      && Lag(source, t, Left, Calls(calls, Left)) && Lag(source, t, Right, Calls(calls, Right))
  {
    if calls != [] {
      var n := |calls| - 1;
      BranchesSeeTheSource(source, calls[..n]);
      var t := Run(source, calls[..n]);
      var l, r := Calls(calls[..n], Left), Calls(calls[..n], Right);
      if calls[n].Left? { StepLeft(source, t, l, r); } else { StepRight(source, t, l, r); }
    }
  }

  lemma {:induction false} ResultsMore<T>(source: Source<T>, a: nat, b: nat)
    requires a <= b
    ensures Results(source, a, b + 1) == Results(source, a, b) + [source(b)]
    ensures Results(source, a, b + 1)[1..] == Results(source, a + 1, b + 1)
    ensures Results(source, a, b + 1)[0] == source(a)
  {}

  lemma {:induction false} StepLeft<T>(source: Source<T>, t: Trace<T>, l: nat, r: nat)
    requires Lag(source, t, Left, l) && Lag(source, t, Right, r)
    requires t.state.pulled == if l < r then r else l
    ensures var (s, result) := Next(source, t.state, Left);
      var t' := Delivered(t, s, Left, result);
      && Lag(source, t', Left, l + 1) && Lag(source, t', Right, r)
      && t'.state.pulled == (if l + 1 < r then r else l + 1)
  {
    ResultsMore(source, 0, l);
    if l < r {
      ResultsMore(source, l, r - 1);
    } else {
      ResultsMore(source, l, l);
      ResultsMore(source, r, l);
    }
  }

  lemma {:induction false} StepRight<T>(source: Source<T>, t: Trace<T>, l: nat, r: nat)
    requires Lag(source, t, Left, l) && Lag(source, t, Right, r)
    requires t.state.pulled == if l < r then r else l
    ensures var (s, result) := Next(source, t.state, Right);
      var t' := Delivered(t, s, Right, result);
      && Lag(source, t', Left, l) && Lag(source, t', Right, r + 1)
      && t'.state.pulled == (if l < r + 1 then r + 1 else l)
  {
    ResultsMore(source, 0, r);
    if r < l {
      ResultsMore(source, r, l - 1);
    } else {
      ResultsMore(source, r, r);
      ResultsMore(source, l, r);
    }
  }

  /** The shared iterator with its two queues as the object the branches close over. */
  class TeeIterator<T> {
    const source: Source<T>
    var pulled: nat
    var left: seq<T>
    var right: seq<T>

    ghost function Abstract(): State<T>
      reads this
    {
      State(pulled, left, right)
    }

    constructor (source: Source<T>)
      ensures this.source == source && Abstract() == Run(source, []).state
    {
      this.source := source;
      pulled, left, right := 0, [], [];
    }

    method NextOn(side: Side) returns (result: T)
      modifies this
      ensures (Abstract(), result) == Next(source, old(Abstract()), side)
    {
      if (if side.Left? then |left| else |right|) == 0 {
        var pulledResult := source(pulled);
        pulled := pulled + 1;
        left := left + [pulledResult];
        right := right + [pulledResult];
      }
      if side.Left? {
        result := left[0];
        left := left[1..];
      } else {
        result := right[0];
        right := right[1..];
      }
    }
  }
}
