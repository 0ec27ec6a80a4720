/** Work cut into pieces: evaluation sectors for the workers, inference windows for the service. */
module Partition {
  import opened Numbers
  import opened Options
  import opened Rows
  import opened Sequences

  function Append<T>(a: Result<seq<T>>, b: Result<seq<T>>): Result<seq<T>> {
    if a.Ok? && b.Ok? then Ok(a.value + b.value) else Raised
  }

  // ---- one sample ----

  datatype Sample = Sample(input: Value, reference: Value, output: Value)

  /** What runs on each sample: pre-processors of the output, then evaluators that report metrics. */
  datatype Manager = Manager(
    preProcessors: seq<(Value, Value, Value) -> Result<Value>>,
    evaluators: seq<(Value, Value, Value) -> Result<Row>>)

  /** The output after all pre-processors, first to last. */
  function Processed(m: Manager, n: nat, s: Sample): Result<Value>
    requires n <= |m.preProcessors|
  {
    if n == 0 then Ok(s.output) else
      match Processed(m, n - 1, s)
      case Ok(output) => m.preProcessors[n - 1](output, s.input, s.reference)
      case Raised => Raised
  }

  /** The metrics of the first n evaluators; later ones win where names collide. */
  function Metrics(m: Manager, n: nat, s: Sample, output: Value): Result<Row>
    requires n <= |m.evaluators|
  {
    if n == 0 then Ok(map[]) else
      match Metrics(m, n - 1, s, output)
      case Ok(result) =>
        (match m.evaluators[n - 1](s.input, s.reference, output)
         case Ok(metrics) => Ok(result + metrics)
         case Raised => Raised)
      case Raised => Raised
  }

  function Evaluated(m: Manager, s: Sample): Result<Row> {
    if m.evaluators == [] then Raised else
      match Processed(m, |m.preProcessors|, s)
      case Ok(output) => Metrics(m, |m.evaluators|, s, output)
      case Raised => Raised
  }

  method EvaluateSample(m: Manager, s: Sample) returns (r: Result<Row>)
    requires m.evaluators != []
    ensures r == Evaluated(m, s)
  {
    var output := Ok(s.output);
    for i := 0 to |m.preProcessors|
      invariant output == Processed(m, i, s)
    {
      if output.Ok? { output := m.preProcessors[i](output.value, s.input, s.reference); }
    }
    if output.Raised? { return Raised; }
    r := Ok(map[]);
    for i := 0 to |m.evaluators|
      invariant r == Metrics(m, i, s, output.value)
    {
      if r.Ok? {
        var metrics := m.evaluators[i](s.input, s.reference, output.value);
        r := if metrics.Ok? then Ok(r.value + metrics.value) else Raised;
      }
    }
  }

  /** The outputs a sample goes through: its own, and then that of each pre-processor. */
  ghost predicate ProcessedBy(m: Manager, s: Sample, outputs: seq<Value>) {
    && |outputs| == |m.preProcessors| + 1 && outputs[0] == s.output
    && forall i :: 0 <= i < |m.preProcessors| ==> m.preProcessors[i](outputs[i], s.input, s.reference) == Ok(outputs[i + 1])
  }

  lemma {:induction false} OutputAfter(m: Manager, s: Sample, outputs: seq<Value>, n: nat)
    requires ProcessedBy(m, s, outputs) && n <= |m.preProcessors|
    ensures Processed(m, n, s) == Ok(outputs[n])
  {
    if n > 0 { OutputAfter(m, s, outputs, n - 1); }
  }

  lemma {:induction false} OutputsOf(m: Manager, s: Sample, n: nat) returns (outputs: seq<Value>)
    requires n <= |m.preProcessors| && Processed(m, n, s).Ok?
    ensures |outputs| == n + 1 && outputs[0] == s.output && outputs[n] == Processed(m, n, s).value
    ensures forall i :: 0 <= i < n ==> m.preProcessors[i](outputs[i], s.input, s.reference) == Ok(outputs[i + 1])
  {
    if n == 0 {
      outputs := [s.output];
    } else {
      outputs := OutputsOf(m, s, n - 1);
      outputs := outputs + [Processed(m, n, s).value];
    }
  }

  /** The j-th evaluator is the last of the first n that reports this metric on the output. */
  ghost predicate LastReport(m: Manager, s: Sample, output: Value, n: nat, j: nat, c: Column, v: Value)
    requires n <= |m.evaluators|
  {
    && j < n && Reports(m, s, output, j, c) && m.evaluators[j](s.input, s.reference, output).value[c] == v
    && forall k: nat :: j < k < n ==> !Reports(m, s, output, k, c)
  }

  ghost predicate Reports(m: Manager, s: Sample, output: Value, j: nat, c: Column)
    requires j < |m.evaluators|
  {
    m.evaluators[j](s.input, s.reference, output).Ok? && c in m.evaluators[j](s.input, s.reference, output).value
  }

  lemma {:induction false} MetricsTold(m: Manager, n: nat, s: Sample, output: Value, c: Column)
    requires n <= |m.evaluators| && Metrics(m, n, s, output).Ok?
    ensures forall k: nat :: k < n ==> m.evaluators[k](s.input, s.reference, output).Ok?
    ensures c !in Metrics(m, n, s, output).value ==> forall k: nat :: k < n ==> !Reports(m, s, output, k, c)
    ensures c in Metrics(m, n, s, output).value ==>
      exists j: nat :: j < n && LastReport(m, s, output, n, j, c, Metrics(m, n, s, output).value[c])
  {
    if n > 0 {
      MetricsTold(m, n - 1, s, output, c);
      if Reports(m, s, output, n - 1, c) {
        assert LastReport(m, s, output, n, n - 1, c, Metrics(m, n, s, output).value[c]);
      } else if c in Metrics(m, n, s, output).value {
        var j: nat :| j < n - 1 && LastReport(m, s, output, n - 1, j, c, Metrics(m, n - 1, s, output).value[c]);
        assert LastReport(m, s, output, n, j, c, Metrics(m, n, s, output).value[c]);
      }
    }
  }

  /**
   * The evaluators see the output of the last pre-processor, and every pre-processor that of the one
   * before it. Where several evaluators report a metric of the same name, the last one has it.
   */
  lemma {:induction false} MetricsOfSample(m: Manager, s: Sample, c: Column) returns (outputs: seq<Value>)
    requires Evaluated(m, s).Ok?
    ensures ProcessedBy(m, s, outputs)
    ensures var output, result := outputs[|m.preProcessors|], Evaluated(m, s).value;
      && (c in result <==> exists j: nat :: j < |m.evaluators| && Reports(m, s, output, j, c))
      && (c in result ==> exists j: nat :: j < |m.evaluators| && LastReport(m, s, output, |m.evaluators|, j, c, result[c]))
  {
    outputs := OutputsOf(m, s, |m.preProcessors|);
    MetricsTold(m, |m.evaluators|, s, outputs[|m.preProcessors|], c);
  }

  lemma {:induction false} MetricsRaise(m: Manager, n: nat, s: Sample, output: Value)
    requires n <= |m.evaluators|
    ensures Metrics(m, n, s, output).Raised? <==>
      exists j: nat :: j < n && m.evaluators[j](s.input, s.reference, output).Raised?
  {
    if n > 0 { MetricsRaise(m, n - 1, s, output); }
  }

  /** An evaluation raises if and only if a pre-processor raises, an evaluator does, or there is no evaluator. */
  lemma {:induction false} EvaluationRaises(m: Manager, s: Sample)
    ensures Evaluated(m, s).Raised? <==>
      || m.evaluators == []
      || Processed(m, |m.preProcessors|, s).Raised?
      || exists j: nat :: j < |m.evaluators| &&
           m.evaluators[j](s.input, s.reference, Processed(m, |m.preProcessors|, s).value).Raised?
  {
    if Processed(m, |m.preProcessors|, s).Ok? {
      MetricsRaise(m, |m.evaluators|, s, Processed(m, |m.preProcessors|, s).value);
    }
  }

  // ---- all samples in order ----

  /** Evaluating all samples one after the other. */
  function Sequential(m: Manager, samples: seq<Sample>): Result<seq<Row>> {
    if samples == [] then Ok([])
    else
      var n := |samples| - 1;
      match (Sequential(m, samples[..n]), Evaluated(m, samples[n]))
      case (Ok(rows), Ok(row)) => Ok(rows + [row])
      case _ => Raised
  }

  lemma {:induction false} SequentialConcat(m: Manager, a: seq<Sample>, b: seq<Sample>)
    ensures Sequential(m, a + b) == Append(Sequential(m, a), Sequential(m, b))
  {
    if b == [] {
      assert a + b == a;
      if Sequential(m, a).Ok? { assert Sequential(m, a).value + [] == Sequential(m, a).value; }
    } else {
      var n := |b| - 1;
      SequentialConcat(m, a, b[..n]);
      assert (a + b)[..|a + b| - 1] == a + b[..n];
      var x, y, z := Sequential(m, a), Sequential(m, b[..n]), Evaluated(m, b[n]);
      if x.Ok? && y.Ok? && z.Ok? { assert (x.value + y.value) + [z.value] == x.value + (y.value + [z.value]); }
    }
  }

  // ---- sectors ----

  /** ceil(n / c) */
  function SectorLength(n: nat, c: nat): nat
    requires c > 0
  {
    (n + c - 1) / c
  }

  /** Where sector i begins, and sector i - 1 ends. */
  function Bound(n: nat, c: nat, i: nat): nat
    requires c > 0
  {
    Min(i * SectorLength(n, c), n)
  }

  lemma {:induction false} BoundsGrow(n: nat, c: nat, i: nat)
    requires c > 0
    ensures Bound(n, c, i) <= Bound(n, c, i + 1) <= n && Bound(n, c, 0) == 0
  {
    assert (i + 1) * SectorLength(n, c) == i * SectorLength(n, c) + SectorLength(n, c);
  }

  lemma {:induction false} CeilCovers(n: nat, c: nat)
    requires c > 0
    ensures n <= c * SectorLength(n, c) && Bound(n, c, c) == n
  {
    var q, r := (n + c - 1) / c, (n + c - 1) % c;
    assert n + c - 1 == c * q + r;
  }

  /** Sectors are no longer than they have to be. */
  lemma {:induction false} SectorIsShortest(n: nat, c: nat, len: nat)
    requires c > 0 && n <= c * len
    ensures SectorLength(n, c) <= len
  {
    var q, r := (n + c - 1) / c, (n + c - 1) % c;
    assert n + c - 1 == c * q + r;
    if len < q { Product(c, len, q); }
  }

  lemma {:induction false} Product(c: nat, len: nat, q: nat)
    requires len < q
    ensures c * len + c <= c * q
  {
    assert c * (len + 1) == c * len + c && c * (q - (len + 1)) == c * q - c * (len + 1);
  }

  lemma {:induction false} Quotient(k: nat, len: nat, i: nat)
    requires len > 0
    ensures i * len <= k < (i + 1) * len <==> i == k / len
  {
    var q, r := k / len, k % len;
    assert k == q * len + r;
    assert (i + 1) * len == i * len + len;
    if i < q {
      assert (i + 1) * len <= q * len;
    } else if q < i {
      assert (q + 1) * len <= i * len && (q + 1) * len == q * len + len;
    }
  }

  /** Every row belongs to exactly one sector, and that sector has a worker. */
  lemma {:induction false} OneSectorEach(n: nat, c: nat, k: nat, i: nat)
    requires c > 0 && k < n
    ensures SectorLength(n, c) > 0 && k / SectorLength(n, c) < c
    ensures Bound(n, c, i) <= k < Bound(n, c, i + 1) <==> i == k / SectorLength(n, c)
  {
    var len := SectorLength(n, c);
    CeilCovers(n, c);
    Quotient(k, len, i);
    Quotient(k, len, k / len);
    var q := k / len;
    assert c <= q ==> c * len <= q * len;
  }

  // ---- the workers ----

  /** Three columns of a dataset. */
  datatype Columns = Columns(inputs: seq<Value>, references: seq<Value>, outputs: seq<Value>) {
    predicate Valid() { |inputs| == |references| == |outputs| }

    function Samples(): (samples: seq<Sample>)
      requires Valid()
      ensures |samples| == |inputs|
    {
      seq(|inputs|, i requires 0 <= i < |inputs| => Sample(inputs[i], references[i], outputs[i]))
    }
  }

  lemma {:induction false} SequentialMore(m: Manager, samples: seq<Sample>, a: nat, i: nat)
    requires a <= i < |samples|
    ensures Sequential(m, samples[a..i + 1]) ==
      match (Sequential(m, samples[a..i]), Evaluated(m, samples[i]))
      case (Ok(rows), Ok(row)) => Ok(rows + [row])
      case _ => Raised
  {
    assert samples[a..i + 1][..i - a] == samples[a..i];
  }

  lemma {:induction false} SequentialRaises(m: Manager, samples: seq<Sample>, a: nat, i: nat, b: nat)
    requires a <= i <= b <= |samples| && Sequential(m, samples[a..i]).Raised?
    ensures Sequential(m, samples[a..b]).Raised?
  {
    assert samples[a..b] == samples[a..i] + samples[i..b];
    SequentialConcat(m, samples[a..i], samples[i..b]);
  }

  /** One worker: rows start to end of the columns, nothing when the range is empty. */
  method EvalWorker(m: Manager, start: nat, end: nat, d: Columns) returns (r: Result<seq<Row>>)
    requires d.Valid() && end <= |d.inputs|
    ensures r == if start >= end then Ok([]) else Sequential(m, d.Samples()[start..end])
  {
    hide Sequential, Evaluated;
    ghost var samples := d.Samples();
    var rows: seq<Row> := [];
    if start >= end { return Ok(rows); }
    if m.evaluators == [] {
      NoEvaluators(m, samples[start..end]);
      return Raised;
    }
    NoSamples(m);
    assert samples[start..start] == [];
    for i := start to end
      invariant Sequential(m, samples[start..i]) == Ok(rows)
    {
      SequentialMore(m, samples, start, i);
      var row := EvaluateSample(m, Sample(d.inputs[i], d.references[i], d.outputs[i]));
      if row.Raised? {
        SequentialRaises(m, samples, start, i + 1, end);
        return Raised;
      }
      rows := rows + [row.value];
    }
    r := Ok(rows);
  }

  lemma {:induction false} NoSamples(m: Manager)
    ensures Sequential(m, []) == Ok([])
  {}

  lemma {:induction false} NoEvaluators(m: Manager, samples: seq<Sample>)
    requires m.evaluators == [] && samples != []
    ensures Sequential(m, samples).Raised?
  {}

  ghost function Sector(samples: seq<Sample>, c: nat, i: nat): seq<Sample>
    requires c > 0
  {
    BoundsGrow(|samples|, c, i);
    samples[Bound(|samples|, c, i)..Bound(|samples|, c, i + 1)]
  }

  /** The range a worker is given holds the rows of its sector, and is empty or turned round when it has none. */
  lemma {:induction false} WorkerRange(samples: seq<Sample>, c: nat, i: nat)
    requires c > 0
    ensures
      var start, end := i * SectorLength(|samples|, c), Min((i + 1) * SectorLength(|samples|, c), |samples|);
      0 <= start && 0 <= end <= |samples| && Sector(samples, c, i) == if start >= end then [] else samples[start..end]
  {
    BoundsGrow(|samples|, c, i);
  }

  ghost predicate Evaluates(m: Manager, samples: seq<Sample>, c: nat, futures: seq<Result<seq<Row>>>)
    requires c > 0
  {
    forall i: nat :: i < |futures| ==> futures[i] == Sequential(m, Sector(samples, c, i))
  }

  /** One future for each worker, whether it has rows to do or not. */
  method GetEvalTaskFuture(m: Manager, d: Columns, cpuCount: nat) returns (futures: seq<Result<seq<Row>>>)
    requires d.Valid() && cpuCount > 0
    ensures |futures| == cpuCount && Evaluates(m, d.Samples(), cpuCount, futures)
  {
    hide Sequential, Sector, SectorLength;
    var n := |d.inputs|;
    var sectorLength := SectorLength(n, cpuCount);
    futures := [];
    for i := 0 to cpuCount
      invariant |futures| == i && Evaluates(m, d.Samples(), cpuCount, futures)
    {
      WorkerRange(d.Samples(), cpuCount, i);
      NoSamples(m);
      var future := EvalWorker(m, i * sectorLength, Min((i + 1) * sectorLength, n), d);
      assert future == Sequential(m, Sector(d.Samples(), cpuCount, i));
      futures := futures + [future];
    }
  }

  lemma {:induction false} OneMoreSector(m: Manager, samples: seq<Sample>, c: nat, i: nat)
    requires c > 0
    ensures Bound(|samples|, c, i) <= Bound(|samples|, c, i + 1) <= |samples|
    ensures Sequential(m, samples[..Bound(|samples|, c, i + 1)]) ==
      Append(Sequential(m, samples[..Bound(|samples|, c, i)]), Sequential(m, Sector(samples, c, i)))
  {
    BoundsGrow(|samples|, c, i);
    var a, b := Bound(|samples|, c, i), Bound(|samples|, c, i + 1);
    assert samples[..b] == samples[..a] + samples[a..b];
    SequentialConcat(m, samples[..a], samples[a..b]);
  }

  /** Spread over any number of workers, the evaluation gives what the sequential one gives. */
  method RunEvaluatorLocally(m: Manager, d: Columns, cpuCount: nat) returns (r: Result<seq<Row>>)
    requires d.Valid() && cpuCount > 0
    ensures r == Sequential(m, d.Samples())
  {
    hide Sequential, Sector, Bound;
    var futures := GetEvalTaskFuture(m, d, cpuCount);
    ghost var samples := d.Samples();
    var rows: seq<Row> := [];
    ghost var done := 0;
    NoSamples(m);
    BoundsGrow(|samples|, cpuCount, 0);
    for i := 0 to cpuCount
      invariant done == Bound(|samples|, cpuCount, i) && done <= |samples|
      invariant Sequential(m, samples[..done]) == Ok(rows)
    {
      OneMoreSector(m, samples, cpuCount, i);
      done := Bound(|samples|, cpuCount, i + 1);
      if futures[i].Raised? {
        SequentialRaises(m, samples, 0, done, |samples|);
        assert samples[0..done] == samples[..done] && samples[0..|samples|] == samples;
        return Raised;
      }
      rows := rows + futures[i].value;
    }
    CeilCovers(|samples|, cpuCount);
    assert samples[..done] == samples;
    r := Ok(rows);
  }

  // ---- windows ----

  /** Rows start to end, both included; a negative end means the last row. */
  function TakeSlice(rows: seq<Row>, start: int, end: int): Result<seq<Row>> {
    if start < 0 || end >= |rows| then Raised
    else
      var last := if end < 0 then |rows| - 1 else end;
      if start <= last + 1 then Ok(rows[start..last + 1]) else Raised
  }

  /** The rows in windows of the given size, the last one perhaps shorter. */
  ghost function Windows(rows: seq<Row>, size: nat): seq<seq<Row>>
    requires size > 0
  {
    if rows == [] then []
    else if |rows| <= size then [rows]
    else [rows[..size]] + Windows(rows[size..], size)
  }

  ghost predicate Sized(windows: seq<seq<Row>>, size: nat) {
    && (forall i: nat :: i < |windows| ==> 0 < |windows[i]| <= size)
    && (forall i: nat :: i < |windows| - 1 ==> |windows[i]| == size)
  }

  /** No row is lost, doubled or moved, and only the last window can be short. */
  lemma {:induction false} WindowsCover(rows: seq<Row>, size: nat)
    requires size > 0
    ensures Join(Windows(rows, size)) == rows && Sized(Windows(rows, size), size)
    decreases |rows|
  {
    if rows == [] {
    } else if |rows| <= size {
      JoinOne(rows);
    } else {
      var rest := rows[size..];
      WindowsCover(rest, size);
      JoinConcat([rows[..size]], Windows(rest, size));
      JoinOne(rows[..size]);
    }
  }

  /** What inference on each window gives, in order, put together. */
  ghost function InferEach(infer: seq<Row> -> Result<seq<Row>>, windows: seq<seq<Row>>): Result<seq<Row>> {
    if windows == [] then Ok([])
    else Append(infer(windows[0]), InferEach(infer, windows[1..]))
  }

  /** A service that handles every row by itself: cutting a batch in two makes no difference. */
  ghost predicate Rowwise(infer: seq<Row> -> Result<seq<Row>>) {
    forall a, b :: a != [] && b != [] ==> infer(a + b) == Append(infer(a), infer(b))
  }

  /** Inference window by window is inference on the whole dataset, for every dataset and every size. */
  ghost predicate SlicingIsInvisible(infer: seq<Row> -> Result<seq<Row>>) {
    forall rows, size: nat :: rows != [] && size > 0 ==> InferEach(infer, Windows(rows, size)) == infer(rows)
  }

  lemma {:induction false} RowwiseSlices(infer: seq<Row> -> Result<seq<Row>>, rows: seq<Row>, size: nat)
    requires Rowwise(infer) && rows != [] && size > 0
    ensures InferEach(infer, Windows(rows, size)) == infer(rows)
    decreases |rows|
  {
    if |rows| <= size {
      AppendNothing(infer(rows));
    } else {
      RowwiseSlices(infer, rows[size..], size);
      assert rows == rows[..size] + rows[size..];
    }
  }

  lemma {:induction false} AppendNothing(r: Result<seq<Row>>)
    ensures Append(r, Ok([])) == r
  {
    if r.Ok? { assert r.value + [] == r.value; }
  }

  /** A batch cut in two: the windows of the first length are the first part and the windows of the second. */
  lemma {:induction false} CutInTwo(infer: seq<Row> -> Result<seq<Row>>, a: seq<Row>, b: seq<Row>)
    requires SlicingIsInvisible(infer) && a != [] && b != []
    ensures infer(a + b) == Append(infer(a), infer(b))
  {
    var rows, size := a + b, |a|;
    assert rows[..size] == a && rows[size..] == b;
    assert Windows(rows, size) == [a] + Windows(b, size);
    assert ([a] + Windows(b, size))[1..] == Windows(b, size);
    assert InferEach(infer, Windows(rows, size)) == infer(rows) && InferEach(infer, Windows(b, size)) == infer(b);
  }

  /** Slicing is invisible exactly for the services that handle every row by itself. */
  lemma {:induction false} InvisibleIff(infer: seq<Row> -> Result<seq<Row>>)
    ensures SlicingIsInvisible(infer) <==> Rowwise(infer)
  {
    if Rowwise(infer) {
      forall rows, size: nat | rows != [] && size > 0 ensures InferEach(infer, Windows(rows, size)) == infer(rows) {
        RowwiseSlices(infer, rows, size);
      }
    }
    if SlicingIsInvisible(infer) {
      forall a, b | a != [] && b != [] ensures infer(a + b) == Append(infer(a), infer(b)) { CutInTwo(infer, a, b); }
    }
  }

  /** The loop sends the first window of what is left and goes on behind it. */
  lemma {:induction false} NextWindow(infer: seq<Row> -> Result<seq<Row>>, rest: seq<Row>, size: nat, results: seq<seq<Row>>)
    requires rest != [] && size > 0
    ensures
      var k := Min(size, |rest|);
      var before := Append(Ok(Join(results)), InferEach(infer, Windows(rest, size)));
      match infer(rest[..k])
      case Raised => before == Raised
      case Ok(result) => before == Append(Ok(Join(results + [result])), InferEach(infer, Windows(rest[k..], size)))
  {
    var k := Min(size, |rest|);
    assert |rest| <= size ==> rest[..k] == rest && rest[k..] == [];
    var one, others := infer(rest[..k]), InferEach(infer, Windows(rest[k..], size));
    assert InferEach(infer, Windows(rest, size)) == Append(one, others);
    if one.Ok? {
      JoinMore(results, one.value);
      if others.Ok? { assert (Join(results) + one.value) + others.value == Join(results) + (one.value + others.value); }
    }
  }

  lemma {:induction false} NoWindows(infer: seq<Row> -> Result<seq<Row>>, size: nat)
    requires size > 0
    ensures InferEach(infer, Windows([], size)) == Ok([])
  {}

  lemma {:induction false} NothingYet(all: Result<seq<Row>>)
    ensures all == Append(Ok(Join<Row>([])), all)
  {
    if all.Ok? { assert [] + all.value == all.value; }
  }

  lemma {:induction false} AllInferred(rows: seq<Row>)
    ensures Append(Ok(rows), Ok([])) == Ok(rows)
  {
    assert rows + [] == rows;
  }

  lemma {:induction false} WindowTaken(rows: seq<Row>, i: nat, size: nat)
    requires i < |rows| && size > 0
    ensures TakeSlice(rows, i, Min(i + size - 1, |rows| - 1)) == Ok(rows[i..][..Min(size, |rows| - i)])
  {
    assert rows[i..Min(i + size - 1, |rows| - 1) + 1] == rows[i..][..Min(size, |rows| - i)];
  }

  lemma {:induction false} RestAfter(rows: seq<Row>, i: nat, size: nat)
    requires i < |rows|
    ensures rows[i..][Min(size, |rows| - i)..] == rows[Min(i + size, |rows|)..]
  {
    assert i + Min(size, |rows| - i) == Min(i + size, |rows|);
  }

  /** A dataset without rows has no first slice, which raises; otherwise every window is sent once, in order. */
  method BatchOnServiceInSliceMode(infer: seq<Row> -> Result<seq<Row>>, rows: seq<Row>, sliceSize: int)
      returns (r: Result<seq<Row>>)
    ensures sliceSize <= 0 ==> r == infer(rows)
    ensures sliceSize > 0 && rows == [] ==> r == Raised
    ensures sliceSize > 0 && rows != [] ==> r == InferEach(infer, Windows(rows, sliceSize))
  {
    hide InferEach, Windows, Join, TakeSlice;
    if sliceSize <= 0 { return infer(rows); }
    ghost var all := InferEach(infer, Windows(rows, sliceSize));
    ghost var rest := rows;
    var results: seq<seq<Row>> := [];
    NothingYet(all);
    var i := 0;
    while i < |rows|
      invariant 0 <= i && rest == rows[Min(i, |rows|)..]
      invariant results == [] <==> i == 0
      invariant i == 0 || rows != []
      invariant all == Append(Ok(Join(results)), InferEach(infer, Windows(rest, sliceSize)))
    {
      NextWindow(infer, rest, sliceSize, results);
      WindowTaken(rows, i, sliceSize);
      RestAfter(rows, i, sliceSize);
      var end := Min(i + sliceSize - 1, |rows| - 1);
      var window := TakeSlice(rows, i, end);
      assert rest == rows[i..] && window.value == rest[..Min(sliceSize, |rest|)];
      var result := infer(window.value);
      if result.Raised? { return Raised; }
      results := results + [result.value];
      i := i + sliceSize;
      rest := rest[Min(sliceSize, |rest|)..];
    }
    if results == [] { return Raised; }
    NoWindows(infer, sliceSize);
    AllInferred(Join(results));
    assert rest == [];
    r := Ok(Join(results));
  }
}
