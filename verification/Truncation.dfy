/** Cutting a chat history to the input limits of a model, newest messages first. */
module Truncation {
  import opened Sequences
  import opened Tokens

  /** Limits in tokens and characters; a limit that is not positive does not apply. */
  datatype Limit = Limit(maxTokens: int, maxChars: int)

  predicate Within(total: nat, limit: int) { limit > 0 ==> total <= limit }

  function TokenSum(kind: Classifier, messages: seq<string>): nat {
    if messages == [] then 0 else Estimate(kind, messages[0]) + TokenSum(kind, messages[1..])
  }

  function CharSum(messages: seq<string>): nat {
    if messages == [] then 0 else |messages[0]| + CharSum(messages[1..])
  }

  /** All characters of all messages are counted. */
  lemma {:induction false} CharsOfAll(messages: seq<string>)
    ensures CharSum(messages) == |Join(messages)|
  {
    if messages != [] {
      CharsOfAll(messages[1..]);
      JoinConcat([messages[0]], messages[1..]);
      JoinOne(messages[0]);
      assert messages == [messages[0]] + messages[1..];
    }
  }

  /** Messages are estimated one by one. */
  lemma {:induction false} TokensOfAll(kind: Classifier, a: seq<string>, m: string, b: seq<string>)
    ensures TokenSum(kind, a + [m] + b) == TokenSum(kind, a) + Estimate(kind, m) + TokenSum(kind, b)
    ensures TokenSum(kind, []) == 0
  {
    if a == [] {
      assert a + [m] + b == [m] + b && ([m] + b)[1..] == b;
    } else {
      TokensOfAll(kind, a[1..], m, b);
      assert (a + [m] + b)[1..] == a[1..] + [m] + b;
    }
  }

  /** These messages stay within both limits. */
  predicate Fits(kind: Classifier, limit: Limit, messages: seq<string>) {
    Within(TokenSum(kind, messages), limit.maxTokens) && Within(CharSum(messages), limit.maxChars)
  }

  /**
   * The cut: everything behind position `from` fits, and either nothing was cut off or the messages
   * from there on, the crossing one included, do not fit any more.
   */
  ghost predicate CutAt(kind: Classifier, limit: Limit, messages: seq<string>, from: nat) {
    && from < |messages|
    && Fits(kind, limit, messages[from + 1..])
    && (from == 0 || !Fits(kind, limit, messages[from..]))
  }

  lemma {:induction false} SumsOfSuffix(kind: Classifier, messages: seq<string>, i: nat, j: nat)
    requires i <= j <= |messages|
    ensures TokenSum(kind, messages[j..]) <= TokenSum(kind, messages[i..])
    ensures CharSum(messages[j..]) <= CharSum(messages[i..])
    decreases j - i
  {
    if i < j {
      assert messages[i..][1..] == messages[i + 1..];
      SumsOfSuffix(kind, messages, i + 1, j);
    }
  }

  /** A limit that is at least as generous. */
  predicate AtLeast(more: Limit, limit: Limit) {
    && (more.maxTokens <= 0 || (limit.maxTokens > 0 && more.maxTokens >= limit.maxTokens))
    && (more.maxChars <= 0 || (limit.maxChars > 0 && more.maxChars >= limit.maxChars))
  }

  /** More generous limits never cut more off; in particular the cut is unique. */
  lemma {:induction false} GenerousKeepsMore(kind: Classifier, limit: Limit, more: Limit, messages: seq<string>, i: nat, j: nat)
    requires CutAt(kind, limit, messages, i) && CutAt(kind, more, messages, j) && AtLeast(more, limit)
    ensures j <= i
  {
    if j > i {
      SumsOfSuffix(kind, messages, i + 1, j);
    }
  }

  /** Nothing is cut off exactly if all messages but the oldest one stay within the limits, or meet them. */
  lemma {:induction false} KeptWholeIff(kind: Classifier, limit: Limit, messages: seq<string>, from: nat)
    requires CutAt(kind, limit, messages, from)
    ensures from == 0 <==>
      && (limit.maxTokens > 0 ==> TokenSum(kind, messages[1..]) <= limit.maxTokens)
      && (limit.maxChars > 0 ==> CharSum(messages[1..]) <= limit.maxChars)
  {
    if from > 0 { SumsOfSuffix(kind, messages, 1, from); }
  }

  lemma {:induction false} CutOfSuffix(kind: Classifier, limit: Limit, messages: seq<string>, c: nat, i: nat)
    requires CutAt(kind, limit, messages, c) && i < |messages|
    ensures CutAt(kind, limit, messages[i..], if c < i then 0 else c - i)
  {
    if c < i {
      SumsOfSuffix(kind, messages, c + 1, i + 1);
      assert messages[i..][1..] == messages[i + 1..];
    } else {
      hide Fits;
      assert messages[i..][c - i..] == messages[c..] && messages[i..][c - i + 1..] == messages[c + 1..];
    }
  }

  /**
   * A request is cut again when it is sent again, perhaps to another endpoint: what is left is what
   * the tighter of the two cuts leaves of the original history.
   */
  lemma {:induction false} CutAgain(kind: Classifier, first: Limit, second: Limit, messages: seq<string>, i: nat, j: nat, c: nat)
    requires CutAt(kind, first, messages, i)
    requires CutAt(kind, second, messages[i..], j)
    requires CutAt(kind, second, messages, c)
    ensures i + j == if c < i then i else c
  {
    CutOfSuffix(kind, second, messages, c, i);
    var k := if c < i then 0 else c - i;
    GenerousKeepsMore(kind, second, second, messages[i..], j, k);
    GenerousKeepsMore(kind, second, second, messages[i..], k, j);
  }

  /** Cutting what was cut to the same limits changes nothing. */
  lemma {:induction false} CutTwice(kind: Classifier, limit: Limit, messages: seq<string>, i: nat, j: nat)
    requires CutAt(kind, limit, messages, i) && CutAt(kind, limit, messages[i..], j)
    ensures j == 0
  {
    CutAgain(kind, limit, limit, messages, i, j, i);
  }

  /** The limits of the endpoint, else of the model, else of a model nobody has specified. */
  function LimitFor(byEndpoint: map<string, Limit>, byModel: map<string, Limit>, endpoint: string, model: string): Limit {
    if endpoint in byEndpoint then byEndpoint[endpoint]
    else if model in byModel then byModel[model]
    else if "UNSPECIFIED_MODEL" in byModel then byModel["UNSPECIFIED_MODEL"]
    else Limit(0, 0)
  }

  /** The endpoint goes before the model, and the model before the one nobody has specified. */
  lemma {:induction false} LimitInForce(byEndpoint: map<string, Limit>, byModel: map<string, Limit>, endpoint: string, model: string)
    ensures var limit := LimitFor(byEndpoint, byModel, endpoint, model);
      && (forall l :: (endpoint, l) in byEndpoint.Items ==> limit == l)
      && (forall l :: endpoint !in byEndpoint && (model, l) in byModel.Items ==> limit == l)
      && (forall l :: endpoint !in byEndpoint && model !in byModel && ("UNSPECIFIED_MODEL", l) in byModel.Items ==> limit == l)
      && (endpoint !in byEndpoint && model !in byModel && "UNSPECIFIED_MODEL" !in byModel ==> limit == Limit(0, 0))
  {}

  method ProcessWithInputLimit(kind: Classifier, byEndpoint: map<string, Limit>, byModel: map<string, Limit>,
      endpoint: string, model: string, messages: seq<string>) returns (kept: seq<string>, ghost from: nat)
    ensures from <= |messages| && kept == messages[from..]
    ensures messages != [] && LimitFor(byEndpoint, byModel, endpoint, model) != Limit(0, 0) ==>
      CutAt(kind, LimitFor(byEndpoint, byModel, endpoint, model), messages, from)
    ensures messages == [] || LimitFor(byEndpoint, byModel, endpoint, model) == Limit(0, 0) ==> kept == messages
  {
    if |messages| == 0 { return messages, 0; }
    var limit := LimitFor(byEndpoint, byModel, endpoint, model);
    if limit.maxTokens == 0 && limit.maxChars == 0 { return messages, 0; }
    var totalChars, totalTokens := 0, 0;
    var index := |messages| - 1;
    assert messages[index + 1..] == [];
    while index > 0
      invariant 0 <= index < |messages|
      invariant totalTokens == TokenSum(kind, messages[index + 1..]) && totalChars == CharSum(messages[index + 1..])
      invariant Fits(kind, limit, messages[index + 1..])
    {
      DefaultWeights(kind, messages[index]);
      var tokens := LocalCountTokens(kind, messages[index], 0.625, 1.0);
      totalChars := totalChars + |messages[index]|;
      totalTokens := totalTokens + tokens;
      assert messages[index..][1..] == messages[index + 1..];
      if (limit.maxTokens > 0 && totalTokens > limit.maxTokens) || (limit.maxChars > 0 && totalChars > limit.maxChars) {
        break;
      }
      index := index - 1;
    }
    from := index;
    kept := messages[index..];
  }
}
