/** The local token estimate: Han characters at five eighths of a token, every other word at one. */
module Tokens {
  import opened Numbers

  datatype Kind = Han | Blank | Letter

  /** The character classes as the tokenizer asks for them: Han first, then punctuation or space. */
  type Classifier = char -> Kind

  /** A plain space is blank whatever else is. */
  ghost predicate Sane(kind: Classifier) { kind(' ') == Blank }

  function HanCount(kind: Classifier, text: string): nat {
    if text == "" then 0
    else HanCount(kind, text[..|text| - 1]) + if kind(text[|text| - 1]) == Han then 1 else 0
  }

  /** The text with everything blanked out but the characters of words. */
  function Masked(kind: Classifier, text: string): string {
    seq(|text|, i requires 0 <= i < |text| => if kind(text[i]) == Letter then text[i] else ' ')
  }

  /** The pieces between spaces, empty ones included. */
  function Pieces(s: string): (pieces: seq<string>)
    ensures pieces != []
  {
    if s == "" then [""]
    else
      var n := |s| - 1;
      var before := Pieces(s[..n]);
      var k := |before| - 1;
      if s[n] == ' ' then before + [""] else before[..k] + [before[k] + [s[n]]]
  }

  function NonEmptyCount(pieces: seq<string>): nat {
    if pieces == [] then 0
    else NonEmptyCount(pieces[..|pieces| - 1]) + if pieces[|pieces| - 1] != "" then 1 else 0
  }

  function WordCount(kind: Classifier, text: string): nat { NonEmptyCount(Pieces(Masked(kind, text))) }

  /** int(han * 0.625 + words * 1.0) */
  function Estimate(kind: Classifier, text: string): nat {
    5 * HanCount(kind, text) / 8 + WordCount(kind, text)
  }

  /** Counts with weights, rounded toward zero. */
  function Weighed(hanCount: nat, wordCount: nat, hanTokens: real, wordTokens: real): int {
    Truncate(hanCount as real * hanTokens + wordCount as real * wordTokens)
  }

  /** The same with weights of the caller's choice. */
  function WeightedEstimate(kind: Classifier, text: string, hanTokens: real, wordTokens: real): int {
    Weighed(HanCount(kind, text), WordCount(kind, text), hanTokens, wordTokens)
  }

  lemma {:induction false} DefaultWeights(kind: Classifier, text: string)
    ensures WeightedEstimate(kind, text, 0.625, 1.0) == Estimate(kind, text)
  {
    var h, w := HanCount(kind, text), WordCount(kind, text);
    var q, r := 5 * h / 8, 5 * h % 8;
    assert h as real * 0.625 + w as real * 1.0 == (q + w) as real + r as real / 8.0;
  }

  // ---- Han characters ----

  ghost function HanPositions(kind: Classifier, text: string): set<nat> {
    set i: nat | i < |text| && kind(text[i]) == Han
  }

  /** Exactly the characters of the class Han are counted, each as often as it occurs. */
  lemma {:induction false} HanArePositions(kind: Classifier, text: string)
    ensures HanCount(kind, text) == |HanPositions(kind, text)|
  {
    if text != "" {
      var n := |text| - 1;
      HanArePositions(kind, text[..n]);
      assert forall i: nat :: i < n ==> text[..n][i] == text[i];
      assert HanPositions(kind, text) == HanPositions(kind, text[..n]) + if kind(text[n]) == Han then {n} else {};
    }
  }

  // ---- words are maximal runs ----

  /** A word starts here. */
  predicate Starts(kind: Classifier, text: string, i: nat)
    requires i < |text|
  {
    kind(text[i]) == Letter && (i == 0 || kind(text[i - 1]) != Letter)
  }

  ghost function WordStarts(kind: Classifier, text: string): set<nat> {
    set i: nat | i < |text| && Starts(kind, text, i)
  }

  lemma {:induction false} CountMore(pieces: seq<string>, p: string)
    ensures NonEmptyCount(pieces + [p]) == NonEmptyCount(pieces) + if p != "" then 1 else 0
  {
    assert (pieces + [p])[..|pieces|] == pieces;
  }

  /** The last piece is empty exactly at the beginning and after a blank. */
  lemma {:induction false} LastPiece(s: string)
    ensures Pieces(s)[|Pieces(s)| - 1] == "" <==> s == "" || s[|s| - 1] == ' '
  {}

  lemma {:induction false} PiecesCountMore(s: string, c: char)
    ensures NonEmptyCount(Pieces(s + [c])) ==
      NonEmptyCount(Pieces(s)) + if c != ' ' && (s == "" || s[|s| - 1] == ' ') then 1 else 0
  {
    assert (s + [c])[..|s|] == s;
    var before := Pieces(s);
    var k := |before| - 1;
    LastPiece(s);
    assert before == before[..k] + [before[k]];
    CountMore(before[..k], before[k]);
    if c == ' ' {
      CountMore(before, "");
    } else {
      CountMore(before[..k], before[k] + [c]);
    }
  }

  lemma {:induction false} StartsMore(kind: Classifier, text: string, c: char)
    ensures WordStarts(kind, text + [c]) == WordStarts(kind, text) +
      if kind(c) == Letter && (text == "" || kind(text[|text| - 1]) != Letter) then {|text|} else {}
  {
    var all := text + [c];
    forall i: nat | i < |text| ensures Starts(kind, all, i) <==> Starts(kind, text, i) {}
  }

  lemma {:induction false} WordsMore(kind: Classifier, text: string, c: char)
    requires Sane(kind)
    ensures WordCount(kind, text + [c]) ==
      WordCount(kind, text) + if kind(c) == Letter && (text == "" || kind(text[|text| - 1]) != Letter) then 1 else 0
  {
    hide NonEmptyCount, Pieces;
    var m := if kind(c) == Letter then c else ' ';
    assert Masked(kind, text + [c]) == Masked(kind, text) + [m];
    PiecesCountMore(Masked(kind, text), m);
  }

  lemma {:induction false} NoWords(kind: Classifier)
    ensures WordCount(kind, "") == 0 && WordStarts(kind, "") == {}
  {
    CountMore([], "");
    assert [] + [""] == [""];
  }

  /** Blanking out and splitting counts the maximal runs of word characters. */
  lemma {:induction false} WordsAreRuns(kind: Classifier, text: string)
    requires Sane(kind)
    ensures WordCount(kind, text) == |WordStarts(kind, text)|
  {
    NoWords(kind);
    if text != "" {
      hide WordCount;
      var front, c := text[..|text| - 1], text[|text| - 1];
      assert text == front + [c];
      WordsAreRuns(kind, front);
      StartsMore(kind, front, c);
      WordsMore(kind, front, c);
    }
  }

  // ---- estimates of a concatenation ----

  lemma {:induction false} HanConcat(kind: Classifier, a: string, b: string)
    ensures HanCount(kind, a + b) == HanCount(kind, a) + HanCount(kind, b)
  {
    if b == "" {
      assert a + b == a;
    } else {
      assert (a + b)[..|a + b| - 1] == a + b[..|b| - 1];
      HanConcat(kind, a, b[..|b| - 1]);
    }
  }

  /** A word runs across the joint. */
  predicate Merges(kind: Classifier, a: string, b: string) {
    a != "" && b != "" && kind(a[|a| - 1]) == Letter && kind(b[0]) == Letter
  }

  lemma {:induction false} WordsConcat(kind: Classifier, a: string, b: string)
    requires Sane(kind)
    ensures WordCount(kind, a + b) == WordCount(kind, a) + WordCount(kind, b) - if Merges(kind, a, b) then 1 else 0
  {
    if b == "" {
      assert a + b == a;
      NoWords(kind);
    } else {
      hide WordCount;
      var front, c := b[..|b| - 1], b[|b| - 1];
      assert b == front + [c] && a + b == (a + front) + [c];
      WordsConcat(kind, a, front);
      WordsMore(kind, front, c);
      WordsMore(kind, a + front, c);
    }
  }

  /**
   * The estimate of two texts written together is the sum of their estimates, plus one when the
   * fractions of their Han characters make a whole, minus one when a word runs across the joint.
   */
  lemma {:induction false} EstimateConcat(kind: Classifier, a: string, b: string)
    requires Sane(kind)
    ensures Estimate(kind, a + b) == Estimate(kind, a) + Estimate(kind, b)
      + (if 5 * HanCount(kind, a) % 8 + 5 * HanCount(kind, b) % 8 >= 8 then 1 else 0)
      - (if Merges(kind, a, b) then 1 else 0)
    ensures -1 <= Estimate(kind, a + b) - Estimate(kind, a) - Estimate(kind, b) <= 1
  {
    HanConcat(kind, a, b);
    WordsConcat(kind, a, b);
  }

  // ---- the loop ----

  lemma {:induction false} ScanMore(kind: Classifier, text: string, i: nat)
    requires i < |text|
    ensures HanCount(kind, text[..i + 1]) == HanCount(kind, text[..i]) + if kind(text[i]) == Han then 1 else 0
    ensures Masked(kind, text[..i + 1]) == Masked(kind, text[..i]) + [if kind(text[i]) == Letter then text[i] else ' ']
  {
    assert text[..i + 1][..i] == text[..i];
  }

  lemma {:induction false} ScanNothing(kind: Classifier)
    ensures HanCount(kind, "") == 0 && Masked(kind, "") == ""
  {}

  /** Count the Han characters and blank out all that is not part of a word. */
  method Scan(kind: Classifier, text: string) returns (hanCount: nat, textOnlyWord: string)
    ensures hanCount == HanCount(kind, text) && textOnlyWord == Masked(kind, text)
  {
    hide HanCount, Masked;
    hanCount, textOnlyWord := 0, "";
    ScanNothing(kind);
    for i := 0 to |text|
      invariant hanCount == HanCount(kind, text[..i]) && textOnlyWord == Masked(kind, text[..i])
    {
      ScanMore(kind, text, i);
      var ch := text[i];
      if kind(ch) == Han {
        hanCount := hanCount + 1;
        textOnlyWord := textOnlyWord + " ";
      } else if kind(ch) == Blank {
        textOnlyWord := textOnlyWord + " ";
      } else {
        textOnlyWord := textOnlyWord + [ch];
      }
    }
    assert text[..|text|] == text;
  }

  method CountNonEmpty(pieces: seq<string>) returns (count: nat)
    ensures count == NonEmptyCount(pieces)
  {
    count := 0;
    for i := 0 to |pieces|
      invariant count == NonEmptyCount(pieces[..i])
    {
      CountMore(pieces[..i], pieces[i]);
      assert pieces[..i + 1] == pieces[..i] + [pieces[i]];
      if pieces[i] != "" { count := count + 1; }
    }
    assert pieces[..|pieces|] == pieces;
  }

  method LocalCountTokens(kind: Classifier, text: string, hanTokens: real, wordTokens: real) returns (tokens: int)
    ensures tokens == WeightedEstimate(kind, text, hanTokens, wordTokens)
  {
    hide HanCount, Masked, Pieces, NonEmptyCount, Weighed;
    var hanCount, textOnlyWord := Scan(kind, text);
    var wordCount := CountNonEmpty(Pieces(textOnlyWord));
    tokens := Weighed(hanCount, wordCount, hanTokens, wordTokens);
  }
}
