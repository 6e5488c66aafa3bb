/**
 Phrase templates: literals with holes.  A template is compiled from a text with `{{name}}`
 tokens, and matched against a phrase by filling the holes from left to right, each with as
 little as possible.  Texts are sequences of UTF-16 code units, as the program sees them.
 */
module PhraseTemplates {
  import opened Common

  type Unit = u: int | 0 <= u < 0x10000

  type Text = seq<Unit>

  // ---------------------------------------------------------------- matching

  /** What `.` stands for: anything but a line terminator. */
  predicate Dot(u: Unit) { u != 0x0A && u != 0x0D && u != 0x2028 && u != 0x2029 }

  /** At least one unit, and no line terminator. */
  predicate Capture(c: Text) { c != [] && 0x0A !in c && 0x0D !in c && 0x2028 !in c && 0x2029 !in c }

  /** Literals and captures in turn. */
  function Weave(literals: seq<Text>, captures: seq<Text>): Text
    requires |literals| == |captures| + 1
  {
    if captures == [] then literals[0] else literals[0] + (captures[0] + Weave(literals[1..], captures[1..]))
  }

  /** The phrase is the literals with these captures between them. */
  ghost predicate Splits(literals: seq<Text>, captures: seq<Text>, phrase: Text) {
    && |literals| == |captures| + 1
    && (forall i :: 0 <= i < |captures| ==> Capture(captures[i]))
    && Weave(literals, captures) == phrase
  }

  /** `^L0(.+?)L1 ... Ln$`: the captures the expression engine finds. */
  function Match(literals: seq<Text>, phrase: Text): Option<seq<Text>>
    requires literals != []
    decreases |literals|, 0
  {
    if !(literals[0] <= phrase) then None
    else
      var rest := phrase[|literals[0]|..];
      if |literals| > 1 then Grow(literals[1..], rest, 1)
      else if rest == [] then Some([]) else None
  }

  /** The lazy capture at the front of `rest` takes `k` units, or more if it must. */
  function Grow(literals: seq<Text>, rest: Text, k: nat): Option<seq<Text>>
    requires literals != [] && 0 < k <= |rest| + 1
    decreases |literals|, |rest| + 2 - k
  {
    if k > |rest| || !Dot(rest[k - 1]) then None
    else
      match Match(literals, rest[k..])
      case Some(captures) => Some([rest[..k]] + captures)
      case None => Grow(literals, rest, k + 1)
  }

  /** The captures are, from left to right, no longer: shorter at the first difference. */
  predicate NoLonger(a: seq<Text>, b: seq<Text>)
    requires |a| == |b|
  {
    a == [] || |a[0]| < |b[0]| || (|a[0]| == |b[0]| && NoLonger(a[1..], b[1..]))
  }

  lemma WeaveHead(literals: seq<Text>, captures: seq<Text>)
    requires |literals| == |captures| + 1 && captures != []
    ensures var phrase := Weave(literals, captures);
            && literals[0] <= phrase
            && captures[0] <= phrase[|literals[0]|..]
            && phrase[|literals[0]|..][|captures[0]|..] == Weave(literals[1..], captures[1..])
            && phrase[|literals[0]|..][..|captures[0]|] == captures[0]
  {
    var phrase, tail := Weave(literals, captures), Weave(literals[1..], captures[1..]);
    assert phrase[|literals[0]|..] == captures[0] + tail;
  }

  lemma SplitsCons(literals: seq<Text>, head: Text, capture: Text, captures: seq<Text>, phrase: Text, rest: Text)
    requires Splits(literals, captures, rest) && Capture(capture)
    requires phrase == head + (capture + rest)
    ensures Splits([head] + literals, [capture] + captures, phrase)
  {
    var ls, cs := [head] + literals, [capture] + captures;
    assert ls[1..] == literals && cs[1..] == captures;
  }

  lemma SplitsTail(literals: seq<Text>, captures: seq<Text>, phrase: Text)
    requires Splits(literals, captures, phrase) && captures != []
    ensures Splits(literals[1..], captures[1..], Weave(literals[1..], captures[1..]))
  {
  }

  /** A match splits the phrase. */
  lemma {:induction false} MatchSplits(literals: seq<Text>, phrase: Text)
    requires literals != []
    ensures Match(literals, phrase).Some? ==> Splits(literals, Match(literals, phrase).value, phrase)
    decreases |literals|, 0
  {
    if literals[0] <= phrase {
      var rest := phrase[|literals[0]|..];
      assert phrase == literals[0] + rest;
      if |literals| > 1 {
        GrowSplits(literals[1..], rest, 1, literals[0], phrase);
        assert [literals[0]] + literals[1..] == literals;
      }
    }
  }

  lemma {:induction false} GrowSplits(literals: seq<Text>, rest: Text, k: nat, head: Text, phrase: Text)
    requires literals != [] && 0 < k <= |rest| + 1 && phrase == head + rest
    requires forall i :: 0 <= i < k - 1 ==> Dot(rest[i])
    ensures Grow(literals, rest, k).Some? ==> Splits([head] + literals, Grow(literals, rest, k).value, phrase)
    decreases |literals|, |rest| + 2 - k
  {
    if k <= |rest| && Dot(rest[k - 1]) {
      MatchSplits(literals, rest[k..]);
      if Match(literals, rest[k..]).Some? {
        assert rest == rest[..k] + rest[k..];
        SplitsCons(literals, head, rest[..k], Match(literals, rest[k..]).value, phrase, rest[k..]);
      } else {
        GrowSplits(literals, rest, k + 1, head, phrase);
      }
    }
  }

  /** Whatever splits the phrase, there is a match, and it is no longer. */
  lemma {:induction false} SplitMatches(literals: seq<Text>, captures: seq<Text>, phrase: Text)
    requires Splits(literals, captures, phrase)
    ensures Match(literals, phrase).Some?
    ensures |Match(literals, phrase).value| == |captures| && NoLonger(Match(literals, phrase).value, captures)
    decreases |literals|, 0
  {
    if captures == [] {
      assert phrase[|literals[0]|..] == [];
    } else {
      WeaveHead(literals, captures);
      SplitsTail(literals, captures, phrase);
      SplitGrows(literals[1..], phrase[|literals[0]|..], 1, captures);
    }
  }

  lemma {:induction false} SplitGrows(literals: seq<Text>, rest: Text, k: nat, captures: seq<Text>)
    requires captures != [] && literals != [] && Capture(captures[0]) && 0 < k <= |captures[0]| <= |rest|
    requires rest[..|captures[0]|] == captures[0]
    requires Splits(literals, captures[1..], rest[|captures[0]|..])
    ensures var r := Grow(literals, rest, k); r.Some? && |r.value| == |captures| && NoLonger(r.value, captures)
    decreases |literals|, |rest| + 2 - k
  {
    assert rest[k - 1] == captures[0][k - 1];
    var m := Match(literals, rest[k..]);
    if k == |captures[0]| {
      SplitMatches(literals, captures[1..], rest[k..]);
      assert ([rest[..k]] + m.value)[1..] == m.value;
    } else if m.Some? {
      MatchSplits(literals, rest[k..]);
    } else {
      SplitGrows(literals, rest, k + 1, captures);
    }
  }

  lemma {:induction false} SameLengthsSameCaptures(literals: seq<Text>, a: seq<Text>, b: seq<Text>, phrase: Text)
    requires Splits(literals, a, phrase) && Splits(literals, b, phrase) && NoLonger(a, b) && NoLonger(b, a)
    ensures a == b
    decreases |literals|
  {
    if a != [] {
      WeaveHead(literals, a);
      WeaveHead(literals, b);
      SplitsTail(literals, a, phrase);
      SplitsTail(literals, b, phrase);
      SameLengthsSameCaptures(literals[1..], a[1..], b[1..], Weave(literals[1..], a[1..]));
      assert a == [a[0]] + a[1..] && b == [b[0]] + b[1..];
    }
  }

  /** The matcher succeeds exactly on the phrases the template splits, and finds the split with
      the lexicographically shortest captures. */
  lemma MatchIsShortestSplit(literals: seq<Text>, captures: seq<Text>, phrase: Text)
    requires literals != []
    ensures Match(literals, phrase) == Some(captures)
            <==> Splits(literals, captures, phrase)
                 && forall others :: Splits(literals, others, phrase) ==> NoLonger(captures, others)
  {
    var m := Match(literals, phrase);
    MatchSplits(literals, phrase);
    forall others | Splits(literals, others, phrase)
      ensures m.Some? && |m.value| == |others| && NoLonger(m.value, others)
    {
      SplitMatches(literals, others, phrase);
    }
    if Splits(literals, captures, phrase)
        && forall others :: Splits(literals, others, phrase) ==> NoLonger(captures, others) {
      SameLengthsSameCaptures(literals, captures, m.value, phrase);
    }
  }

  lemma MatchesIffSplit(literals: seq<Text>, phrase: Text)
    requires literals != []
    ensures Match(literals, phrase).Some? <==> exists captures :: Splits(literals, captures, phrase)
  {
    MatchSplits(literals, phrase);
    if exists captures :: Splits(literals, captures, phrase) {
      var captures :| Splits(literals, captures, phrase);
      SplitMatches(literals, captures, phrase);
    }
  }

  // ---------------------------------------------------------------- what a match implies

  predicate Includes(phrase: Text, part: Text) {
    exists i :: 0 <= i <= |phrase| - |part| && Occurs(phrase, part, i)
  }

  predicate Occurs(phrase: Text, part: Text, i: nat)
    requires i + |part| <= |phrase|
  {
    phrase[i..i + |part|] == part
  }

  function Total(literals: seq<Text>): nat {
    if literals == [] then 0 else |literals[0]| + Total(literals[1..])
  }

  /** A phrase holds every literal and is long enough for the holes as well. */
  lemma {:induction false} SplitHolds(literals: seq<Text>, captures: seq<Text>, phrase: Text, literal: Text)
    requires Splits(literals, captures, phrase)
    ensures |phrase| >= Total(literals) + |captures|
    ensures literal in literals ==> Includes(phrase, literal)
    decreases |literals|
  {
    if captures == [] {
      assert Total(literals[1..]) == 0;
      assert Occurs(phrase, literals[0], 0);
    } else {
      WeaveHead(literals, captures);
      SplitsTail(literals, captures, phrase);
      var tail := Weave(literals[1..], captures[1..]);
      SplitHolds(literals[1..], captures[1..], tail, literal);
      assert Occurs(phrase, literals[0], 0);
      if literal in literals[1..] {
        var i :| 0 <= i <= |tail| - |literal| && Occurs(tail, literal, i);
        var at := |literals[0]| + |captures[0]|;
        assert phrase[at..] == tail;
        assert phrase[at + i..at + i + |literal|] == tail[i..i + |literal|];
        assert Occurs(phrase, literal, at + i);
      }
      assert literals == [literals[0]] + literals[1..];
    }
  }
}
