/**
 What a lookup answers, in terms of the texts the index was built from.
 */
module PhraseAnswers {
  import opened Common
  import opened PhraseTemplates
  import opened PhraseCompiler
  import opened PhraseIndex

  // ---------------------------------------------------------------- phrases

  /** The source says this phrase, in one language or the other. */
  predicate Says(s: Source, phrase: Text) { Trim(s.chinese) == phrase || Trim(s.english) == phrase }

  /** The first of the sources that says it. */
  predicate SaysFirst(sources: seq<Source>, i: nat, phrase: Text) {
    i < |sources| && Says(sources[i], phrase) && forall j :: 0 <= j < i ==> !Says(sources[j], phrase)
  }

  /** A phrase stands for the key of the first source that says it; the empty phrase for none. */
  lemma {:induction false} PhraseStandsForTheFirst(sources: seq<Source>, phrase: Text)
    ensures phrase in KeysOf(sources) <==> phrase != [] && exists i: nat :: SaysFirst(sources, i, phrase)
    ensures forall i: nat :: phrase != [] && SaysFirst(sources, i, phrase) ==> KeysOf(sources)[phrase] == sources[i].key
  {
    hide Trim;
    if sources != [] {
      var n := |sources| - 1;
      var before, s := sources[..n], sources[n];
      PhraseStandsForTheFirst(before, phrase);
      forall i: nat | i < n ensures SaysFirst(before, i, phrase) <==> SaysFirst(sources, i, phrase) { }
      if phrase != [] && phrase !in KeysOf(before) {
        NoneBefore(before, phrase);
        if Says(s, phrase) { assert SaysFirst(sources, n, phrase); }
      }
    }
  }

  lemma {:induction false} NoneBefore(sources: seq<Source>, phrase: Text)
    requires forall i: nat :: !SaysFirst(sources, i, phrase)
    ensures forall j :: 0 <= j < |sources| ==> !Says(sources[j], phrase)
  {
    hide Says;
    if sources != [] {
      var n := |sources| - 1;
      forall i: nat | i < n ensures !SaysFirst(sources[..n], i, phrase) {
        assert SaysFirst(sources[..n], i, phrase) ==> SaysFirst(sources, i, phrase);
      }
      NoneBefore(sources[..n], phrase);
      forall j | 0 <= j < n ensures !Says(sources[j], phrase) { assert sources[..n][j] == sources[j]; }
      assert !SaysFirst(sources, n, phrase);
    }
  }

  // ---------------------------------------------------------------- templates

  /** The templates come source by source, the Chinese text of a source before the English. */
  lemma {:induction false} CompiledInOrder(a: seq<Source>, b: seq<Source>)
    ensures Compiled(a + b) == Compiled(a) + Compiled(b)
    ensures forall s :: Compiled([s]) == Listed(Compile(s.chinese, s.key)) + Listed(Compile(s.english, s.key))
  {
    hide Compile, Listed;
    forall s ensures Compiled([s]) == Listed(Compile(s.chinese, s.key)) + Listed(Compile(s.english, s.key)) {
      assert [s][..0] == [];
    }
    if b == [] {
      assert a + b == a;
    } else {
      var n := |b| - 1;
      assert (a + b)[..|a| + n] == a + b[..n] && (a + b)[|a| + n] == b[n];
      CompiledInOrder(a, b[..n]);
    }
  }

  const BACKSLASH: Unit := 0x5C

  /** A literal as it is written in the source of an expression. */
  function Escaped(s: Text): Text {
    if s == [] then []
    else
      var u := s[0];
      (if u == 0x0A then [BACKSLASH, 0x6E]
       else if u == 0x0D then [BACKSLASH, 0x72]
       else if u == 0x2028 || u == 0x2029 then [BACKSLASH, 0x75, 0x32, 0x30, 0x32, if u == 0x2028 then 0x38 else 0x39]
       else if Special(u) || u == 0x2F then [BACKSLASH, u]
       else [u]) + Escaped(s[1..])
  }

  /** Dollar sign, parentheses, asterisk, plus, full stop, question mark, brackets, backslash,
      caret, braces and vertical bar. */
  predicate Special(u: Unit) {
    u == 0x24 || 0x28 <= u <= 0x2B || u == 0x2E || u == 0x3F || (0x5B <= u <= 0x5E) || (0x7B <= u <= 0x7D)
  }

  const CAPTURE: Text := [0x28, 0x2E, 0x2B, 0x3F, 0x29]

  /** The source of the expression, `^` in front and `$` behind. */
  function Expression(literals: seq<Text>): Text
    requires literals != []
  {
    [0x5E] + Between(literals) + [0x24]
  }

  function Between(literals: seq<Text>): Text
    requires literals != []
  {
    if |literals| == 1 then Escaped(literals[0]) else Escaped(literals[0]) + CAPTURE + Between(literals[1..])
  }

  lemma {:induction false} EscapedLengthMeasures(s: Text)
    ensures |Escaped(s)| == EscapedLength(s)
  {
    if s != [] { EscapedLengthMeasures(s[1..]); }
  }

  lemma {:induction false} BetweenMeasures(literals: seq<Text>)
    requires literals != []
    ensures |Between(literals)| == SourceLength(literals) - 5
  {
    EscapedLengthMeasures(literals[0]);
    if |literals| > 1 { BetweenMeasures(literals[1..]); } else { assert SourceLength(literals[1..]) == 0; }
  }

  /** Templates are compared by the lengths of their expressions, of which the model leaves out
      what all have in common. */
  lemma SourceLengthMeasures(a: seq<Text>, b: seq<Text>)
    requires a != [] && b != []
    ensures SourceLength(a) > SourceLength(b) <==> |Expression(a)| > |Expression(b)|
  {
    BetweenMeasures(a);
    BetweenMeasures(b);
  }

  /** The templates are in the order of their literal lengths, and where these are equal of their
      expressions' lengths, the greater first. */
  lemma RankedByLength(templates: seq<Template>)
    ensures var r := Ranked(templates);
            && multiset(r) == multiset(templates)
            && forall i, j :: 0 <= i < j < |r| ==>
                 || r[i].literalLength > r[j].literalLength
                 || (r[i].literalLength == r[j].literalLength && r[i].sourceLength >= r[j].sourceLength)
  {
    RankedInRank(templates);
  }

  // ---------------------------------------------------------------- answers

  /** The first template by rank that matches, and how. */
  predicate FirstMatch(templates: seq<Template>, phrase: Text, rank: nat, captures: seq<Text>) {
    && rank < |templates| && Try(templates[rank], phrase) == Some(captures)
    && forall r :: 0 <= r < rank ==> Try(templates[r], phrase).None?
  }

  lemma {:induction false} ScanIsFirst(templates: seq<Template>, rank: nat, phrase: Text)
    requires rank <= |templates| && forall r :: 0 <= r < rank ==> Try(templates[r], phrase).None?
    ensures match Scan(templates, rank, phrase)
            case Key(_) => false
            case Found(r, captures) => FirstMatch(templates, phrase, r, captures)
            case Miss => forall r :: 0 <= r < |templates| ==> Try(templates[r], phrase).None?
    decreases |templates| - rank
  {
    hide Try;
    if rank < |templates| && Try(templates[rank], phrase).None? { ScanIsFirst(templates, rank + 1, phrase); }
  }

  /** A phrase that a source says is answered with the key of the first one; any other with the
      first template by rank that matches it and its captures; else it is a miss. */
  lemma AnswerIsTheFirst(sources: seq<Source>, phrase: Text)
    ensures var templates := Ranked(Compiled(sources));
            match Answer(KeysOf(sources), templates, phrase)
            case Key(key) => phrase != [] && exists i: nat :: SaysFirst(sources, i, phrase) && sources[i].key == key
            case Found(r, captures) =>
              && (phrase == [] || forall s :: s in sources ==> !Says(s, phrase))
              && FirstMatch(templates, phrase, r, captures)
            case Miss =>
              && (phrase == [] || forall s :: s in sources ==> !Says(s, phrase))
              && forall t :: t in templates ==> Try(t, phrase).None?
  {
    hide Scan, KeysOf, Compiled, Ranked, Try, Says;
    PhraseStandsForTheFirst(sources, phrase);
    if phrase !in KeysOf(sources) {
      ScanIsFirst(Ranked(Compiled(sources)), 0, phrase);
      if phrase != [] { NoneBefore(sources, phrase); }
    }
  }
}
