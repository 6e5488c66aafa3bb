/**
 What compiling finds, told without the search: every token that stands in a text, and the cut
 of the text at the leftmost ones.
 */
module PhraseTokens {
  import opened Common
  import opened PhraseTemplates
  import opened PhraseCompiler

  // ---------------------------------------------------------------- one token

  /** White space and line terminators as sections 12.2 and 12.3 of the ECMAScript language
      specification list them. */
  lemma SpaceIff(u: Unit)
    ensures Space(u)
            <==> u in {0x09, 0x0A, 0x0B, 0x0C, 0x0D, 0x20, 0xA0, 0x1680, 0x2000, 0x2001, 0x2002, 0x2003, 0x2004, 0x2005,
                       0x2006, 0x2007, 0x2008, 0x2009, 0x200A, 0x2028, 0x2029, 0x202F, 0x205F, 0x3000, 0xFEFF}
  {
  }

  /** The units of a name: letters, digits, underscore, full stop and dash. */
  lemma NameUnitIff(u: Unit)
    ensures NameUnit(u) <==>
            && u < 128
            && var c := u as char;
               'a' <= c <= 'z' || 'A' <= c <= 'Z' || '0' <= c <= '9' || c == '_' || c == '.' || c == '-'
  {
  }

  lemma {:induction false} SpacesEndAt(s: Text, i: nat, e: nat)
    requires i <= e <= |s| && (forall k :: i <= k < e ==> Space(s[k])) && (e == |s| || !Space(s[e]))
    ensures SpacesEnd(s, i) == e
    decreases e - i
  {
    if i < e { SpacesEndAt(s, i + 1, e); }
  }

  lemma {:induction false} NameEndAt(s: Text, i: nat, e: nat)
    requires i <= e <= |s| && (forall k :: i <= k < e ==> NameUnit(s[k])) && (e == |s| || !NameUnit(s[e]))
    ensures NameEnd(s, i) == e
    decreases e - i
  {
    if i < e { NameEndAt(s, i + 1, e); }
  }

  predicate Dashed(t: Token) { t.lead != [] && t.lead[0] == DASH }

  /** Where the pieces of a token that stands in a text are. */
  lemma Pieces(s: Text, i: nat, t: Token)
    requires Stands(s, i, t)
    ensures var a := i + 2 + |t.lead|;
            var b := a + |t.name|;
            var c := b + |t.trail|;
            && c + 2 == i + |TokenText(t)| <= |s|
            && s[i] == OPEN && s[i + 1] == OPEN && s[c] == CLOSE && s[c + 1] == CLOSE
            && s[i + 2..a] == t.lead && s[a..b] == t.name && s[b..c] == t.trail
  {
    var text := TokenText(t);
    var a := 2 + |t.lead|;
    var b := a + |t.name|;
    var c := b + |t.trail|;
    assert text[2..a] == t.lead && text[a..b] == t.name && text[b..c] == t.trail;
    assert text[0] == OPEN && text[1] == OPEN && text[c] == CLOSE && text[c + 1] == CLOSE;
    assert forall k :: 0 <= k < |text| ==> s[i + k] == text[k];
    assert s[i + 2..i + a] == text[2..a] && s[i + a..i + b] == text[a..b] && s[i + b..i + c] == text[b..c];
  }

  /** No unit is of two kinds. */
  lemma Kinds(u: Unit)
    ensures !(Space(u) && NameUnit(u)) && !Space(CLOSE) && !NameUnit(CLOSE) && !Space(DASH)
  {
  }

  /** The search finds the token that stands there, with the dash outside the name or without. */
  lemma BodyFinds(s: Text, i: nat, t: Token)
    requires Stands(s, i, t)
    ensures i + 3 <= |s| && s[i] == OPEN && s[i + 1] == OPEN && (Dashed(t) ==> s[i + 2] == DASH)
    ensures TokenBody(s, i, if Dashed(t) then i + 3 else i + 2) == Some(t)
  {
    hide Space, NameUnit, Stands, TokenText;
    Pieces(s, i, t);
    LeadEnds(s, i, t);
    NameEnds(s, i, t);
    TrailEnds(s, i, t);
  }

  /** The spaces in front of the name, the name and the spaces behind it end where they should. */
  lemma LeadEnds(s: Text, i: nat, t: Token)
    requires Stands(s, i, t)
    ensures i + 3 <= |s| && (Dashed(t) ==> s[i + 2] == DASH) && |t.name| > 0
    ensures SpacesEnd(s, if Dashed(t) then i + 3 else i + 2) == i + 2 + |t.lead|
  {
    hide Space, NameUnit, TokenText;
    Pieces(s, i, t);
    var a := i + 2 + |t.lead|;
    var j := if Dashed(t) then i + 3 else i + 2;
    forall k | j <= k < a ensures Space(s[k]) { assert s[k] == t.lead[k - i - 2]; }
    assert s[a] == t.name[0];
    Kinds(s[a]);
    assert Dashed(t) ==> s[i + 2] == t.lead[0];
    SpacesEndAt(s, j, a);
  }

  lemma NameEnds(s: Text, i: nat, t: Token)
    requires Stands(s, i, t)
    ensures var a := i + 2 + |t.lead|; a < |s| && NameEnd(s, a) == a + |t.name|
  {
    hide Space, NameUnit, TokenText;
    Pieces(s, i, t);
    var a := i + 2 + |t.lead|;
    var b := a + |t.name|;
    forall k | a <= k < b ensures NameUnit(s[k]) { assert s[k] == t.name[k - a]; }
    if t.trail != [] { assert s[b] == t.trail[0]; }
    Kinds(s[b]);
    NameEndAt(s, a, b);
  }

  lemma TrailEnds(s: Text, i: nat, t: Token)
    requires Stands(s, i, t)
    ensures var b := i + 2 + |t.lead| + |t.name|; b < |s| && SpacesEnd(s, b) == b + |t.trail|
  {
    hide Space, NameUnit, TokenText;
    Pieces(s, i, t);
    var b := i + 2 + |t.lead| + |t.name|;
    var c := b + |t.trail|;
    forall k | b <= k < c ensures Space(s[k]) { assert s[k] == t.trail[k - b]; }
    Kinds(s[c]);
    SpacesEndAt(s, b, c);
  }

  /** The token that counts: one with a dash outside its name, if there is such a one. */
  ghost predicate Preferred(s: Text, i: nat, t: Token) {
    Stands(s, i, t) && (Dashed(t) || forall u :: Stands(s, i, u) ==> !Dashed(u))
  }

  /** Two tokens at one place differ in the dash. */
  lemma StandsOnce(s: Text, i: nat, t: Token, u: Token)
    requires Stands(s, i, t) && Stands(s, i, u) && Dashed(t) == Dashed(u)
    ensures t == u
  {
    hide Stands, TokenBody;
    BodyFinds(s, i, t);
    BodyFinds(s, i, u);
  }

  /** A token is found exactly where one stands, and it is the one that counts. */
  lemma TokenAtIff(s: Text, i: nat)
    ensures TokenAt(s, i).Some? <==> exists t :: Stands(s, i, t)
    ensures TokenAt(s, i).Some? ==> Preferred(s, i, TokenAt(s, i).value)
  {
    hide Stands, TokenBody;
    forall t | Stands(s, i, t) ensures TokenAt(s, i).Some? && (Dashed(t) ==> TokenAt(s, i) == Some(t)) {
      BodyFinds(s, i, t);
    }
    if TokenAt(s, i).Some? {
      var t := TokenAt(s, i).value;
      if !Dashed(t) {
        forall u | Stands(s, i, u) ensures !Dashed(u) { BodyFinds(s, i, u); }
      }
    }
  }

  /** Only one token counts at a place. */
  lemma PreferredOnce(s: Text, i: nat, t: Token)
    ensures Preferred(s, i, t) <==> TokenAt(s, i) == Some(t)
  {
    hide Stands, TokenAt;
    TokenAtIff(s, i);
    if Preferred(s, i, t) { StandsOnce(s, i, t, TokenAt(s, i).value); }
  }

  // ---------------------------------------------------------------- the cut of a text

  ghost predicate NoneStand(s: Text, from: nat, to: nat) { forall k, t :: from <= k < to ==> !Stands(s, k, t) }

  /** The literals and tokens of a text from `from` on: each token is the leftmost one that stands
      behind the one before it, and the literals are what is between. */
  ghost predicate Cut(s: Text, from: nat, literals: seq<Text>, tokens: seq<Token>)
    decreases |tokens|
  {
    && from <= |s| && |literals| == |tokens| + 1
    && if tokens == [] then NoneStand(s, from, |s|) && literals[0] == s[from..]
       else exists i: nat :: CutAt(s, from, i, literals[0], tokens[0])
                        && Cut(s, i + |TokenText(tokens[0])|, literals[1..], tokens[1..])
  }

  ghost predicate CutAt(s: Text, from: nat, i: nat, literal: Text, t: Token) {
    from <= i <= |s| && NoneStand(s, from, i) && literal == s[from..i] && Preferred(s, i, t)
  }

  lemma NextIsLeftmost(s: Text, from: nat)
    requires from <= |s|
    ensures NoneStand(s, from, NextStart(s, from))
    ensures var i := NextStart(s, from);
            i < |s| ==> TokenAt(s, i).Some? && Preferred(s, i, TokenAt(s, i).value)
  {
    hide Stands, TokenAt, Preferred;
    var i := NextStart(s, from);
    forall k, t | from <= k < i ensures !Stands(s, k, t) { TokenAtIff(s, k); }
    if i < |s| { TokenAtIff(s, i); }
  }

  lemma {:induction false} PartsAreTheCut(s: Text, from: nat)
    requires from <= |s|
    ensures Cut(s, from, PartsFrom(s, from).literals, PartsFrom(s, from).tokens)
    decreases |s| - from
  {
    hide NextStart, TokenAt, Stands, NoneStand, Preferred, TokenText;
    NextIsLeftmost(s, from);
    var i := NextStart(s, from);
    if i < |s| {
      var t := TokenAt(s, i).value;
      TokenLength(s, i, t);
      var rest := PartsFrom(s, i + |TokenText(t)|);
      PartsAreTheCut(s, i + |TokenText(t)|);
      var p := PartsFrom(s, from);
      assert p == Parts([s[from..i]] + rest.literals, [t] + rest.tokens);
      assert ([s[from..i]] + rest.literals)[1..] == rest.literals && ([t] + rest.tokens)[1..] == rest.tokens;
      assert CutAt(s, from, i, p.literals[0], p.tokens[0]);
      assert Cut(s, i + |TokenText(p.tokens[0])|, p.literals[1..], p.tokens[1..]);
    }
  }

  lemma LeftmostFirst(s: Text, from: nat, i: nat, j: nat, u: Token)
    requires NoneStand(s, from, i) && from <= j && Stands(s, j, u)
    ensures i <= j
  {
    hide Stands;
  }

  lemma LeftmostOnce(s: Text, from: nat, i: nat, j: nat, l: Text, m: Text, t: Token, u: Token)
    requires CutAt(s, from, i, l, t) && CutAt(s, from, j, m, u)
    ensures i == j && l == m && t == u
  {
    hide Stands;
    LeftmostFirst(s, from, i, j, u);
    LeftmostFirst(s, from, j, i, t);
    PreferredOnce(s, i, t);
    PreferredOnce(s, i, u);
  }

  lemma NoneBefore(s: Text, from: nat, i: nat, literal: Text, t: Token)
    requires CutAt(s, from, i, literal, t)
    ensures i < |s| && !NoneStand(s, from, |s|)
  {
    BodyFinds(s, i, t);
  }

  /** A text is cut in one way only. */
  lemma {:induction false} CutOnce(s: Text, from: nat, a: seq<Text>, p: seq<Token>, b: seq<Text>, q: seq<Token>)
    requires Cut(s, from, a, p) && Cut(s, from, b, q)
    ensures a == b && p == q
    decreases |p|
  {
    hide NoneStand, CutAt, TokenText;
    if p != [] {
      var i: nat :| CutAt(s, from, i, a[0], p[0]) && Cut(s, i + |TokenText(p[0])|, a[1..], p[1..]);
      NoneBefore(s, from, i, a[0], p[0]);
      assert q != [];
      var j: nat :| CutAt(s, from, j, b[0], q[0]) && Cut(s, j + |TokenText(q[0])|, b[1..], q[1..]);
      LeftmostOnce(s, from, i, j, a[0], b[0], p[0], q[0]);
      CutOnce(s, i + |TokenText(p[0])|, a[1..], p[1..], b[1..], q[1..]);
      assert a == [a[0]] + a[1..] && b == [b[0]] + b[1..] && p == [p[0]] + p[1..] && q == [q[0]] + q[1..];
    } else if q != [] {
      var j: nat :| CutAt(s, from, j, b[0], q[0]) && Cut(s, j + |TokenText(q[0])|, b[1..], q[1..]);
      NoneBefore(s, from, j, b[0], q[0]);
    }
  }

  // ---------------------------------------------------------------- compiling

  /** The text without the spaces at its ends. */
  ghost predicate Trims(s: Text, r: Text) {
    exists a, b :: TrimsAt(s, r, a, b)
  }

  ghost predicate TrimsAt(s: Text, r: Text, a: nat, b: nat) {
    && a <= b <= |s| && r == s[a..b]
    && (forall k :: 0 <= k < a || b <= k < |s| ==> Space(s[k]))
    && (a < b ==> !Space(s[a]) && !Space(s[b - 1]))
  }

  lemma {:induction false} StartTrims(s: Text) returns (a: nat)
    ensures a <= |s| && TrimStart(s) == s[a..] && (forall k :: 0 <= k < a ==> Space(s[k])) && (a < |s| ==> !Space(s[a]))
  {
    if s != [] && Space(s[0]) {
      var n := StartTrims(s[1..]);
      a := n + 1;
      assert forall k :: 0 < k < a ==> s[k] == s[1..][k - 1];
    } else {
      a := 0;
    }
  }

  lemma {:induction false} EndTrims(s: Text) returns (b: nat)
    ensures b <= |s| && TrimEnd(s) == s[..b]
    ensures (forall k :: b <= k < |s| ==> Space(s[k])) && (b > 0 ==> !Space(s[b - 1]))
  {
    if s != [] && Space(s[|s| - 1]) {
      b := EndTrims(s[..|s| - 1]);
      assert s[..|s| - 1][..b] == s[..b];
      assert forall k :: b <= k < |s| - 1 ==> s[k] == s[..|s| - 1][k];
    } else {
      b := |s|;
    }
  }

  lemma TrimTrims(s: Text)
    ensures Trims(s, Trim(s))
  {
    var a := StartTrims(s);
    var b := EndTrims(s[a..]);
    assert s[a..][..b] == s[a..a + b];
    forall k | a + b <= k < |s| ensures Space(s[k]) { assert s[k] == s[a..][k - a]; }
    if b > 0 { assert s[a + b - 1] == s[a..][b - 1]; }
    assert TrimsAt(s, Trim(s), a, a + b);
  }

  /** A text makes a template exactly if some token stands in it once it is trimmed, and the
      literals of its cut have at least two units.  The template has the names of the tokens and
      these literals, and the sizes that go with them. */
  lemma CompiledIff(value: Text, key: string, literals: seq<Text>, tokens: seq<Token>)
    requires Cut(Trim(value), 0, literals, tokens)
    ensures Trims(value, Trim(value))
    ensures tokens == [] <==> NoneStand(Trim(value), 0, |Trim(value)|)
    ensures Compile(value, key).Some? <==> tokens != [] && Total(literals) >= 2
    ensures Compile(value, key).Some? ==>
              var t := Compile(value, key).value;
              && t.key == key && t.names == Names(tokens) && t.literals == literals
              && t.literalLength == Total(literals) && t.minLength == Total(literals) + |tokens|
              && t.anchor in literals && (forall l :: l in literals ==> |l| <= |t.anchor|)
  {
    hide NoneStand, Trim, Cut, Assemble, Trims;
    TrimTrims(value);
    var source := Trim(value);
    var parts := PartsFrom(source, 0);
    PartsAreTheCut(source, 0);
    CutOnce(source, 0, literals, tokens, parts.literals, parts.tokens);
    CutOfNone(source, literals, tokens);
    Assembled(literals, tokens, key);
  }

  lemma CutOfNone(s: Text, literals: seq<Text>, tokens: seq<Token>)
    requires Cut(s, 0, literals, tokens)
    ensures |literals| == |tokens| + 1 && (tokens == [] <==> NoneStand(s, 0, |s|))
  {
    hide NoneStand, CutAt;
    if tokens != [] {
      var i: nat :| CutAt(s, 0, i, literals[0], tokens[0]);
      NoneBefore(s, 0, i, literals[0], tokens[0]);
    }
  }

  lemma Assembled(literals: seq<Text>, tokens: seq<Token>, key: string)
    requires |literals| == |tokens| + 1
    ensures var r := Assemble(literals, Names(tokens), key);
            && (r.Some? <==> tokens != [] && Total(literals) >= 2)
            && (r.Some? ==>
                  && r.value.key == key && r.value.names == Names(tokens) && r.value.literals == literals
                  && r.value.literalLength == Total(literals) && r.value.minLength == Total(literals) + |tokens|
                  && r.value.anchor in literals && forall l :: l in literals ==> |l| <= |r.value.anchor|)
  {
    hide Total, SourceLength, Longest, Names;
  }

  /** Every text can be cut. */
  lemma EveryTextIsCut(s: Text)
    ensures exists literals, tokens :: Cut(s, 0, literals, tokens)
  {
    PartsAreTheCut(s, 0);
  }
}
