/**
 Looking a phrase up: the plain scan over all templates by rank, the candidates that the
 bigram buckets leave, and the cache of recent lookups.
 */
module PhraseIndex {
  import opened Common
  import opened PhraseTemplates
  import opened PhraseCompiler

  /** A text of the resources, in both languages ([] for none). */
  datatype Source = Source(key: string, chinese: Text, english: Text)

  type Keys = map<Text, string>

  function AddPhrase(keys: Keys, value: Text, key: string): Keys {
    var phrase := Trim(value);
    if phrase == [] || phrase in keys then keys else keys[phrase := key]
  }

  /** The phrases that stand for themselves; the first source of a phrase wins. */
  function KeysOf(sources: seq<Source>): Keys {
    if sources == [] then map[]
    else
      var s := sources[|sources| - 1];
      AddPhrase(AddPhrase(KeysOf(sources[..|sources| - 1]), s.chinese, s.key), s.english, s.key)
  }

  function Listed(t: Option<Template>): seq<Template> { if t.Some? then [t.value] else [] }

  function Compiled(sources: seq<Source>): seq<Template> {
    if sources == [] then []
    else
      var s := sources[|sources| - 1];
      Compiled(sources[..|sources| - 1]) + Listed(Compile(s.chinese, s.key)) + Listed(Compile(s.english, s.key))
  }

  // ---------------------------------------------------------------- ranking

  /** More literal text first, then the longer expression. */
  predicate Before(a: Template, b: Template) {
    a.literalLength > b.literalLength || (a.literalLength == b.literalLength && a.sourceLength > b.sourceLength)
  }

  function Place(t: Template, ranked: seq<Template>): (r: seq<Template>)
    ensures multiset(r) == multiset(ranked) + multiset{t}
  {
    if ranked == [] then [t]
    else if Before(t, ranked[0]) then [t] + ranked
    else
      assert ranked == [ranked[0]] + ranked[1..];
      [ranked[0]] + Place(t, ranked[1..])
  }

  /** The stable sort by rank. */
  function Ranked(templates: seq<Template>): (r: seq<Template>)
    ensures multiset(r) == multiset(templates)
  {
    if templates == [] then []
    else
      var n := |templates| - 1;
      assert templates == templates[..n] + [templates[n]];
      Place(templates[n], Ranked(templates[..n]))
  }

  ghost predicate InRank(templates: seq<Template>) {
    forall i, j :: 0 <= i < j < |templates| ==> !Before(templates[j], templates[i])
  }

  lemma {:induction false} PlaceInRank(t: Template, ranked: seq<Template>)
    requires InRank(ranked)
    ensures InRank(Place(t, ranked))
  {
    if ranked != [] && !Before(t, ranked[0]) {
      assert forall i :: 0 <= i < |ranked[1..]| ==> ranked[1..][i] == ranked[i + 1];
      PlaceInRank(t, ranked[1..]);
      var tail := Place(t, ranked[1..]);
      forall j | 0 <= j < |tail| ensures !Before(tail[j], ranked[0]) {
        assert tail[j] in multiset(tail);
        if tail[j] != t {
          assert tail[j] in multiset(ranked[1..]);
          var i :| 0 <= i < |ranked[1..]| && ranked[1..][i] == tail[j];
        }
      }
    }
  }

  lemma {:induction false} RankedInRank(templates: seq<Template>)
    ensures InRank(Ranked(templates))
  {
    if templates != [] {
      var n := |templates| - 1;
      RankedInRank(templates[..n]);
      PlaceInRank(templates[n], Ranked(templates[..n]));
    }
  }

  /** The templates of one rank, in order. */
  function OfRank(templates: seq<Template>, literalLength: nat, sourceLength: nat): seq<Template> {
    if templates == [] then []
    else (if templates[0].literalLength == literalLength && templates[0].sourceLength == sourceLength
        then [templates[0]] else [])
         + OfRank(templates[1..], literalLength, sourceLength)
  }

  lemma {:induction false} OfRankAppend(a: seq<Template>, b: seq<Template>, n: nat, m: nat)
    ensures OfRank(a + b, n, m) == OfRank(a, n, m) + OfRank(b, n, m)
  {
    if a == [] {
      assert a + b == b;
    } else {
      assert (a + b)[1..] == a[1..] + b;
      OfRankAppend(a[1..], b, n, m);
    }
  }

  lemma {:induction false} NoneOfRank(templates: seq<Template>, n: nat, m: nat)
    requires forall t :: t in templates ==> t.literalLength != n || t.sourceLength != m
    ensures OfRank(templates, n, m) == []
  {
    if templates != [] { NoneOfRank(templates[1..], n, m); }
  }

  /** Whatever comes before the first in rank is of another rank than all. */
  lemma FirstOfItsRank(t: Template, ranked: seq<Template>)
    requires InRank(ranked) && ranked != [] && Before(t, ranked[0])
    ensures OfRank(ranked, t.literalLength, t.sourceLength) == []
  {
    forall e | e in ranked ensures e.literalLength != t.literalLength || e.sourceLength != t.sourceLength {
      var i :| 0 <= i < |ranked| && ranked[i] == e;
    }
    NoneOfRank(ranked, t.literalLength, t.sourceLength);
  }

  lemma OneOfRank(t: Template, n: nat, m: nat)
    ensures OfRank([t], n, m) == if t.literalLength == n && t.sourceLength == m then [t] else []
  {
    assert OfRank([t][1..], n, m) == [];
  }

  lemma InRankTail(ranked: seq<Template>)
    requires InRank(ranked) && ranked != []
    ensures InRank(ranked[1..])
  {
  }

  lemma {:induction false} PlaceKeepsOrder(t: Template, ranked: seq<Template>, n: nat, m: nat)
    requires InRank(ranked)
    ensures OfRank(Place(t, ranked), n, m) == OfRank(ranked, n, m) + OfRank([t], n, m)
  {
    hide OfRank, InRank, Before;
    OneOfRank(t, n, m);
    if ranked == [] {
      NoneOfRank([], n, m);
      assert Place(t, ranked) == [t];
    } else if Before(t, ranked[0]) {
      OfRankAppend([t], ranked, n, m);
      FirstOfItsRank(t, ranked);
      assert Place(t, ranked) == [t] + ranked;
    } else {
      InRankTail(ranked);
      PlaceKeepsOrder(t, ranked[1..], n, m);
      PlaceLater(t, ranked, n, m);
    }
  }

  lemma PlaceLater(t: Template, ranked: seq<Template>, n: nat, m: nat)
    requires ranked != [] && !Before(t, ranked[0])
    requires OfRank(Place(t, ranked[1..]), n, m) == OfRank(ranked[1..], n, m) + OfRank([t], n, m)
    ensures OfRank(Place(t, ranked), n, m) == OfRank(ranked, n, m) + OfRank([t], n, m)
  {
    hide OfRank, Before;
    var head, tail := [ranked[0]], ranked[1..];
    assert Place(t, ranked) == head + Place(t, tail);
    assert ranked == head + tail;
    OfRankAppend(head, Place(t, tail), n, m);
    OfRankAppend(head, tail, n, m);
  }

  /** Sorting puts the templates in rank and keeps the order of equals. */
  lemma {:induction false} RankingIsStable(templates: seq<Template>, n: nat, m: nat)
    ensures InRank(Ranked(templates)) && OfRank(Ranked(templates), n, m) == OfRank(templates, n, m)
  {
    hide OfRank, InRank, Place, Before;
    RankedInRank(templates);
    if templates != [] {
      var last := |templates| - 1;
      RankingIsStable(templates[..last], n, m);
      PlaceKeepsOrder(templates[last], Ranked(templates[..last]), n, m);
      OfRankAppend(templates[..last], [templates[last]], n, m);
      assert templates == templates[..last] + [templates[last]];
      RankedInRank(templates[..last]);
    }
  }

  // ---------------------------------------------------------------- the plain scan

  datatype Lookup = Key(key: string) | Found(rank: nat, captures: seq<Text>) | Miss

  function Try(t: Template, phrase: Text): Option<seq<Text>> {
    if t.literals == [] then None else Match(t.literals, phrase)
  }

  /** The first template from `rank` on that matches. */
  function Scan(templates: seq<Template>, rank: nat, phrase: Text): Lookup
    requires rank <= |templates|
    decreases |templates| - rank
  {
    if rank == |templates| then Miss
    else
      match Try(templates[rank], phrase)
      case Some(captures) => Found(rank, captures)
      case None => Scan(templates, rank + 1, phrase)
  }

  /** The uncached answer. */
  function Answer(keys: Keys, templates: seq<Template>, phrase: Text): Lookup {
    if phrase in keys then Key(keys[phrase]) else Scan(templates, 0, phrase)
  }

  // ---------------------------------------------------------------- candidates

  /** The template may match: its anchor occurs, or it has none worth looking for. */
  predicate Kept(t: Template, phrase: Text) {
    |t.anchor| < 2 || (|phrase| >= t.minLength && Includes(phrase, t.anchor))
  }

  function CandidatesFrom(templates: seq<Template>, rank: nat, phrase: Text): (ranks: seq<nat>)
    requires rank <= |templates|
    ensures forall r :: r in ranks ==> rank <= r < |templates|
    decreases |templates| - rank
  {
    if rank == |templates| then []
    else (if Kept(templates[rank], phrase) then [rank] else []) + CandidatesFrom(templates, rank + 1, phrase)
  }

  lemma {:induction false} CandidatesKept(templates: seq<Template>, rank: nat, phrase: Text, r: nat)
    requires rank <= |templates|
    ensures r in CandidatesFrom(templates, rank, phrase) <==> rank <= r < |templates| && Kept(templates[r], phrase)
    decreases |templates| - rank
  {
    hide Kept;
    if rank < |templates| { CandidatesKept(templates, rank + 1, phrase, r); }
  }

  lemma {:induction false} CandidatesAscend(templates: seq<Template>, rank: nat, phrase: Text, i: nat, j: nat)
    requires rank <= |templates| && i < j < |CandidatesFrom(templates, rank, phrase)|
    ensures CandidatesFrom(templates, rank, phrase)[i] < CandidatesFrom(templates, rank, phrase)[j]
    decreases |templates| - rank
  {
    hide Kept;
    var rest := CandidatesFrom(templates, rank + 1, phrase);
    if !Kept(templates[rank], phrase) {
      assert CandidatesFrom(templates, rank, phrase) == rest;
      CandidatesAscend(templates, rank + 1, phrase, i, j);
    } else {
      assert CandidatesFrom(templates, rank, phrase) == [rank] + rest;
      if i > 0 { CandidatesAscend(templates, rank + 1, phrase, i - 1, j - 1); } else { assert rest[j - 1] in rest; }
    }
  }

  /** The candidates are, by rank, the templates with an anchor of less than two units and those
      whose anchor occurs in a phrase that is long enough. */
  lemma CandidatesAre(templates: seq<Template>, phrase: Text)
    ensures var ranks := CandidatesFrom(templates, 0, phrase);
            && (forall i, j :: 0 <= i < j < |ranks| ==> ranks[i] < ranks[j])
            && (forall r: nat :: r in ranks <==>
                  && r < |templates|
                  && (|templates[r].anchor| < 2
                      || (|phrase| >= templates[r].minLength && Includes(phrase, templates[r].anchor))))
  {
    hide CandidatesFrom, Includes;
    var ranks := CandidatesFrom(templates, 0, phrase);
    forall r: nat { CandidatesKept(templates, 0, phrase, r); }
    forall i, j | 0 <= i < j < |ranks| ensures ranks[i] < ranks[j] { CandidatesAscend(templates, 0, phrase, i, j); }
  }

  /** The first of these templates that matches. */
  function ScanOf(templates: seq<Template>, ranks: seq<nat>, phrase: Text): Lookup {
    if ranks == [] then Miss
    else
      var captures := if ranks[0] < |templates| then Try(templates[ranks[0]], phrase) else None;
      if captures.Some? then Found(ranks[0], captures.value) else ScanOf(templates, ranks[1..], phrase)
  }

  /** A template that matches is a candidate. */
  lemma MatchingIsKept(t: Template, phrase: Text)
    requires Regular(t)
    ensures Try(t, phrase).Some? ==> Kept(t, phrase)
  {
    if Try(t, phrase).Some? {
      MatchSplits(t.literals, phrase);
      SplitHolds(t.literals, Match(t.literals, phrase).value, phrase, t.anchor);
    }
  }

  /** Looking at the candidates only gives the same template and captures as looking at all
      templates in rank order. */
  lemma {:induction false} CandidatesSuffice(templates: seq<Template>, rank: nat, phrase: Text)
    requires rank <= |templates| && forall t :: t in templates ==> Regular(t)
    ensures ScanOf(templates, CandidatesFrom(templates, rank, phrase), phrase) == Scan(templates, rank, phrase)
    decreases |templates| - rank
  {
    hide Kept, Try, Regular;
    if rank < |templates| {
      assert templates[rank] in templates;
      MatchingIsKept(templates[rank], phrase);
      CandidatesSuffice(templates, rank + 1, phrase);
      var rest := CandidatesFrom(templates, rank + 1, phrase);
      assert ([rank] + rest)[1..] == rest;
      assert [] + rest == rest;
    }
  }

  lemma {:induction false} CompiledRegular(sources: seq<Source>)
    ensures forall t :: t in Compiled(sources) ==> Regular(t)
  {
    if sources != [] {
      var s := sources[|sources| - 1];
      CompiledRegular(sources[..|sources| - 1]);
      CompiledFromText(s.chinese, s.key);
      CompiledFromText(s.english, s.key);
    }
  }

  lemma RankedRegular(sources: seq<Source>)
    ensures forall t :: t in Ranked(Compiled(sources)) ==> Regular(t)
  {
    CompiledRegular(sources);
    var ranked := Ranked(Compiled(sources));
    forall t | t in ranked ensures Regular(t) {
      assert t in multiset(ranked);
      assert t in multiset(Compiled(sources));
    }
  }
}
