/**
 The cache of lookups: bounded, in order of use, and never noticed.
 */
module PhraseCache {
  import opened Common
  import opened PhraseTemplates
  import opened PhraseCompiler
  import opened PhraseIndex

  const LIMIT: nat := 2048
  const MAX_LENGTH: nat := 512

  /** The cache in the order of insertion; an entry that is used moves to the end. */
  datatype Entry = Entry(phrase: Text, lookup: Lookup)

  predicate Cacheable(phrase: Text) { |phrase| <= MAX_LENGTH }

  function Phrases(cache: seq<Entry>): (r: seq<Text>)
    ensures |r| == |cache|
    ensures forall i :: 0 <= i < |cache| ==> r[i] == cache[i].phrase
  {
    if cache == [] then [] else [cache[0].phrase] + Phrases(cache[1..])
  }

  function Without(cache: seq<Entry>, phrase: Text): seq<Entry> {
    if cache == [] then []
    else if cache[0].phrase == phrase then Without(cache[1..], phrase)
    else [cache[0]] + Without(cache[1..], phrase)
  }

  function Last<T>(s: seq<T>, n: nat): seq<T> { if |s| > n then s[|s| - n..] else s }

  /** The entry of a phrase, if there is one. */
  function Cached(cache: seq<Entry>, phrase: Text): (r: Option<Lookup>)
    ensures r.Some? <==> exists e :: e in cache && e.phrase == phrase
    ensures r.Some? ==> Entry(phrase, r.value) in cache
  {
    if cache == [] then None
    else if cache[0].phrase == phrase then Some(cache[0].lookup)
    else
      var r := Cached(cache[1..], phrase);
      assert cache == [cache[0]] + cache[1..];
      r
  }

  /** `cacheTermaI18nPhraseLookup`. */
  function Remember(cache: seq<Entry>, phrase: Text, lookup: Lookup): seq<Entry> {
    if !Cacheable(phrase) then cache else Last(Without(cache, phrase) + [Entry(phrase, lookup)], LIMIT)
  }

  datatype Looked = Looked(lookup: Lookup, cache: seq<Entry>)

  /** `findTermaI18nPhraseLookup`. */
  function Look(keys: Keys, templates: seq<Template>, cache: seq<Entry>, phrase: Text): Looked {
    var cached := if Cacheable(phrase) then Cached(cache, phrase) else None;
    if cached.Some? then Looked(cached.value, Without(cache, phrase) + [Entry(phrase, cached.value)])
    else
      var lookup := if phrase in keys then Key(keys[phrase])
          else ScanOf(templates, CandidatesFrom(templates, 0, phrase), phrase);
      Looked(lookup, Remember(cache, phrase, lookup))
  }

  /** Phrases looked up one after the other since the index was rebuilt. */
  function CacheAfter(keys: Keys, templates: seq<Template>, history: seq<Text>): seq<Entry> {
    if history == [] then []
    else
      var n := |history| - 1;
      Look(keys, templates, CacheAfter(keys, templates, history[..n]), history[n]).cache
  }

  // ---------------------------------------------------------------- recency

  function Dropped(s: seq<Text>, phrase: Text): (r: seq<Text>)
    ensures forall p :: p in r <==> p in s && p != phrase
  {
    if s == [] then []
    else if s[0] == phrase then Dropped(s[1..], phrase)
    else [s[0]] + Dropped(s[1..], phrase)
  }

  /** The distinct cacheable phrases of a history, the most recently used last. */
  function Recency(history: seq<Text>): seq<Text> {
    if history == [] then []
    else
      var n := |history| - 1;
      var phrase := history[n];
      if Cacheable(phrase) then Dropped(Recency(history[..n]), phrase) + [phrase] else Recency(history[..n])
  }

  /** Where a phrase was used last. */
  function LastUse(history: seq<Text>, phrase: Text): (i: nat)
    requires phrase in history
    ensures i < |history| && history[i] == phrase && phrase !in history[i + 1..]
  {
    var n := |history| - 1;
    if history[n] == phrase then n
    else
      assert history == history[..n] + [history[n]];
      var i := LastUse(history[..n], phrase);
      assert history[i + 1..] == history[..n][i + 1..] + [history[n]];
      i
  }

  /** For each phrase of the list, earlier ones were last used earlier. */
  ghost predicate ByLastUse(s: seq<Text>, history: seq<Text>) {
    && (forall p :: p in s ==> p in history)
    && forall i, j :: 0 <= i < j < |s| ==> LastUse(history, s[i]) < LastUse(history, s[j])
  }

  lemma {:induction false} DroppedKeepsOrder(s: seq<Text>, phrase: Text, history: seq<Text>)
    requires ByLastUse(s, history)
    ensures ByLastUse(Dropped(s, phrase), history)
  {
    if s != [] {
      assert forall i :: 0 <= i < |s[1..]| ==> s[1..][i] == s[i + 1];
      DroppedKeepsOrder(s[1..], phrase, history);
      var rest := Dropped(s[1..], phrase);
      if s[0] != phrase {
        forall j | 0 <= j < |rest| ensures rest[j] in history && LastUse(history, s[0]) < LastUse(history, rest[j]) {
          assert rest[j] in rest && rest[j] in s[1..];
          var i :| 0 <= i < |s[1..]| && s[1..][i] == rest[j];
        }
      }
    }
  }

  /** The next lookup: its phrase was used last of all, the others when they were. */
  lemma LaterUse(s: seq<Text>, history: seq<Text>, phrase: Text)
    requires ByLastUse(s, history)
    ensures ByLastUse(Dropped(s, phrase) + [phrase], history + [phrase])
    ensures phrase !in s ==> ByLastUse(s, history + [phrase])
  {
    hide Dropped, LastUse;
    DroppedKeepsOrder(s, phrase, history);
    UsedNext(Dropped(s, phrase), history, phrase);
    if phrase !in s { UsedNext(s, history, phrase); }
  }

  lemma LastUseNext(history: seq<Text>, phrase: Text, p: Text)
    requires p in history || p == phrase
    ensures p in history + [phrase]
    ensures LastUse(history + [phrase], p) == if p == phrase then |history| else LastUse(history, p)
  {
    assert (history + [phrase])[..|history|] == history;
  }

  lemma UsedNext(s: seq<Text>, history: seq<Text>, phrase: Text)
    requires ByLastUse(s, history) && phrase !in s
    ensures ByLastUse(s + [phrase], history + [phrase]) && ByLastUse(s, history + [phrase])
  {
    hide LastUse;
    var longer, r := history + [phrase], s + [phrase];
    forall p | p in r
      ensures p in longer && LastUse(longer, p) == if p == phrase then |history| else LastUse(history, p)
    {
      LastUseNext(history, phrase, p);
    }
    assert ByLastUse(r, longer) by {
      forall i, j | 0 <= i < j < |r| ensures LastUse(longer, r[i]) < LastUse(longer, r[j]) {
        assert r[i] == s[i] && s[i] in s && r[i] in r && r[j] in r;
        if j < |s| { assert r[j] == s[j] && s[j] in s; }
      }
    }
    FewerByLastUse(s, phrase, longer);
  }

  lemma FewerByLastUse(s: seq<Text>, phrase: Text, history: seq<Text>)
    requires ByLastUse(s + [phrase], history)
    ensures ByLastUse(s, history)
  {
    hide LastUse;
    var r := s + [phrase];
    forall p | p in s ensures p in history { assert p in r; }
    forall i, j | 0 <= i < j < |s| ensures LastUse(history, s[i]) < LastUse(history, s[j]) {
      assert s[i] == r[i] && s[j] == r[j];
    }
  }

  /** The list is what its name says. */
  lemma {:induction false} RecencyIsByLastUse(history: seq<Text>)
    ensures forall p :: p in Recency(history) <==> p in history && |p| <= 512
    ensures ByLastUse(Recency(history), history)
  {
    if history != [] {
      var n := |history| - 1;
      assert history == history[..n] + [history[n]];
      RecencyIsByLastUse(history[..n]);
      LaterUse(Recency(history[..n]), history[..n], history[n]);
    }
  }

  lemma ByLastUseIsDistinct(s: seq<Text>, history: seq<Text>)
    requires ByLastUse(s, history)
    ensures Distinct(s)
  {
  }

  // ---------------------------------------------------------------- the bounded cache

  lemma {:induction false} DroppedAppend(a: seq<Text>, b: seq<Text>, phrase: Text)
    ensures Dropped(a + b, phrase) == Dropped(a, phrase) + Dropped(b, phrase)
  {
    if a == [] {
      assert a + b == b;
    } else {
      assert (a + b)[1..] == a[1..] + b;
      DroppedAppend(a[1..], b, phrase);
    }
  }

  lemma {:induction false} DroppedNothing(s: seq<Text>, phrase: Text)
    requires phrase !in s
    ensures Dropped(s, phrase) == s
  {
    if s != [] { DroppedNothing(s[1..], phrase); }
  }

  lemma {:induction false} DroppedOnce(s: seq<Text>, phrase: Text)
    requires Distinct(s) && phrase in s
    ensures |Dropped(s, phrase)| == |s| - 1
  {
    assert forall i :: 0 <= i < |s[1..]| ==> s[1..][i] == s[i + 1];
    if s[0] == phrase {
      DroppedNothing(s[1..], phrase);
    } else {
      DroppedOnce(s[1..], phrase);
    }
  }

  lemma LastOfAppend<T>(a: seq<T>, b: seq<T>, n: nat)
    requires |b| >= n
    ensures Last(a + b, n) == Last(b, n)
  {
  }

  /** Keeping the last `n` after every use is keeping the last `n` of all. */
  lemma BoundedUse(s: seq<Text>, phrase: Text, n: nat)
    requires Distinct(s) && n > 0
    ensures Last(Dropped(Last(s, n), phrase) + [phrase], n) == Last(Dropped(s, phrase) + [phrase], n)
    ensures phrase in Last(s, n) ==>
              Last(Dropped(Last(s, n), phrase) + [phrase], n) == Dropped(Last(s, n), phrase) + [phrase]
  {
    var kept := Last(s, n);
    if |s| > n {
      var gone := s[..|s| - n];
      assert s == gone + kept;
      DroppedAppend(gone, kept, phrase);
      if phrase in kept {
        DroppedOnce(kept, phrase);
        DistinctParts(gone, kept);
        DroppedNothing(gone, phrase);
        assert gone + Dropped(kept, phrase) + [phrase] == gone + (Dropped(kept, phrase) + [phrase]);
        LastOfAppend(gone, Dropped(kept, phrase) + [phrase], n);
      } else {
        DroppedNothing(kept, phrase);
        assert Dropped(gone, phrase) + kept + [phrase] == Dropped(gone, phrase) + (kept + [phrase]);
        LastOfAppend(Dropped(gone, phrase), kept + [phrase], n);
      }
    } else if phrase in kept {
      DroppedOnce(kept, phrase);
    }
  }

  lemma DistinctParts(a: seq<Text>, b: seq<Text>)
    requires Distinct(a + b)
    ensures Distinct(b) && forall p :: p in b ==> p !in a
  {
    var s := a + b;
    forall i, j | 0 <= i < j < |b| ensures b[i] != b[j] { assert s[|a| + i] != s[|a| + j]; }
    forall p | p in b ensures p !in a {
      var j :| 0 <= j < |b| && b[j] == p;
      forall i | 0 <= i < |a| ensures a[i] != p { assert s[i] != s[|a| + j]; }
    }
  }

  // ---------------------------------------------------------------- phrases of the cache

  lemma {:induction false} PhrasesWithout(cache: seq<Entry>, phrase: Text)
    ensures Phrases(Without(cache, phrase)) == Dropped(Phrases(cache), phrase)
    ensures forall e :: e in Without(cache, phrase) ==> e in cache
  {
    if cache != [] {
      PhrasesWithout(cache[1..], phrase);
      assert Phrases(cache)[1..] == Phrases(cache[1..]);
    }
  }

  lemma PhrasesLast(cache: seq<Entry>, n: nat)
    ensures Phrases(Last(cache, n)) == Last(Phrases(cache), n)
  {
  }

  lemma PhrasesAfterUse(cache: seq<Entry>, phrase: Text, lookup: Lookup)
    ensures var used := Without(cache, phrase) + [Entry(phrase, lookup)];
            && Phrases(used) == Dropped(Phrases(cache), phrase) + [phrase]
            && (forall e :: e in used ==> e in cache || e == Entry(phrase, lookup))
  {
    PhrasesWithout(cache, phrase);
  }

  /** Every entry is the uncached answer. */
  ghost predicate Right(keys: Keys, templates: seq<Template>, cache: seq<Entry>) {
    forall e :: e in cache ==> Cacheable(e.phrase) && e.lookup == Answer(keys, templates, e.phrase)
  }

  /** One lookup: the answer is the uncached one, and the phrase becomes the most recent. */
  lemma LookIsTransparent(keys: Keys, templates: seq<Template>, cache: seq<Entry>, phrase: Text)
    requires Right(keys, templates, cache) && (forall t :: t in templates ==> Regular(t))
    ensures var r := Look(keys, templates, cache, phrase);
            && r.lookup == Answer(keys, templates, phrase)
            && Right(keys, templates, r.cache)
  {
    hide Answer, Regular, Without, ScanOf, CandidatesFrom;
    Uncached(keys, templates, phrase);
    PhrasesAfterUse(cache, phrase, Answer(keys, templates, phrase));
  }

  lemma Uncached(keys: Keys, templates: seq<Template>, phrase: Text)
    requires forall t :: t in templates ==> Regular(t)
    ensures Answer(keys, templates, phrase)
            == if phrase in keys then Key(keys[phrase])
                else ScanOf(templates, CandidatesFrom(templates, 0, phrase), phrase)
  {
    CandidatesSuffice(templates, 0, phrase);
  }

  lemma LookedPhrases(keys: Keys, templates: seq<Template>, cache: seq<Entry>, phrase: Text, recent: seq<Text>)
    requires Distinct(recent) && Phrases(cache) == Last(recent, LIMIT)
    ensures Phrases(Look(keys, templates, cache, phrase).cache)
            == if Cacheable(phrase) then Last(Dropped(recent, phrase) + [phrase], LIMIT) else Last(recent, LIMIT)
  {
    hide Without, ScanOf, CandidatesFrom, Dropped, Phrases, Last;
    var r := Look(keys, templates, cache, phrase);
    if Cacheable(phrase) {
      PhrasesAfterUse(cache, phrase, r.lookup);
      PhrasesLast(Without(cache, phrase) + [Entry(phrase, r.lookup)], LIMIT);
      BoundedUse(recent, phrase, LIMIT);
      CachedIsHeld(cache, phrase);
    }
  }

  lemma CachedIsHeld(cache: seq<Entry>, phrase: Text)
    ensures Cached(cache, phrase).Some? <==> phrase in Phrases(cache)
  {
    if Cached(cache, phrase).Some? {
      var e :| e in cache && e.phrase == phrase;
      var i :| 0 <= i < |cache| && cache[i] == e;
      assert Phrases(cache)[i] == phrase;
    }
    if phrase in Phrases(cache) {
      var i :| 0 <= i < |cache| && Phrases(cache)[i] == phrase;
      assert cache[i] in cache;
    }
  }

  /** The cache always holds exactly the most recently used distinct cacheable phrases since the
      index was rebuilt, 2048 at most, and every answer is the uncached one. */
  lemma {:induction false} CacheIsRecentAndTransparent(keys: Keys, templates: seq<Template>, history: seq<Text>,
      phrase: Text)
    requires forall t :: t in templates ==> Regular(t)
    ensures var cache := CacheAfter(keys, templates, history);
            && Phrases(cache) == Last(Recency(history), 2048) && |cache| <= 2048
            && Right(keys, templates, cache)
            && Look(keys, templates, cache, phrase).lookup == Answer(keys, templates, phrase)
    decreases |history|
  {
    hide Look, Answer, Regular, Dropped, Cacheable;
    var cache := CacheAfter(keys, templates, history);
    if history != [] {
      var n := |history| - 1;
      var before := CacheAfter(keys, templates, history[..n]);
      CacheIsRecentAndTransparent(keys, templates, history[..n], history[n]);
      LookIsTransparent(keys, templates, before, history[n]);
      RecencyIsByLastUse(history[..n]);
      ByLastUseIsDistinct(Recency(history[..n]), history[..n]);
      LookedPhrases(keys, templates, before, history[n], Recency(history[..n]));
    }
    LookIsTransparent(keys, templates, cache, phrase);
  }
}
