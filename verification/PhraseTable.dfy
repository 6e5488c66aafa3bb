/**
 The phrase table as the program holds it: maps and lists that are filled when the resources
 change, bigram buckets over the ranked templates, and the cache.
 */
module PhraseTable {
  import opened Common
  import opened PhraseTemplates
  import opened PhraseCompiler
  import opened PhraseIndex
  import opened PhraseCache

  class PhraseTable {
    var keys: Keys
    var templates: seq<Template>
    var buckets: map<Text, seq<nat>>
    var fallbacks: seq<nat>
    var cache: seq<Entry>

    constructor ()
      ensures Valid() && keys == map[] && templates == [] && cache == []
    {
      keys, templates, buckets, fallbacks, cache := map[], [], map[], [], [];
    }

    /** The templates with a rank below `n` are in the bucket of their anchor's first two units,
        or among the fallbacks. */
    ghost predicate Filed(n: nat)
      reads this
    {
      && n <= |templates|
      && (forall r: nat :: r in fallbacks <==> r < n && |templates[r].anchor| < 2)
      && (forall k, i :: k in buckets && 0 <= i < |buckets[k]| ==>
            buckets[k][i] < n && |templates[buckets[k][i]].anchor| >= 2 && templates[buckets[k][i]].anchor[..2] == k)
      && (forall r: nat :: r < n && |templates[r].anchor| >= 2 ==>
            templates[r].anchor[..2] in buckets && r in buckets[templates[r].anchor[..2]])
    }

    ghost predicate Valid()
      reads this
    {
      && Filed(|templates|)
      && (forall t :: t in templates ==> Regular(t))
      && Right(keys, templates, cache)
      && Distinct(Phrases(cache)) && |cache| <= LIMIT
    }

    method AddPhrase(value: Text, key: string)
      modifies this`keys
      ensures keys == PhraseIndex.AddPhrase(old(keys), value, key)
    {
      var phrase := Trim(value);
      if phrase != [] && phrase !in keys { keys := keys[phrase := key]; }
    }

    method AddTemplate(value: Text, key: string)
      modifies this`templates
      ensures templates == old(templates) + Listed(Compile(value, key))
    {
      var template := CompileTemplate(value, key);
      if template.Some? { templates := templates + [template.value]; }
    }

    /** The phrases and templates of all sources. */
    method Load(sources: seq<Source>)
      requires keys == map[] && templates == []
      modifies this`keys, this`templates
      ensures keys == KeysOf(sources) && templates == Compiled(sources)
    {
      hide Compile, PhraseIndex.AddPhrase;
      var n := 0;
      assert sources[..0] == [];
      while n < |sources|
        invariant n <= |sources|
        invariant keys == KeysOf(sources[..n]) && templates == Compiled(sources[..n])
      {
        var s := sources[n];
        assert sources[..n + 1][..n] == sources[..n];
        AddPhrase(s.chinese, s.key);
        AddPhrase(s.english, s.key);
        AddTemplate(s.chinese, s.key);
        AddTemplate(s.english, s.key);
        n := n + 1;
      }
      assert sources[..n] == sources;
    }

    /** `rebuildTermaI18nPhraseIndex`. */
    method Rebuild(sources: seq<Source>)
      modifies this
      ensures Valid()
      ensures keys == KeysOf(sources) && templates == Ranked(Compiled(sources)) && cache == []
    {
      hide KeysOf, Compiled, Regular, Right, Ranked, Phrases, Distinct;
      keys, templates, buckets, fallbacks, cache := map[], [], map[], [], [];
      Load(sources);
      templates := Ranked(templates);
      RankedRegular(sources);
      FileTemplates();
      NothingCached(keys, templates);
    }

    /** The templates get their ranks and their buckets. */
    method FileTemplates()
      requires buckets == map[] && fallbacks == []
      modifies this`buckets, this`fallbacks
      ensures Filed(|templates|)
    {
      var rank := 0;
      while rank < |templates|
        invariant Filed(rank)
      {
        FileTemplate(rank);
        rank := rank + 1;
      }
    }

    method FileTemplate(rank: nat)
      requires rank < |templates| && Filed(rank)
      modifies this`buckets, this`fallbacks
      ensures Filed(rank + 1)
    {
      var template := templates[rank];
      if |template.anchor| < 2 {
        fallbacks := fallbacks + [rank];
        return;
      }
      var bucketKey := template.anchor[..2];
      var bucket := if bucketKey in buckets then buckets[bucketKey] else [];
      buckets := buckets[bucketKey := bucket + [rank]];
      assert rank in buckets[bucketKey];
    }

    ghost predicate Hopeful(r: nat, source: Text)
      reads this
    {
      r < |templates| && Promising(templates[r], source)
    }

    /** `candidateTermaI18nPhraseTemplates`, as ranks. */
    method Candidates(source: Text) returns (ranks: seq<nat>)
      requires Filed(|templates|)
      ensures ranks == CandidatesFrom(templates, 0, source)
    {
      var found: set<nat> := set r | r in fallbacks;
      var visited: set<Text> := {};
      var index := 0;
      while index + 1 < |source|
        invariant forall k :: k in visited <==> k in Bigrams(source, index)
        invariant forall r: nat :: r in found <==> r < |templates| && Reached(templates[r], source, visited)
      {
        var bucketKey := source[index..index + 2];
        BigramsNext(source, index);
        if bucketKey !in visited {
          ghost var before, seen := found, visited;
          visited := visited + {bucketKey};
          if bucketKey in buckets {
            FiledBucket(bucketKey);
            found := Search(buckets[bucketKey], source, found);
          }
          ReachedMore(bucketKey, source, seen, before, found);
        }
        index := index + 1;
      }
      assert forall r: nat :: r in found <==> r < |templates| && Kept(templates[r], source) by {
        forall r: nat | r < |templates| ensures Reached(templates[r], source, visited) == Kept(templates[r], source) {
          KeptIsReached(templates[r], source, index, visited);
        }
      }
      ranks := Sorted(found, source);
    }

    /** The templates of one bucket that may match. */
    method Search(bucket: seq<nat>, source: Text, found: set<nat>) returns (more: set<nat>)
      requires forall i :: 0 <= i < |bucket| ==> bucket[i] < |templates|
      ensures forall r: nat :: r in more <==> r in found || (r in bucket && Hopeful(r, source))
    {
      more := found;
      var n := 0;
      while n < |bucket|
        invariant n <= |bucket|
        invariant forall r: nat :: r in more <==> r in found || (r in bucket[..n] && Hopeful(r, source))
      {
        var template := templates[bucket[n]];
        assert bucket[..n + 1] == bucket[..n] + [bucket[n]];
        if |source| >= template.minLength && Includes(source, template.anchor) { more := more + {bucket[n]}; }
        n := n + 1;
      }
      assert bucket[..n] == bucket;
    }

    lemma FiledBucket(bucketKey: Text)
      requires Filed(|templates|) && bucketKey in buckets
      ensures forall i :: 0 <= i < |buckets[bucketKey]| ==> buckets[bucketKey][i] < |templates|
    {
    }

    lemma ReachedMore(bucketKey: Text, source: Text, seen: set<Text>, before: set<nat>, found: set<nat>)
      requires Filed(|templates|)
      requires forall r: nat :: r in before <==> r < |templates| && Reached(templates[r], source, seen)
      requires if bucketKey in buckets
               then forall r: nat :: r in found <==> r in before || (r in buckets[bucketKey] && Hopeful(r, source))
               else found == before
      ensures forall r: nat :: r in found <==> r < |templates| && Reached(templates[r], source, seen + {bucketKey})
    {
    }

    /** The ranks in ascending order. */
    method Sorted(found: set<nat>, ghost source: Text) returns (ranks: seq<nat>)
      requires forall r: nat :: r in found <==> r < |templates| && Kept(templates[r], source)
      ensures ranks == CandidatesFrom(templates, 0, source)
    {
      hide Kept;
      ranks := [];
      var rank := 0;
      while rank < |templates|
        invariant rank <= |templates|
        invariant CandidatesFrom(templates, 0, source) == ranks + CandidatesFrom(templates, rank, source)
      {
        if rank in found { ranks := ranks + [rank]; }
        rank := rank + 1;
      }
    }

    /** `cachedTermaI18nPhraseLookup`. */
    method CachedLookup(source: Text) returns (cached: Option<Lookup>)
      modifies this`cache
      ensures cached == if Cacheable(source) then Cached(old(cache), source) else None
      ensures cache == if cached.Some? then Without(old(cache), source) + [Entry(source, cached.value)] else old(cache)
    {
      if |source| > MAX_LENGTH { return None; }
      cached := Cached(cache, source);
      if cached.None? { return; }
      cache := Without(cache, source);
      cache := cache + [Entry(source, cached.value)];
    }

    /** `cacheTermaI18nPhraseLookup`. */
    method CacheLookup(source: Text, lookup: Lookup)
      modifies this`cache
      ensures cache == Remember(old(cache), source, lookup)
    {
      if |source| > MAX_LENGTH { return; }
      cache := Without(cache, source);
      cache := cache + [Entry(source, lookup)];
      ghost var all := cache;
      while |cache| > LIMIT
        invariant |cache| <= |all| && cache == all[|all| - |cache|..]
        invariant |all| > LIMIT ==> |cache| >= LIMIT
        invariant |all| <= LIMIT ==> cache == all
      {
        cache := cache[1..];
      }
    }

    /** `findTermaI18nPhraseLookup`: through cache, phrases and buckets, yet the plain answer. */
    method Find(source: Text) returns (lookup: Lookup)
      requires Valid()
      modifies this`cache
      ensures Valid()
      ensures lookup == Answer(keys, templates, source)
      ensures cache == Look(keys, templates, old(cache), source).cache
    {
      hide Answer, Regular, Remember, Without, ScanOf, CandidatesFrom, Phrases, Distinct, Right, Cached;
      LookIsTransparent(keys, templates, cache, source);
      LookKeepsBounds(keys, templates, cache, source);
      var cached := CachedLookup(source);
      if cached.Some? { return cached.value; }
      if source in keys {
        lookup := Key(keys[source]);
      } else {
        lookup := FirstMatch(source);
      }
      CacheLookup(source, lookup);
    }

    /** The first candidate that matches. */
    method FirstMatch(source: Text) returns (lookup: Lookup)
      requires Filed(|templates|)
      ensures lookup == ScanOf(templates, CandidatesFrom(templates, 0, source), source)
    {
      hide CandidatesFrom;
      var candidates := Candidates(source);
      var n := 0;
      assert candidates[0..] == candidates;
      while n < |candidates|
        invariant n <= |candidates|
        invariant ScanOf(templates, candidates, source) == ScanOf(templates, candidates[n..], source)
      {
        assert candidates[n] in candidates;
        assert candidates[n..][1..] == candidates[n + 1..];
        var captures := Try(templates[candidates[n]], source);
        if captures.Some? { return Found(candidates[n], captures.value); }
        n := n + 1;
      }
      return Miss;
    }
  }

  lemma NothingCached(keys: Keys, templates: seq<Template>)
    ensures Right(keys, templates, []) && Distinct(Phrases([]))
  {
  }

  /** The pairs of units that start before `n`. */
  function Bigrams(source: Text, n: nat): set<Text> {
    set i | 0 <= i < n && i + 2 <= |source| :: Pair(source, i)
  }

  function Pair(source: Text, i: nat): Text
    requires i + 2 <= |source|
  {
    source[i..i + 2]
  }

  lemma BigramsNext(source: Text, n: nat)
    requires n + 2 <= |source|
    ensures Bigrams(source, n + 1) == Bigrams(source, n) + {source[n..n + 2]}
  {
    forall k ensures k in Bigrams(source, n + 1) <==> k in Bigrams(source, n) || k == Pair(source, n) {
      if k == Pair(source, n) { assert k in Bigrams(source, n + 1); }
    }
  }

  predicate Promising(t: Template, source: Text) { |source| >= t.minLength && Includes(source, t.anchor) }

  /** The template is a fallback, or in a bucket that was searched. */
  predicate Reached(t: Template, source: Text, visited: set<Text>) {
    |t.anchor| < 2 || (Promising(t, source) && t.anchor[..2] in visited)
  }

  /** When all pairs have been visited, every template that may match has been reached. */
  lemma KeptIsReached(t: Template, source: Text, n: nat, visited: set<Text>)
    requires n + 1 >= |source| && forall k :: k in visited <==> k in Bigrams(source, n)
    ensures Reached(t, source, visited) == Kept(t, source)
  {
    if |t.anchor| >= 2 && Includes(source, t.anchor) {
      var i :| 0 <= i <= |source| - |t.anchor| && Occurs(source, t.anchor, i);
      assert source[i..i + 2] == source[i..i + |t.anchor|][..2] == t.anchor[..2];
      assert Pair(source, i) in Bigrams(source, n);
    }
  }

  /** A lookup leaves at most 2048 distinct phrases. */
  lemma LookKeepsBounds(keys: Keys, templates: seq<Template>, cache: seq<Entry>, phrase: Text)
    requires Distinct(Phrases(cache)) && |cache| <= LIMIT
    ensures var r := Look(keys, templates, cache, phrase).cache; Distinct(Phrases(r)) && |r| <= LIMIT
  {
    hide Without, ScanOf, CandidatesFrom, Dropped, Phrases;
    var recent := Phrases(cache);
    LookedPhrases(keys, templates, cache, phrase, recent);
    DroppedDistinct(recent, phrase);
    LastDistinct(Dropped(recent, phrase) + [phrase], LIMIT);
  }

  lemma {:induction false} DroppedDistinct(s: seq<Text>, phrase: Text)
    requires Distinct(s)
    ensures Distinct(Dropped(s, phrase)) && Distinct(Dropped(s, phrase) + [phrase])
  {
    if s != [] {
      assert forall i :: 0 <= i < |s[1..]| ==> s[1..][i] == s[i + 1];
      DroppedDistinct(s[1..], phrase);
      var rest := Dropped(s[1..], phrase);
      forall j | 0 <= j < |rest| ensures rest[j] != s[0] { assert rest[j] in rest && rest[j] in s[1..]; }
    }
    var r := Dropped(s, phrase);
    forall i | 0 <= i < |r| ensures r[i] != phrase { assert r[i] in r; }
  }

  lemma LastDistinct(s: seq<Text>, n: nat)
    requires Distinct(s)
    ensures Distinct(Last(s, n)) && |Last(s, n)| <= n
  {
    var r := Last(s, n);
    forall i, j | 0 <= i < j < |r| ensures r[i] != r[j] { assert r[i] == s[|s| - |r| + i] && r[j] == s[|s| - |r| + j]; }
  }
}
