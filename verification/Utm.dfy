// The UTM builder of backend/app/services/utm.py against the payload check of
// backend/app/services/buffer_pinterest_adapter.py, at the level of decoded query pairs.
module Utm {
  type Pair = (string, string)

  // A URL as urlsplit and parse_qsl see it.
  datatype Url = Url(scheme: string, netloc: string, path: string, query: seq<Pair>, fragment: string)

  datatype Tags = Tags(source: string, medium: string, campaign: string, content: string)

  // ---------- A Python dict: insertion-ordered, one value a key ----------

  ghost predicate DistinctKeys(d: seq<Pair>) {
    forall i, j :: 0 <= i < j < |d| ==> d[i].0 != d[j].0
  }

  ghost predicate HasKey(d: seq<Pair>, key: string) {
    exists i :: 0 <= i < |d| && d[i].0 == key
  }

  // d[key] = value: an existing key keeps its place, a new one goes last.
  function Put(d: seq<Pair>, key: string, value: string): seq<Pair> {
    if d == [] then [(key, value)]
    else if d[0].0 == key then [(key, value)] + d[1..]
    else [d[0]] + Put(d[1..], key, value)
  }

  lemma {:induction false} PutNewKey(d: seq<Pair>, key: string, value: string)
    requires !HasKey(d, key)
    ensures Put(d, key, value) == d + [(key, value)]
    decreases |d|
  {
    if d != [] {
      assert d[0].0 != key;
      forall i | 0 <= i < |d[1..]| ensures d[1..][i].0 != key {
        assert d[1..][i] == d[i + 1];
      }
      PutNewKey(d[1..], key, value);
    }
  }

  lemma {:induction false} PutOldKey(d: seq<Pair>, key: string, value: string)
    requires HasKey(d, key)
    ensures |Put(d, key, value)| == |d|
    ensures forall i :: 0 <= i < |d| ==> Put(d, key, value)[i].0 == d[i].0
    decreases |d|
  {
    if d[0].0 != key {
      var i :| 0 <= i < |d| && d[i].0 == key;
      assert d[1..][i - 1].0 == key;
      PutOldKey(d[1..], key, value);
    }
  }

  lemma PutKeepsDistinct(d: seq<Pair>, key: string, value: string)
    requires DistinctKeys(d)
    ensures DistinctKeys(Put(d, key, value))
  {
    if HasKey(d, key) {
      PutOldKey(d, key, value);
    } else {
      PutNewKey(d, key, value);
    }
  }

  lemma {:induction false} PutStores(d: seq<Pair>, key: string, value: string, other: Pair)
    ensures (key, value) in Put(d, key, value)
    ensures other.0 != key && other in d ==> other in Put(d, key, value)
    decreases |d|
  {
    if d != [] && d[0].0 != key {
      PutStores(d[1..], key, value, other);
    }
  }

  lemma {:induction false} PutAgain(d: seq<Pair>, key: string, value: string)
    requires DistinctKeys(d) && (key, value) in d
    ensures Put(d, key, value) == d
    decreases |d|
  {
    if d[0].0 == key {
      var i :| 0 <= i < |d| && d[i] == (key, value);
      assert i == 0;
    } else {
      PutAgain(d[1..], key, value);
    }
  }

  // dict(pairs)
  function DictOf(pairs: seq<Pair>): seq<Pair> {
    if pairs == [] then []
    else var last := pairs[|pairs| - 1]; Put(DictOf(pairs[..|pairs| - 1]), last.0, last.1)
  }

  // A dict keeps every pair exactly when the keys are pairwise distinct.
  lemma {:induction false} DictLosesRepeatedKeys(pairs: seq<Pair>)
    ensures DistinctKeys(DictOf(pairs)) && |DictOf(pairs)| <= |pairs|
    ensures forall key :: HasKey(DictOf(pairs), key) <==> HasKey(pairs, key)
    ensures |DictOf(pairs)| == |pairs| <==> DistinctKeys(pairs)
    ensures DistinctKeys(pairs) ==> DictOf(pairs) == pairs
    decreases |pairs|
  {
    if pairs != [] {
      var front, last := pairs[..|pairs| - 1], pairs[|pairs| - 1];
      DictLosesRepeatedKeys(front);
      PutKeepsDistinct(DictOf(front), last.0, last.1);
      assert pairs == front + [last];
      if HasKey(front, last.0) {
        PutOldKey(DictOf(front), last.0, last.1);
        var i :| 0 <= i < |front| && front[i].0 == last.0;
        assert pairs[i].0 == pairs[|pairs| - 1].0;
      } else {
        PutNewKey(DictOf(front), last.0, last.1);
        assert DistinctKeys(front) <==> DistinctKeys(pairs);
      }
      KeysOfAppend(front, last);
      KeysOfAppend(DictOf(front), last);
      SameKeys(DictOf(pairs), DictOf(front), last);
    }
  }

  lemma KeysOfAppend(d: seq<Pair>, p: Pair)
    ensures forall key :: HasKey(d + [p], key) <==> HasKey(d, key) || key == p.0
  {
    assert (d + [p])[|d|] == p;
    forall key | HasKey(d, key) ensures HasKey(d + [p], key) {
      var i :| 0 <= i < |d| && d[i].0 == key;
      assert (d + [p])[i].0 == key;
    }
  }

  lemma SameKeys(after: seq<Pair>, d: seq<Pair>, p: Pair)
    requires after == Put(d, p.0, p.1)
    ensures forall key :: HasKey(after, key) <==> HasKey(d, key) || key == p.0
  {
    if HasKey(d, p.0) {
      PutOldKey(d, p.0, p.1);
      forall key ensures HasKey(after, key) <==> HasKey(d, key) {
        if i :| 0 <= i < |d| && d[i].0 == key {
          assert after[i].0 == key;
        }
        if i :| 0 <= i < |after| && after[i].0 == key {
          assert d[i].0 == key;
        }
      }
    } else {
      PutNewKey(d, p.0, p.1);
      KeysOfAppend(d, p);
    }
  }

  // ---------- The builder ----------

  const UTM_SOURCE := "utm_source"
  const UTM_MEDIUM := "utm_medium"
  const UTM_CAMPAIGN := "utm_campaign"
  const UTM_CONTENT := "utm_content"

  function Tagged(d: seq<Pair>, t: Tags): seq<Pair> {
    Put(Put(Put(Put(d, UTM_SOURCE, t.source), UTM_MEDIUM, t.medium), UTM_CAMPAIGN, t.campaign), UTM_CONTENT, t.content)
  }

  function TrackedUrl(destination: Url, t: Tags): Url {
    destination.(query := Tagged(DictOf(destination.query), t))
  }

  method BuildPinterestUtmUrl(destination: Url, t: Tags) returns (url: Url)
    ensures url == TrackedUrl(destination, t)
  {
    var query: seq<Pair> := [];
    for i := 0 to |destination.query|
      invariant query == DictOf(destination.query[..i])
    {
      query := Put(query, destination.query[i].0, destination.query[i].1);
      assert destination.query[..i + 1][..i] == destination.query[..i];
    }
    assert destination.query[..|destination.query|] == destination.query;
    query := Put(query, UTM_SOURCE, t.source);
    query := Put(query, UTM_MEDIUM, t.medium);
    query := Put(query, UTM_CAMPAIGN, t.campaign);
    query := Put(query, UTM_CONTENT, t.content);
    url := Url(destination.scheme, destination.netloc, destination.path, query, destination.fragment);
  }

  // ---------- The payload comparison ----------

  function Lower(c: char): char {
    if 'A' <= c <= 'Z' then (c as int + 32) as char else c
  }

  // key.lower().startswith("utm_")
  predicate IsUtm(key: string) {
    |key| >= 4 && Lower(key[0]) == 'u' && Lower(key[1]) == 't' && Lower(key[2]) == 'm' && key[3] == '_'
  }

  function NonUtm(pairs: seq<Pair>): seq<Pair> {
    if pairs == [] then []
    else (if IsUtm(pairs[0].0) then [] else [pairs[0]]) + NonUtm(pairs[1..])
  }

  // The comparisons of build_pinterest_payload; Counter equality is multiset equality.
  predicate PayloadAccepts(destination: Url, tracked: Url) {
    && destination.scheme == tracked.scheme && destination.netloc == tracked.netloc && destination.path == tracked.path
    && multiset(NonUtm(destination.query)) == multiset(NonUtm(tracked.query))
    && destination.fragment == tracked.fragment
  }

  lemma {:induction false} NonUtmOfAppend(pairs: seq<Pair>, p: Pair)
    ensures NonUtm(pairs + [p]) == NonUtm(pairs) + (if IsUtm(p.0) then [] else [p])
    decreases |pairs|
  {
    if pairs == [] {
      assert pairs + [p] == [p];
      assert NonUtm([p]) == if IsUtm(p.0) then [] else [p];
    } else {
      var rest, first := NonUtm(pairs[1..]), if IsUtm(pairs[0].0) then [] else [pairs[0]];
      var last := if IsUtm(p.0) then [] else [p];
      NonUtmOfAppend(pairs[1..], p);
      assert (pairs + [p])[1..] == pairs[1..] + [p];
      assert first + (rest + last) == (first + rest) + last;
    }
  }

  lemma {:induction false} NonUtmOfPut(d: seq<Pair>, key: string, value: string)
    ensures NonUtm(Put(d, key, value)) == if IsUtm(key) then NonUtm(d) else Put(NonUtm(d), key, value)
    decreases |d|
  {
    if d != [] {
      if d[0].0 == key {
        assert ([(key, value)] + d[1..])[1..] == d[1..];
      } else {
        NonUtmOfPut(d[1..], key, value);
        assert ([d[0]] + Put(d[1..], key, value))[1..] == Put(d[1..], key, value);
        if IsUtm(d[0].0) {
          assert NonUtm(d) == NonUtm(d[1..]);
        } else {
          assert NonUtm(d) == [d[0]] + NonUtm(d[1..]) && NonUtm(d)[1..] == NonUtm(d[1..]);
        }
      }
    }
  }

  lemma {:induction false} NonUtmOfDict(pairs: seq<Pair>)
    ensures NonUtm(DictOf(pairs)) == DictOf(NonUtm(pairs))
    decreases |pairs|
  {
    if pairs != [] {
      var front, last := pairs[..|pairs| - 1], pairs[|pairs| - 1];
      NonUtmOfDict(front);
      NonUtmOfPut(DictOf(front), last.0, last.1);
      NonUtmOfAppend(front, last);
      assert pairs == front + [last];
      if !IsUtm(last.0) {
        assert NonUtm(pairs)[..|NonUtm(pairs)| - 1] == NonUtm(front);
      } else {
        assert NonUtm(pairs) == NonUtm(front);
      }
    }
  }

  lemma TagsAreUtm()
    ensures IsUtm(UTM_SOURCE) && IsUtm(UTM_MEDIUM) && IsUtm(UTM_CAMPAIGN) && IsUtm(UTM_CONTENT)
  {
  }

  lemma NonUtmIgnoresTag(d: seq<Pair>, key: string, value: string)
    requires IsUtm(key)
    ensures NonUtm(Put(d, key, value)) == NonUtm(d)
  {
    NonUtmOfPut(d, key, value);
  }

  lemma NonUtmOfTagged(d: seq<Pair>, t: Tags)
    ensures NonUtm(Tagged(d, t)) == NonUtm(d)
  {
    var a := Put(d, UTM_SOURCE, t.source);
    var b := Put(a, UTM_MEDIUM, t.medium);
    var c := Put(b, UTM_CAMPAIGN, t.campaign);
    TagsAreUtm();
    NonUtmIgnoresTag(d, UTM_SOURCE, t.source);
    NonUtmIgnoresTag(a, UTM_MEDIUM, t.medium);
    NonUtmIgnoresTag(b, UTM_CAMPAIGN, t.campaign);
    NonUtmIgnoresTag(c, UTM_CONTENT, t.content);
  }

  // The built URL passes the comparison exactly when the destination's own keys are pairwise distinct.
  lemma BuiltUrlAcceptedIffKeysDistinct(destination: Url, t: Tags)
    ensures PayloadAccepts(destination, TrackedUrl(destination, t)) <==> DistinctKeys(NonUtm(destination.query))
  {
    var own := NonUtm(destination.query);
    NonUtmOfTagged(DictOf(destination.query), t);
    NonUtmOfDict(destination.query);
    DictLosesRepeatedKeys(own);
    if multiset(own) == multiset(DictOf(own)) {
      assert |multiset(own)| == |own| && |multiset(DictOf(own))| == |DictOf(own)|;
    }
  }

  // ---------- Building twice ----------

  lemma TaggedIsStable(d: seq<Pair>, t: Tags)
    requires DistinctKeys(d)
    ensures DistinctKeys(Tagged(d, t)) && Tagged(Tagged(d, t), t) == Tagged(d, t)
  {
    var a := Put(d, UTM_SOURCE, t.source);
    var b := Put(a, UTM_MEDIUM, t.medium);
    var c := Put(b, UTM_CAMPAIGN, t.campaign);
    var e := Put(c, UTM_CONTENT, t.content);
    PutKeepsDistinct(d, UTM_SOURCE, t.source);
    PutKeepsDistinct(a, UTM_MEDIUM, t.medium);
    PutKeepsDistinct(b, UTM_CAMPAIGN, t.campaign);
    PutKeepsDistinct(c, UTM_CONTENT, t.content);
    PutStores(d, UTM_SOURCE, t.source, (UTM_SOURCE, t.source));
    PutStores(a, UTM_MEDIUM, t.medium, (UTM_SOURCE, t.source));
    PutStores(b, UTM_CAMPAIGN, t.campaign, (UTM_SOURCE, t.source));
    PutStores(b, UTM_CAMPAIGN, t.campaign, (UTM_MEDIUM, t.medium));
    PutStores(c, UTM_CONTENT, t.content, (UTM_SOURCE, t.source));
    PutStores(c, UTM_CONTENT, t.content, (UTM_MEDIUM, t.medium));
    PutStores(c, UTM_CONTENT, t.content, (UTM_CAMPAIGN, t.campaign));
    PutAgain(e, UTM_SOURCE, t.source);
    PutAgain(e, UTM_MEDIUM, t.medium);
    PutAgain(e, UTM_CAMPAIGN, t.campaign);
    PutAgain(e, UTM_CONTENT, t.content);
  }

  lemma BuildingTwiceIsBuildingOnce(destination: Url, t: Tags)
    ensures TrackedUrl(TrackedUrl(destination, t), t) == TrackedUrl(destination, t)
  {
    DictLosesRepeatedKeys(destination.query);
    TaggedIsStable(DictOf(destination.query), t);
    DictLosesRepeatedKeys(Tagged(DictOf(destination.query), t));
  }

  // ---------- The built query in pairs ----------

  // The position of a key's first pair, or the length when there is none.
  function First(pairs: seq<Pair>, key: string): (n: nat)
    ensures n <= |pairs|
  {
    if pairs == [] || pairs[0].0 == key then 0 else 1 + First(pairs[1..], key)
  }

  lemma {:induction false} FirstOfAppend(pairs: seq<Pair>, p: Pair, key: string)
    ensures First(pairs + [p], key) == First(pairs, key) + (if HasKey(pairs + [p], key) then 0 else 1)
    ensures First(pairs, key) < |pairs| <==> HasKey(pairs, key)
    decreases |pairs|
  {
    if pairs == [] {
      assert ([p])[1..] == [];
    } else {
      assert (pairs + [p])[1..] == pairs[1..] + [p];
      FirstOfAppend(pairs[1..], p, key);
      HasKeyInRest(pairs, key);
      HasKeyInRest(pairs + [p], key);
    }
  }

  lemma HasKeyInRest(pairs: seq<Pair>, key: string)
    requires pairs != []
    ensures HasKey(pairs, key) <==> pairs[0].0 == key || HasKey(pairs[1..], key)
  {
    if i :| 0 <= i < |pairs[1..]| && pairs[1..][i].0 == key {
      assert pairs[i + 1].0 == key;
    }
    if i :| 0 <= i < |pairs| && pairs[i].0 == key {
      assert i > 0 ==> pairs[1..][i - 1].0 == key;
    }
  }

  ghost predicate IsLast(pairs: seq<Pair>, p: Pair) {
    exists i :: 0 <= i < |pairs| && pairs[i] == p && forall j :: i < j < |pairs| ==> pairs[j].0 != p.0
  }

  // A dictionary of these pairs: every key once, in the order of first appearance, with the value given last.
  ghost predicate DictionaryOf(d: seq<Pair>, pairs: seq<Pair>) {
    && InOrder(d, pairs) && (forall i :: 0 <= i < |d| ==> IsLast(pairs, d[i]))
    && (forall k :: 0 <= k < |pairs| ==> HasKey(d, pairs[k].0))
  }

  ghost predicate InOrder(d: seq<Pair>, pairs: seq<Pair>) {
    forall i, j :: 0 <= i < j < |d| ==> d[i].0 != d[j].0 && First(pairs, d[i].0) < First(pairs, d[j].0)
  }

  lemma LastOfAppend(pairs: seq<Pair>, p: Pair, other: Pair)
    ensures IsLast(pairs + [p], p)
    ensures other.0 != p.0 && IsLast(pairs, other) ==> IsLast(pairs + [p], other)
  {
    assert (pairs + [p])[|pairs|] == p;
    if other.0 != p.0 && IsLast(pairs, other) {
      var i :| 0 <= i < |pairs| && pairs[i] == other && forall j :: i < j < |pairs| ==> pairs[j].0 != other.0;
      assert (pairs + [p])[i] == other;
    }
  }

  // Putting a pair into a dictionary: the keys stay where they are, or the new one goes last.
  lemma {:induction false} PutIs(d: seq<Pair>, p: Pair, d': seq<Pair>)
    requires d' == Put(d, p.0, p.1) && DistinctKeys(d)
    ensures HasKey(d, p.0) ==> |d'| == |d| && forall i :: 0 <= i < |d| ==> d'[i] == if d[i].0 == p.0 then p else d[i]
    ensures !HasKey(d, p.0) ==> d' == d + [p]
    decreases |d|
  {
    if !HasKey(d, p.0) {
      PutNewKey(d, p.0, p.1);
    } else if d[0].0 != p.0 {
      HasKeyInRest(d, p.0);
      PutIs(d[1..], p, Put(d[1..], p.0, p.1));
    }
  }

  lemma OldKeyStays(d: seq<Pair>, pairs: seq<Pair>, p: Pair, i: nat)
    requires DictionaryOf(d, pairs) && !HasKey(d, p.0) && i < |d|
    ensures d[i].0 != p.0 && IsLast(pairs + [p], d[i])
    ensures First(pairs + [p], d[i].0) == First(pairs, d[i].0) < |pairs|
  {
    LastOfAppend(pairs, p, d[i]);
    FirstOfAppend(pairs, p, d[i].0);
    assert HasKey(pairs, d[i].0);
    KeysOfAppend(pairs, p);
  }

  lemma NewKeyIsLast(d: seq<Pair>, pairs: seq<Pair>, p: Pair)
    requires DictionaryOf(d, pairs) && !HasKey(d, p.0)
    ensures First(pairs + [p], p.0) == |pairs|
  {
    assert !HasKey(pairs, p.0);
    FirstOfAppend(pairs, p, p.0);
    assert (pairs + [p])[|pairs|].0 == p.0;
  }

  lemma AppendKeepsOrder(d: seq<Pair>, pairs: seq<Pair>, p: Pair)
    requires DictionaryOf(d, pairs) && !HasKey(d, p.0)
    ensures DictionaryOf(d + [p], pairs + [p])
  {
    var d', pairs' := d + [p], pairs + [p];
    NewKeyIsLast(d, pairs, p);
    LastOfAppend(pairs, p, p);
    forall i, j | 0 <= i < j < |d'| ensures d'[i].0 != d'[j].0 && First(pairs', d'[i].0) < First(pairs', d'[j].0) {
      OldKeyStays(d, pairs, p, i);
      if j < |d| {
        OldKeyStays(d, pairs, p, j);
      }
    }
    forall i | 0 <= i < |d'| ensures IsLast(pairs', d'[i]) {
      if i < |d| {
        OldKeyStays(d, pairs, p, i);
      }
    }
    KeysOfAppend(d, p);
  }

  lemma ReplaceKeepsOrder(d: seq<Pair>, pairs: seq<Pair>, p: Pair, d': seq<Pair>)
    requires DictionaryOf(d, pairs) && HasKey(d, p.0) && |d'| == |d|
    requires forall i :: 0 <= i < |d| ==> d'[i] == if d[i].0 == p.0 then p else d[i]
    ensures DictionaryOf(d', pairs + [p])
  {
    var pairs' := pairs + [p];
    KeysOfAppend(pairs, p);
    forall i | 0 <= i < |d'| ensures IsLast(pairs', d'[i]) {
      LastOfAppend(pairs, p, d[i]);
    }
    forall i | 0 <= i < |d| ensures First(pairs', d'[i].0) == First(pairs, d[i].0) {
      FirstOfAppend(pairs, p, d[i].0);
      assert HasKey(pairs, d[i].0);
    }
    forall k | 0 <= k < |pairs'| ensures HasKey(d', pairs'[k].0) {
      assert HasKey(d, pairs'[k].0);
      var i :| 0 <= i < |d| && d[i].0 == pairs'[k].0;
      assert d'[i].0 == pairs'[k].0;
    }
  }

  lemma PutKeepsOrder(d: seq<Pair>, pairs: seq<Pair>, p: Pair)
    requires DictionaryOf(d, pairs)
    ensures DictionaryOf(Put(d, p.0, p.1), pairs + [p])
  {
    PutIs(d, p, Put(d, p.0, p.1));
    if HasKey(d, p.0) {
      ReplaceKeepsOrder(d, pairs, p, Put(d, p.0, p.1));
    } else {
      AppendKeepsOrder(d, pairs, p);
    }
  }

  lemma {:induction false} DictIsDictionary(pairs: seq<Pair>)
    ensures DictionaryOf(DictOf(pairs), pairs)
    decreases |pairs|
  {
    if pairs != [] {
      var front, last := pairs[..|pairs| - 1], pairs[|pairs| - 1];
      DictIsDictionary(front);
      PutKeepsOrder(DictOf(front), front, last);
      assert pairs == front + [last];
    }
  }

  // The built URL differs from the destination in its query alone, and that is the dictionary of the destination's
  // pairs followed by the four tags: a repeated key keeps its first place and its last value, a tag that is already
  // there keeps its place, and the missing ones come last, in this order.
  lemma BuiltUrlIs(destination: Url, t: Tags)
    ensures var url := TrackedUrl(destination, t);
      && url.scheme == destination.scheme && url.netloc == destination.netloc
      && url.path == destination.path && url.fragment == destination.fragment
      && DictionaryOf(url.query, destination.query
           + [("utm_source", t.source), ("utm_medium", t.medium)]
           + [("utm_campaign", t.campaign), ("utm_content", t.content)])
  {
    var q := destination.query;
    var one := q + [("utm_source", t.source)];
    var two := one + [("utm_medium", t.medium)];
    var three := two + [("utm_campaign", t.campaign)];
    DictIsDictionary(q);
    PutKeepsOrder(DictOf(q), q, ("utm_source", t.source));
    PutKeepsOrder(Put(DictOf(q), "utm_source", t.source), one, ("utm_medium", t.medium));
    PutKeepsOrder(Put(Put(DictOf(q), "utm_source", t.source), "utm_medium", t.medium), two,
      ("utm_campaign", t.campaign));
    PutKeepsOrder(
      Put(Put(Put(DictOf(q), "utm_source", t.source), "utm_medium", t.medium), "utm_campaign", t.campaign), three,
      ("utm_content", t.content));
    assert three + [("utm_content", t.content)] == q
      + [("utm_source", t.source), ("utm_medium", t.medium)]
      + [("utm_campaign", t.campaign), ("utm_content", t.content)];
  }

  // Two dictionaries of the same pairs hold the same.
  lemma DictionaryIsUnique(d: seq<Pair>, e: seq<Pair>, pairs: seq<Pair>)
    requires DictionaryOf(d, pairs) && DictionaryOf(e, pairs)
    ensures forall p :: p in d ==> p in e
  {
    forall p | p in d ensures p in e {
      var i :| 0 <= i < |pairs| && pairs[i] == p && forall j :: i < j < |pairs| ==> pairs[j].0 != p.0;
      assert HasKey(e, pairs[i].0);
      var k :| 0 <= k < |e| && e[k].0 == p.0;
      var j :| 0 <= j < |pairs| && pairs[j] == e[k] && forall l :: j < l < |pairs| ==> pairs[l].0 != e[k].0;
      assert i == j;
    }
  }

  // ---------- The comparison in pairs ----------

  lemma UtmKeysAre(key: string)
    ensures IsUtm(key) <==>
      && |key| >= 4 && (key[0] == 'u' || key[0] == 'U') && (key[1] == 't' || key[1] == 'T')
      && (key[2] == 'm' || key[2] == 'M') && key[3] == '_'
  {
    assert 'U' as int + 32 == 'u' as int && 'T' as int + 32 == 't' as int && 'M' as int + 32 == 'm' as int;
  }

  lemma {:induction false} NonUtmCounts(pairs: seq<Pair>, p: Pair)
    ensures multiset(NonUtm(pairs))[p] == if IsUtm(p.0) then 0 else multiset(pairs)[p]
    decreases |pairs|
  {
    if pairs != [] {
      NonUtmCounts(pairs[1..], p);
      assert pairs == [pairs[0]] + pairs[1..];
      if !IsUtm(pairs[0].0) {
        assert NonUtm(pairs) == [pairs[0]] + NonUtm(pairs[1..]);
      } else {
        assert NonUtm(pairs) == NonUtm(pairs[1..]);
      }
    }
  }

  // The comparison passes exactly when both have the same parts and every pair with another key equally often.
  lemma PayloadAcceptsIff(destination: Url, tracked: Url)
    ensures PayloadAccepts(destination, tracked) <==>
      && tracked.scheme == destination.scheme && tracked.netloc == destination.netloc
      && tracked.path == destination.path && tracked.fragment == destination.fragment
      && forall p: Pair :: !IsUtm(p.0) ==> multiset(destination.query)[p] == multiset(tracked.query)[p]
  {
    var own, theirs := multiset(NonUtm(destination.query)), multiset(NonUtm(tracked.query));
    forall p: Pair ensures own[p] == theirs[p] <==>
      (IsUtm(p.0) || multiset(destination.query)[p] == multiset(tracked.query)[p])
    {
      NonUtmCounts(destination.query, p);
      NonUtmCounts(tracked.query, p);
    }
    if forall p: Pair :: !IsUtm(p.0) ==> multiset(destination.query)[p] == multiset(tracked.query)[p] {
      forall p: Pair ensures own[p] == theirs[p] {
        assert IsUtm(p.0) || multiset(destination.query)[p] == multiset(tracked.query)[p];
      }
      assert own == theirs;
    }
  }
}
