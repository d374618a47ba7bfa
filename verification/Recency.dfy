/** What an LRU cache means, on values: the list of its entries, most recently used first.
    The class `Lru.Cache` is proved against these functions; here they are proved to have the
    stack property of LRU for every trace of read-through accesses. */
module Recency {
  import opened Basics

  datatype Pair = Pair(key: string, value: Bytes)

  function Size(e: Pair): nat {
    |e.key| + |e.value|
  }

  function Total(es: seq<Pair>): nat {
    if es == [] then 0 else Size(es[0]) + Total(es[1..])
  }

  /** A bound of zero means that the cache is unlimited. */
  predicate Fits(es: seq<Pair>, max: nat) {
    max == 0 || Total(es) <= max
  }

  ghost predicate DistinctKeys(es: seq<Pair>) {
    forall i, j :: 0 <= i < j < |es| ==> es[i].key != es[j].key
  }

  /** The position of `key`, or the length of the list when it is absent. */
  function IndexOf(es: seq<Pair>, key: string): (i: nat)
    ensures i <= |es|
    ensures i < |es| ==> es[i].key == key
    ensures forall j :: 0 <= j < i ==> es[j].key != key
  {
    if es == [] || es[0].key == key then 0 else 1 + IndexOf(es[1..], key)
  }

  predicate Has(es: seq<Pair>, key: string) {
    IndexOf(es, key) < |es|
  }

  ghost predicate LongestFitting(es: seq<Pair>, r: seq<Pair>, max: nat) {
    && r <= es
    && Fits(r, max)
    && (r != es ==> !Fits(es[..|r| + 1], max))
  }

  /** The eviction loop: entries leave from the old end until the rest fits.
      What stays is the longest prefix that fits, so no entry is evicted without need. */
  function Trim(es: seq<Pair>, max: nat): (r: seq<Pair>)
    ensures LongestFitting(es, r, max)
  {
    if Fits(es, max) then es
    else
      var shorter := es[..|es| - 1];
      var r := Trim(shorter, max);
      assert r != shorter ==> es[..|r| + 1] == shorter[..|r| + 1];
      assert r == shorter ==> es[..|r| + 1] == es;
      r
  }

  function Get(es: seq<Pair>, key: string): seq<Pair> {
    var i := IndexOf(es, key);
    if i < |es| then [es[i]] + RemoveAt(es, i) else es
  }

  /** `Add` before eviction: the entry is new at the front, or moves there with a new value. */
  function Front(es: seq<Pair>, key: string, value: Bytes): seq<Pair> {
    var i := IndexOf(es, key);
    [Pair(key, value)] + if i < |es| then RemoveAt(es, i) else es
  }

  function Add(es: seq<Pair>, key: string, value: Bytes, max: nat): seq<Pair> {
    Trim(Front(es, key, value), max)
  }

  /** The entries an `Add` evicts, oldest last. */
  function Evicted(es: seq<Pair>, key: string, value: Bytes, max: nat): seq<Pair> {
    Front(es, key, value)[|Add(es, key, value, max)|..]
  }

  // ---------------------------------------------------------------------------------
  // Sizes and keys

  lemma TotalConcat(a: seq<Pair>, b: seq<Pair>)
    ensures Total(a + b) == Total(a) + Total(b)
  {
    if a == [] {
      assert a + b == b;
    } else {
      assert (a + b)[1..] == a[1..] + b;
      TotalConcat(a[1..], b);
    }
  }

  lemma {:induction false} TotalRemoveAt(es: seq<Pair>, i: nat)
    requires i < |es|
    ensures Total(RemoveAt(es, i)) + Size(es[i]) == Total(es)
  {
    assert es == es[..i] + ([es[i]] + es[i + 1..]);
    TotalConcat(es[..i], [es[i]] + es[i + 1..]);
    TotalConcat([es[i]], es[i + 1..]);
    TotalConcat(es[..i], es[i + 1..]);
  }

  lemma TotalPrefix(r: seq<Pair>, es: seq<Pair>)
    requires r <= es
    ensures Total(r) <= Total(es)
  {
    assert es == r + es[|r|..];
    TotalConcat(r, es[|r|..]);
  }

  lemma LongestFittingUnique(es: seq<Pair>, r: seq<Pair>, r': seq<Pair>, max: nat)
    requires LongestFitting(es, r, max) && LongestFitting(es, r', max)
    ensures r == r'
  {
    if |r| < |r'| {
      TotalPrefix(es[..|r| + 1], r');
    } else if |r'| < |r| {
      TotalPrefix(es[..|r'| + 1], r);
    }
  }

  lemma HasMember(es: seq<Pair>, i: nat)
    requires i < |es|
    ensures Has(es, es[i].key)
    ensures DistinctKeys(es) ==> IndexOf(es, es[i].key) == i
  {
    var j := IndexOf(es, es[i].key);
    assert j <= i;
  }

  lemma {:induction false} FrontDistinct(es: seq<Pair>, key: string, value: Bytes)
    requires DistinctKeys(es)
    ensures DistinctKeys(Front(es, key, value))
    ensures DistinctKeys(Get(es, key))
  {
    var i := IndexOf(es, key);
    if i < |es| {
      RestDistinct(es, i);
      HeadDistinct(Pair(key, value), RemoveAt(es, i));
      HeadDistinct(es[i], RemoveAt(es, i));
    } else {
      HeadDistinct(Pair(key, value), es);
    }
  }

  lemma {:induction false} RestDistinct(es: seq<Pair>, i: nat)
    requires DistinctKeys(es) && i < |es|
    ensures DistinctKeys(RemoveAt(es, i))
    ensures forall a :: 0 <= a < |es| - 1 ==> RemoveAt(es, i)[a].key != es[i].key
  {
    var rest := RemoveAt(es, i);
    assert forall a :: 0 <= a < |rest| ==> rest[a] == es[if a < i then a else a + 1];
  }

  lemma {:induction false} HeadDistinct(e: Pair, rest: seq<Pair>)
    requires DistinctKeys(rest) && forall a :: 0 <= a < |rest| ==> rest[a].key != e.key
    ensures DistinctKeys([e] + rest)
  {
    var es := [e] + rest;
    assert forall a :: 0 < a < |es| ==> es[a] == rest[a - 1];
  }

  // ---------------------------------------------------------------------------------
  // What `Get` and `Add` are for, without the list operations they are made of

  /** The entries of the other keys, in their order. */
  function Without(es: seq<Pair>, key: string): seq<Pair> {
    if es == [] then []
    else if es[0].key == key then Without(es[1..], key)
    else [es[0]] + Without(es[1..], key)
  }

  lemma WithoutConcat(a: seq<Pair>, b: seq<Pair>, key: string)
    ensures Without(a + b, key) == Without(a, key) + Without(b, key)
  {
    if a == [] {
      assert a + b == b;
    } else {
      assert (a + b)[1..] == a[1..] + b;
      WithoutConcat(a[1..], b, key);
    }
  }

  lemma WithoutAbsent(es: seq<Pair>, key: string)
    requires forall i :: 0 <= i < |es| ==> es[i].key != key
    ensures Without(es, key) == es
  {
    if es != [] {
      WithoutAbsent(es[1..], key);
    }
  }

  lemma {:induction false} WithoutPresent(es: seq<Pair>, i: nat)
    requires DistinctKeys(es) && i < |es|
    ensures Without(es, es[i].key) == RemoveAt(es, i)
  {
    var key, before, behind := es[i].key, es[..i], es[i + 1..];
    assert es == before + ([es[i]] + behind);
    WithoutConcat(before, [es[i]] + behind, key);
    WithoutConcat([es[i]], behind, key);
    WithoutAbsent(before, key);
    WithoutAbsent(behind, key);
  }

  /** All keys, and all values, one behind the other. */
  function KeyText(es: seq<Pair>): string {
    if es == [] then [] else es[0].key + KeyText(es[1..])
  }

  function ValueBytes(es: seq<Pair>): Bytes {
    if es == [] then [] else es[0].value + ValueBytes(es[1..])
  }

  /** What fits is measured by the bytes of keys and values together. */
  lemma {:induction false} FitsIff(es: seq<Pair>, max: nat)
    ensures Fits(es, max) <==> max == 0 || |KeyText(es)| + |ValueBytes(es)| <= max
  {
    TotalIsBytes(es);
  }

  lemma {:induction false} TotalIsBytes(es: seq<Pair>)
    ensures Total(es) == |KeyText(es)| + |ValueBytes(es)|
  {
    if es != [] {
      TotalIsBytes(es[1..]);
    }
  }

  lemma {:induction false} WithoutAt(es: seq<Pair>, key: string)
    requires DistinctKeys(es)
    ensures var i := IndexOf(es, key); Without(es, key) == if i < |es| then RemoveAt(es, i) else es
  {
    var i := IndexOf(es, key);
    if i < |es| {
      WithoutPresent(es, i);
    } else {
      WithoutAbsent(es, key);
    }
  }

  /** After `Add` the cache holds the longest prefix that fits of the new pair and, behind it, the
      entries of the other keys as they were. An old value of the key is gone. */
  lemma {:induction false} AddIs(es: seq<Pair>, key: string, value: Bytes, max: nat)
    requires DistinctKeys(es)
    ensures LongestFitting([Pair(key, value)] + Without(es, key), Add(es, key, value, max), max)
    ensures max == 0 ==> Add(es, key, value, max) == [Pair(key, value)] + Without(es, key)
  {
    WithoutAt(es, key);
  }

  /** The entries an `Add` evicts are those that are left over of the same list. */
  lemma {:induction false} EvictedIs(es: seq<Pair>, key: string, value: Bytes, max: nat)
    requires DistinctKeys(es)
    ensures Add(es, key, value, max) + Evicted(es, key, value, max) == [Pair(key, value)] + Without(es, key)
  {
    WithoutAt(es, key);
  }

  /** A pair that fits by itself is first after its `Add`, and a `Get` of its key gives its value. */
  lemma {:induction false} AddedIsFound(es: seq<Pair>, key: string, value: Bytes, max: nat)
    requires DistinctKeys(es) && Fits([Pair(key, value)], max)
    ensures var r := Add(es, key, value, max);
            && r != [] && r[0] == Pair(key, value)
            && Has(r, key) && r[IndexOf(r, key)].value == value
  {
    AddIs(es, key, value, max);
    var all, r := [Pair(key, value)] + Without(es, key), Add(es, key, value, max);
    assert all[..1] == [Pair(key, value)];
    assert r != [] ==> r[0] == all[0];
  }

  /** Whatever other entry is in the cache after an `Add` was in it before, in the same order. */
  lemma {:induction false} AddKeepsOthers(es: seq<Pair>, key: string, value: Bytes, max: nat)
    requires DistinctKeys(es)
    ensures Without(Add(es, key, value, max), key) <= Without(es, key)
  {
    AddIs(es, key, value, max);
    var r := Add(es, key, value, max);
    WithoutHasNone(es, key);
    if r != [] {
      assert r[0] == Pair(key, value) && r[1..] <= Without(es, key);
      WithoutAbsent(r[1..], key);
    }
  }

  lemma {:induction false} WithoutHasNone(es: seq<Pair>, key: string)
    ensures forall i :: 0 <= i < |Without(es, key)| ==> Without(es, key)[i].key != key && Without(es, key)[i] in es
  {
    if es != [] {
      WithoutHasNone(es[1..], key);
    }
  }

  /** A hit moves the entry to the front and changes nothing else; a miss changes nothing. */
  lemma {:induction false} GetIs(es: seq<Pair>, key: string)
    requires DistinctKeys(es)
    ensures if exists i :: 0 <= i < |es| && es[i].key == key
            then Get(es, key) != [] && Get(es, key)[0].key == key && Get(es, key)[0] in es &&
                 Get(es, key)[1..] == Without(es, key)
            else Get(es, key) == es
  {
    WithoutAt(es, key);
    var i := IndexOf(es, key);
    assert i < |es| ==> es[i] in es;
  }

  // ---------------------------------------------------------------------------------
  // The stack property

  type Source = string -> Option<Bytes>

  /** One read-through access: a hit moves the entry to the front, a miss loads and adds it.
      A key that cannot be loaded leaves the cache alone. */
  function Access(es: seq<Pair>, src: Source, max: nat, key: string): seq<Pair> {
    if Has(es, key) then Get(es, key)
    else match src(key)
      case None => es
      case Some(v) => Add(es, key, v, max)
  }

  function Content(src: Source, max: nat, trace: seq<string>): seq<Pair> {
    if trace == [] then []
    else Access(Content(src, max, trace[..|trace| - 1]), src, max, trace[|trace| - 1])
  }

  /** The distinct keys of the trace that can be loaded, latest access first. No cache is involved. */
  function Recent(src: Source, trace: seq<string>): seq<Pair> {
    if trace == [] then []
    else
      var key := trace[|trace| - 1];
      var before := Recent(src, trace[..|trace| - 1]);
      match src(key)
      case None => before
      case Some(v) => [Pair(key, v)] + Without(before, key)
  }

  ghost predicate FromSource(es: seq<Pair>, src: Source) {
    forall i :: 0 <= i < |es| ==> src(es[i].key) == Some(es[i].value)
  }

  lemma WithoutKeys(es: seq<Pair>, src: Source, key: string)
    requires DistinctKeys(es) && FromSource(es, src)
    ensures DistinctKeys(Without(es, key)) && FromSource(Without(es, key), src)
    ensures forall i :: 0 <= i < |Without(es, key)| ==> Without(es, key)[i].key != key
  {
    var i := IndexOf(es, key);
    if i < |es| {
      WithoutPresent(es, i);
      var r := RemoveAt(es, i);
      forall a | 0 <= a < |r| ensures r[a] == es[if a < i then a else a + 1] {}
    } else {
      WithoutAbsent(es, key);
    }
  }

  lemma RecentShape(src: Source, trace: seq<string>)
    ensures DistinctKeys(Recent(src, trace)) && FromSource(Recent(src, trace), src)
  {
    if trace != [] {
      RecentShape(src, trace[..|trace| - 1]);
      WithoutKeys(Recent(src, trace[..|trace| - 1]), src, trace[|trace| - 1]);
    }
  }

  lemma {:induction false} StackHit(all: seq<Pair>, es: seq<Pair>, max: nat, i: nat)
    requires DistinctKeys(all) && LongestFitting(all, es, max) && i < |es|
    ensures LongestFitting([es[i]] + Without(all, es[i].key), [es[i]] + RemoveAt(es, i), max)
  {
    var rest := all[|es|..];
    var es' := [es[i]] + RemoveAt(es, i);
    HitShape(all, es, i);
    TotalRemoveAt(es, i);
    TotalConcat([es[i]], RemoveAt(es, i));
    SameTotal(es, es', rest, max);
  }

  /** A hit reorders the entries that fit and leaves the rest where it is. */
  lemma {:induction false} HitShape(all: seq<Pair>, es: seq<Pair>, i: nat)
    requires DistinctKeys(all) && es <= all && i < |es|
    ensures all == es + all[|es|..]
    ensures [es[i]] + Without(all, es[i].key) == [es[i]] + RemoveAt(es, i) + all[|es|..]
  {
    WithoutPresent(all, i);
    assert RemoveAt(all, i) == RemoveAt(es, i) + all[|es|..];
  }

  lemma {:induction false} SameTotal(es: seq<Pair>, es': seq<Pair>, rest: seq<Pair>, max: nat)
    requires LongestFitting(es + rest, es, max) && |es'| == |es| && Total(es') == Total(es)
    ensures LongestFitting(es' + rest, es', max)
  {
    if rest != [] {
      assert (es + rest)[..|es| + 1] == es + [rest[0]];
      assert (es' + rest)[..|es'| + 1] == es' + [rest[0]];
      TotalConcat(es, [rest[0]]);
      TotalConcat(es', [rest[0]]);
    }
  }

  lemma StackMiss(all: seq<Pair>, es: seq<Pair>, max: nat, e: Pair)
    requires DistinctKeys(all) && LongestFitting(all, es, max) && !Has(es, e.key)
    requires forall i :: 0 <= i < |all| && all[i].key == e.key ==> all[i] == e
    ensures LongestFitting([e] + Without(all, e.key), Trim([e] + es, max), max)
  {
    var rest := all[|es|..];
    var grown := [e] + es;
    assert all == es + rest;
    WithoutConcat(es, rest, e.key);
    WithoutAbsent(es, e.key);
    assert [e] + Without(all, e.key) == grown + Without(rest, e.key);
    if Fits(grown, max) && Without(rest, e.key) != [] {
      assert rest[0] == all[|es|];
      NextDoesNotFit(es, rest, e, max);
    }
    TrimExtended(grown, Without(rest, e.key), max);
  }

  lemma NextDoesNotFit(es: seq<Pair>, rest: seq<Pair>, e: Pair, max: nat)
    requires rest != [] && !Fits((es + rest)[..|es| + 1], max)
    requires Fits([e] + es, max)
    requires rest[0].key == e.key ==> rest[0] == e
    ensures rest[0].key != e.key
    ensures Without(rest, e.key)[0] == rest[0]
    ensures !Fits([e] + es + [rest[0]], max)
  {
    assert (es + rest)[..|es| + 1] == es + [rest[0]];
    TotalConcat(es, [rest[0]]);
    TotalConcat([e], es);
    TotalConcat([e] + es, [rest[0]]);
  }

  lemma TrimExtended(es: seq<Pair>, rest: seq<Pair>, max: nat)
    requires Fits(es, max) && rest != [] ==> !Fits(es + [rest[0]], max)
    ensures LongestFitting(es + rest, Trim(es, max), max)
  {
    var r := Trim(es, max);
    if r != es {
      assert (es + rest)[..|r| + 1] == es[..|r| + 1];
    } else if rest != [] {
      assert (es + rest)[..|r| + 1] == es + [rest[0]];
    }
  }

  /** The stack property: after any trace the cache holds exactly the longest prefix of the
      recency list whose total size fits. */
  lemma {:induction false} StackProperty(src: Source, max: nat, trace: seq<string>)
    ensures LongestFitting(Recent(src, trace), Content(src, max, trace), max)
    ensures Content(src, max, trace) == Trim(Recent(src, trace), max)
  {
    if trace == [] {
    } else {
      var before, key := trace[..|trace| - 1], trace[|trace| - 1];
      StackProperty(src, max, before);
      RecentShape(src, before);
      var all, es := Recent(src, before), Content(src, max, before);
      var i := IndexOf(es, key);
      if i < |es| {
        assert all[i] == es[i];
        StackHit(all, es, max, i);
      } else if src(key).Some? {
        StackMiss(all, es, max, Pair(key, src(key).value));
      }
    }
    LongestFittingUnique(Recent(src, trace), Content(src, max, trace), Trim(Recent(src, trace), max), max);
  }

  /** A cache with a smaller bound holds a prefix of what a cache with a larger bound holds. */
  lemma Inclusion(src: Source, small: nat, large: nat, trace: seq<string>)
    requires large == 0 || 0 < small <= large
    ensures Content(src, small, trace) <= Content(src, large, trace)
  {
    StackProperty(src, small, trace);
    StackProperty(src, large, trace);
    var all, a, b := Recent(src, trace), Content(src, small, trace), Content(src, large, trace);
    if |b| < |a| {
      TotalPrefix(all[..|b| + 1], a);
    }
  }

  /** How often the source is asked along the trace. */
  function Loads(src: Source, max: nat, trace: seq<string>): nat {
    if trace == [] then 0
    else
      var before := trace[..|trace| - 1];
      Loads(src, max, before) + if Has(Content(src, max, before), trace[|trace| - 1]) then 0 else 1
  }

  /** Every hit of the smaller cache is a hit of the larger one, so a larger bound never costs loads. */
  lemma {:induction false} LargerIsNoWorse(src: Source, small: nat, large: nat, trace: seq<string>, key: string)
    requires large == 0 || 0 < small <= large
    ensures Has(Content(src, small, trace), key) ==> Has(Content(src, large, trace), key)
    ensures Loads(src, large, trace) <= Loads(src, small, trace)
  {
    Inclusion(src, small, large, trace);
    var i := IndexOf(Content(src, small, trace), key);
    if i < |Content(src, small, trace)| {
      assert Content(src, large, trace)[i].key == key;
      HasMember(Content(src, large, trace), i);
    }
    if trace != [] {
      LargerIsNoWorse(src, small, large, trace[..|trace| - 1], trace[|trace| - 1]);
    }
  }
}
