/** `bodos::unordered_map`: buckets of linked queues refine a finite map. */
module UnorderedMap {
  import opened LinkedQueue

  datatype Pair<K, V> = Pair(first: K, second: V)

  // ---------- Buckets as values ----------

  ghost predicate KeysDistinct<K, V>(s: seq<Pair<K, V>>) {
    forall i, j :: 0 <= i < j < |s| ==> s[i].first != s[j].first
  }

  /** Bucket `b` holds pairs of `m` that belong there, each key once. */
  ghost predicate BucketOf<K(!new), V>(s: seq<Pair<K, V>>, b: nat, n: nat, hash: K -> nat, m: map<K, V>)
    requires 0 < n
  {
    && KeysDistinct(s)
    && forall e :: e in s ==> hash(e.first) % n == b && e.first in m && m[e.first] == e.second
  }

  /** The buckets hold exactly the pairs of `m`: every pair in bucket hash(key) mod bucket count, once. */
  ghost predicate Refines<K(!new), V>(lists: seq<seq<Pair<K, V>>>, hash: K -> nat, m: map<K, V>) {
    && 0 < |lists|
    && (forall b :: 0 <= b < |lists| ==> BucketOf(lists[b], b, |lists|, hash, m))
    && (forall k :: k in m ==> Pair(k, m[k]) in lists[hash(k) % |lists|])
  }

  lemma {:induction false} WithoutMembers<T>(s: seq<T>, x: T, e: T)
    ensures e in Without(s, x) <==> e in s && e != x
  {
    if s != [] {
      WithoutMembers(s[..|s| - 1], x, e);
      assert s == s[..|s| - 1] + [s[|s| - 1]];
    }
  }

  lemma {:induction false} WithoutKeys<K, V>(s: seq<Pair<K, V>>, x: Pair<K, V>)
    requires KeysDistinct(s)
    ensures KeysDistinct(Without(s, x))
    ensures |Without(s, x)| == |s| - (if x in s then 1 else 0)
  {
    if s != [] {
      var init, last := s[..|s| - 1], s[|s| - 1];
      WithoutKeys(init, x);
      assert s == init + [last];
      if last == x {
        assert x !in init;
      } else {
        forall i | 0 <= i < |Without(init, x)|
          ensures Without(init, x)[i].first != last.first
        {
          WithoutMembers(init, x, Without(init, x)[i]);
        }
      }
    }
  }

  lemma InsertRefines<K(!new), V>(lists: seq<seq<Pair<K, V>>>, hash: K -> nat, m: map<K, V>, k: K, v: V)
    requires Refines(lists, hash, m) && k !in m
    ensures var b := hash(k) % |lists|; Refines(lists[b := lists[b] + [Pair(k, v)]], hash, m[k := v])
  {
  }

  lemma EraseBucket<K(!new), V>(s: seq<Pair<K, V>>, b: nat, n: nat, hash: K -> nat, m: map<K, V>, k: K)
    requires 0 < n && BucketOf(s, b, n, hash, m) && k in m
    ensures hash(k) % n == b ==> BucketOf(Without(s, Pair(k, m[k])), b, n, hash, m - {k})
    ensures hash(k) % n != b ==> BucketOf(s, b, n, hash, m - {k})
  {
    var x := Pair(k, m[k]);
    WithoutKeys(s, x);
    forall e | e in Without(s, x)
      ensures e in s && e != x
    {
      WithoutMembers(s, x, e);
    }
  }

  lemma EraseRefines<K(!new), V>(lists: seq<seq<Pair<K, V>>>, hash: K -> nat, m: map<K, V>, k: K)
    requires Refines(lists, hash, m) && k in m
    ensures var b, e := hash(k) % |lists|, Pair(k, m[k]);
            && Refines(lists[b := Without(lists[b], e)], hash, m - {k})
            && |Without(lists[b], e)| == |lists[b]| - 1
  {
    var b, e := hash(k) % |lists|, Pair(k, m[k]);
    assert BucketOf(lists[b], b, |lists|, hash, m);
    WithoutKeys(lists[b], e);
    hide BucketOf, Without;
    forall c | 0 <= c < |lists| {
      EraseBucket(lists[c], c, |lists|, hash, m, k);
    }
    forall k' | k' in m && k' != k
      ensures hash(k') % |lists| == b ==> Pair(k', m[k']) in Without(lists[b], e)
    {
      WithoutMembers(lists[b], e, Pair(k', m[k']));
    }
  }

  /** A key is in the map exactly when its bucket has a pair with that key. */
  lemma BucketDecides<K(!new), V>(lists: seq<seq<Pair<K, V>>>, hash: K -> nat, m: map<K, V>, k: K)
    requires Refines(lists, hash, m)
    ensures k in m <==> exists i :: 0 <= i < |lists[hash(k) % |lists|]| && lists[hash(k) % |lists|][i].first == k
  {
  }

  lemma NotEmpty<K(!new), V>(lists: seq<seq<Pair<K, V>>>, hash: K -> nat, m: map<K, V>)
    requires Refines(lists, hash, m)
    ensures 0 < |lists|
  {
  }

  lemma PairInBucket<K(!new), V>(lists: seq<seq<Pair<K, V>>>, hash: K -> nat, m: map<K, V>, b: nat, i: nat)
    requires Refines(lists, hash, m) && b < |lists| && i < |lists[b]|
    ensures var e := lists[b][i]; e.first in m && m[e.first] == e.second
  {
  }

  lemma OneFewer<K, V>(m: map<K, V>, k: K)
    requires k in m
    ensures |m - {k}| == |m| - 1
  {
  }

  lemma NothingToErase<K, V>(m: map<K, V>, k: K)
    requires k !in m
    ensures m - {k} == m
  {
  }

  lemma EmptyRefines<K(!new), V>(lists: seq<seq<Pair<K, V>>>, hash: K -> nat)
    requires 0 < |lists| && forall b :: 0 <= b < |lists| ==> lists[b] == []
    ensures Refines(lists, hash, map[])
  {
  }

  method AllocateBuckets<K(==), V(==)>(n: nat) returns (bs: seq<Queue<Pair<K, V>>>, ghost repr: set<object>)
    ensures |bs| == n && fresh(repr)
    ensures forall b :: 0 <= b < n ==> bs[b] in repr && bs[b].Repr <= repr && bs[b].Valid() && bs[b].contents == []
    ensures forall b, c :: 0 <= b < c < n ==> bs[b].Repr !! bs[c].Repr
  {
    bs, repr := [], {};
    while |bs| < n
      invariant |bs| <= n && fresh(repr)
      invariant forall b :: 0 <= b < |bs| ==> bs[b] in repr && bs[b].Repr <= repr && bs[b].Valid() && bs[b].contents == []
      invariant forall b, c :: 0 <= b < c < |bs| ==> bs[b].Repr !! bs[c].Repr
    {
      var q := new Queue<Pair<K, V>>();
      bs := bs + [q];
      repr := repr + q.Repr;
    }
  }

  class UnorderedMap<K(==, !new), V(==)> {
    const buckets: seq<Queue<Pair<K, V>>>
    const hash: K -> nat
    var itemCount: nat
    ghost var lists: seq<seq<Pair<K, V>>>
    ghost var model: map<K, V>
    ghost var Repr: set<object>

    /** The buckets are separate lists, and `lists` is what they hold. */
    ghost predicate Separate()
      reads `lists, `Repr, Repr - {this}
    {
      && this in Repr
      && |lists| == |buckets|
      && (forall b :: 0 <= b < |buckets| ==>
            buckets[b] in Repr && buckets[b].Repr <= Repr && this !in buckets[b].Repr
            && buckets[b].Valid() && buckets[b].contents == lists[b])
      && (forall b, c :: 0 <= b < c < |buckets| ==> buckets[b].Repr !! buckets[c].Repr)
    }

    ghost predicate Valid()
      reads this, Repr
      ensures Valid() ==> this in Repr
    {
      Separate() && Refines(lists, hash, model) && itemCount == |model|
    }

    constructor (n: nat, hash: K -> nat)
      requires 0 < n
      ensures Valid() && fresh(Repr) && model == map[] && this.hash == hash && |buckets| == n
    {
      hide Refines;
      var bs;
      ghost var repr;
      bs, repr := AllocateBuckets<K, V>(n);
      buckets := bs;
      this.hash := hash;
      itemCount, model := 0, map[];
      lists := seq(n, _ => []);
      Repr := {this} + repr;
      new;
      EmptyRefines(lists, hash);
    }

    method InsertInto(b: nat, pair: Pair<K, V>) returns (ok: bool)
      requires Separate() && b < |buckets|
      modifies buckets[b].Repr, `lists, `Repr
      ensures Separate() && fresh(Repr - old(Repr)) && ok
      ensures lists == old(lists)[b := old(lists)[b] + [pair]]
    {
      ok := buckets[b].Insert(pair);
      lists := lists[b := lists[b] + [pair]];
      Repr := Repr + buckets[b].Repr;
    }

    method EraseFrom(b: nat, pair: Pair<K, V>) returns (count: nat)
      requires Separate() && b < |buckets|
      modifies buckets[b].Repr, `lists
      ensures Separate() && Repr == old(Repr)
      ensures lists == old(lists)[b := Without(old(lists)[b], pair)]
      ensures count == |old(lists)[b]| - |lists[b]|
    {
      count := buckets[b].EraseItem(pair);
      lists := lists[b := Without(lists[b], pair)];
    }

    /** The first pair with the key, looked up in the key's bucket. */
    method Lookup(key: K) returns (b: nat, elem: Node?<Pair<K, V>>)
      requires Valid()
      ensures b == hash(key) % |lists| && b < |buckets| == |lists|
      ensures this in Repr && this !in buckets[b].Repr && buckets[b].Repr <= Repr
      ensures elem == null <==> key !in model
      ensures elem != null ==> elem in Repr && elem.value == Pair(key, model[key])
    {
      hide Refines;
      BucketDecides(lists, hash, model, key);
      assert 0 < |lists| by { NotEmpty(lists, hash, model); }
      b := hash(key) % |buckets|;
      ghost var i;
      elem, i := buckets[b].Find((e: Pair<K, V>) => e.first == key);
      if elem != null {
        PairInBucket(lists, hash, model, b, i);
      }
    }

    /** Never overwrites: a second insert of a key fails and changes nothing. */
    method Insert(key: K, val: V) returns (inserted: bool)
      requires Valid()
      modifies Repr
      ensures Valid() && fresh(Repr - old(Repr))
      ensures inserted == (key !in old(model))
      ensures model == if inserted then old(model)[key := val] else old(model)
    {
      hide Refines, Separate;
      var b, elem := Lookup(key);
      if elem != null {
        return false;
      }
      InsertRefines(lists, hash, model, key, val);
      inserted := InsertInto(b, Pair(key, val));
      itemCount := itemCount + 1;
      model := model[key := val];
    }

    method Find(key: K) returns (val: Node?<Pair<K, V>>)
      requires Valid()
      ensures val != null <==> key in model
      ensures val != null ==> val in Repr && val.value.second == model[key]
    {
      var b;
      b, val := Lookup(key);
    }

    /** Removes exactly the key's pair; the source's path without a return value is never taken. */
    method Erase(key: K) returns (erased: bool)
      requires Valid()
      modifies Repr
      ensures Valid() && fresh(Repr - old(Repr))
      ensures erased == (key in old(model))
      ensures model == old(model) - {key}
    {
      hide Refines, Without, Separate;
      var b, elem := Lookup(key);
      if elem == null {
        NothingToErase(model, key);
        return false;
      }
      ErasePair(b, elem.value);
      erased := true;
    }

    method ErasePair(b: nat, pair: Pair<K, V>)
      requires Valid() && pair.first in model && pair.second == model[pair.first]
      requires b == hash(pair.first) % |lists| && b < |buckets| == |lists|
      requires this !in buckets[b].Repr && buckets[b].Repr <= Repr
      modifies buckets[b].Repr, `lists, `itemCount, `model
      ensures Valid() && Repr == old(Repr)
      ensures model == old(model) - {pair.first}
    {
      hide Refines, Without, Separate;
      EraseRefines(lists, hash, model, pair.first);
      OneFewer(model, pair.first);
      var count := EraseFrom(b, pair);
      assert count == 1;
      itemCount := itemCount - 1;
      model := model - {pair.first};
    }
  }
}
