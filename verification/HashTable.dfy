/** What the hash table under the connection maps stands for: an order list, bucket
    chains and bucket doubling, on sequences.  The hash function is any function of the
    key. */
module HashTable {
  import opened Words

  datatype Item<K, V> = Item(key: K, hashv: nat, value: V)

  /** `chain` runs from `hh_head` along `hh_next`. */
  datatype Bucket<K, V> = Bucket(chain: seq<Item<K, V>>, count: nat, expandMult: nat)

  // --------------------------------------------------------------------- sizes

  /** The bucket of a hash value among `2^log2` buckets. */
  function Slot(hashv: nat, log2: nat): (b: nat)
    ensures b < Pow2(log2)
  {
    MaskAndShift(hashv, log2);
    And(hashv, Pow2(log2) - 1)
  }

  /** The ideal chain length, by shift and mask. */
  function IdealLength(items: nat, log2: nat): (n: nat)
  {
    Shr(items, log2) + if And(items, Pow2(log2) - 1) != 0 then 1 else 0
  }

  lemma Ceiling(n: nat, q: nat, r: nat, p: nat)
    requires r < p && n == q * p + r
    ensures r != 0 ==> (q + 1) * p >= n && q * p < n
    ensures r == 0 && q > 0 ==> q * p >= n && (q - 1) * p < n
    ensures q == 0 && r == 0 <==> n == 0
  {
    assert (q + 1) * p == q * p + p;
    if q > 0 {
      assert (q - 1) * p == q * p - p;
      assert (q - 1) * p >= 0;
    }
  }

  /** It is the quotient rounded up: the least length that `2^log2` chains need to
      hold all items; and never zero if there is an item. */
  lemma IdealIsCeiling(items: nat, log2: nat)
    ensures IdealLength(items, log2) * Pow2(log2) >= items
    ensures IdealLength(items, log2) > 0 ==> (IdealLength(items, log2) - 1) * Pow2(log2) < items
    ensures IdealLength(items, log2) == 0 <==> items == 0
  {
    hide And, Shr, Pow2;
    MaskAndShift(items, log2);
    Ceiling(items, Shr(items, log2), And(items, Pow2(log2) - 1), Pow2(log2));
  }

  // -------------------------------------------------------------------- chains

  ghost predicate Distinct<K, V>(s: seq<Item<K, V>>)
  {
    forall i, j :: 0 <= i < j < |s| ==> s[i].key != s[j].key
  }

  /** Item `x` hangs in the bucket of its hash value. */
  predicate InTable<K(==), V(==)>(bs: seq<Bucket<K, V>>, log2: nat, x: Item<K, V>)
  {
    Slot(x.hashv, log2) < |bs| && x in bs[Slot(x.hashv, log2)].chain
  }

  /** Bucket `b`: its count is the length of its chain, no key occurs twice, and
      every item belongs there and carries the hash of its key. */
  ghost predicate BucketOk<K, V>(hash: K -> nat, b: Bucket<K, V>, log2: nat, slot: nat)
  {
    && b.count == |b.chain|
    && Distinct(b.chain)
    && forall x :: x in b.chain ==> x.hashv == hash(x.key) && Slot(x.hashv, log2) == slot
  }

  ghost predicate BucketsOk<K, V>(hash: K -> nat, bs: seq<Bucket<K, V>>, log2: nat)
  {
    |bs| == Pow2(log2) && forall b :: 0 <= b < |bs| ==> BucketOk(hash, bs[b], log2, b)
  }

  /** The number of items in all chains. */
  function Total<K, V>(bs: seq<Bucket<K, V>>): (n: nat)
  {
    if |bs| == 0 then 0 else Total(bs[..|bs| - 1]) + |bs[|bs| - 1].chain|
  }

  function Excess(count: nat, ideal: nat): (n: nat)
  {
    if count > ideal then count - ideal else 0
  }

  /** The items beyond the ideal length, over all chains. */
  function Nonideal<K, V>(bs: seq<Bucket<K, V>>, ideal: nat): (n: nat)
  {
    if |bs| == 0 then 0 else Nonideal(bs[..|bs| - 1], ideal) + Excess(bs[|bs| - 1].count, ideal)
  }

  lemma {:induction false} SumsUpdate<K, V>(bs: seq<Bucket<K, V>>, b: nat, bkt: Bucket<K, V>, ideal: nat)
    requires b < |bs|
    ensures Total(bs[b := bkt]) == Total(bs) - |bs[b].chain| + |bkt.chain|
    ensures Nonideal(bs[b := bkt], ideal) == Nonideal(bs, ideal) - Excess(bs[b].count, ideal) + Excess(bkt.count, ideal)
  {
    var n := |bs| - 1;
    if b == n {
      assert bs[b := bkt][..n] == bs[..n];
    } else {
      assert bs[b := bkt][..n] == bs[..n][b := bkt];
      SumsUpdate(bs[..n], b, bkt, ideal);
    }
  }

  lemma {:induction false} TotalPrefix<K, V>(bs: seq<Bucket<K, V>>, i: nat)
    requires i < |bs|
    ensures Total(bs[..i + 1]) == Total(bs[..i]) + |bs[i].chain|
    ensures Total(bs[..0]) == 0 && bs[..|bs|] == bs
  {
    assert bs[..i + 1][..i] == bs[..i];
  }

  lemma {:induction false} FreshSums<K, V>(bs: seq<Bucket<K, V>>, ideal: nat)
    requires forall b :: 0 <= b < |bs| ==> bs[b] == Bucket([], 0, 0)
    ensures Total(bs) == 0 && Nonideal(bs, ideal) == 0
  {
    if |bs| > 0 { FreshSums(bs[..|bs| - 1], ideal); }
  }

  /** Push an item on the chain of its bucket while doubling: a bucket beyond the
      ideal length gets its multiplier. */
  function Moved<K, V>(bkt: Bucket<K, V>, x: Item<K, V>, ideal: nat): (b: Bucket<K, V>)
    requires ideal > 0
  {
    Bucket([x] + bkt.chain, bkt.count + 1,
           if bkt.count + 1 > ideal then (bkt.count + 1) / ideal else bkt.expandMult)
  }

  /** The multiplier of a bucket is what its length makes it. */
  ghost predicate MultOk<K, V>(bkt: Bucket<K, V>, ideal: nat)
    requires ideal > 0
  {
    bkt.expandMult == if bkt.count > ideal then bkt.count / ideal else 0
  }

  /** A new item on a chain that does not have its key. */
  lemma PushOk<K, V>(hash: K -> nat, b: Bucket<K, V>, x: Item<K, V>, mult: nat, log2: nat, slot: nat)
    requires BucketOk(hash, b, log2, slot) && x.hashv == hash(x.key) && Slot(x.hashv, log2) == slot
    requires forall y :: y in b.chain ==> y.key != x.key
    ensures BucketOk(hash, Bucket([x] + b.chain, b.count + 1, mult), log2, slot)
  {
    hide Slot;
    var c := [x] + b.chain;
    forall i, j | 0 <= i < j < |c| ensures c[i].key != c[j].key {
      if i == 0 { assert c[j] in b.chain; } else { assert c[i] == b.chain[i - 1] && c[j] == b.chain[j - 1]; }
    }
  }

  // ------------------------------------------------------------------- doubling

  /** Item `x` has left the old buckets: those before `i`, and bucket `i` but for
      the `rest` of its chain. */
  ghost predicate HasMoved<K, V>(bs: seq<Bucket<K, V>>, log2: nat, i: nat, rest: seq<Item<K, V>>, x: Item<K, V>)
  {
    InTable(bs, log2, x) && (Slot(x.hashv, log2) < i || (Slot(x.hashv, log2) == i && x !in rest))
  }

  /** The new buckets hold exactly the items that have moved. */
  ghost predicate Halfway<K(!new), V(!new)>(hash: K -> nat, bs: seq<Bucket<K, V>>, log2: nat, i: nat,
                                            rest: seq<Item<K, V>>, news: seq<Bucket<K, V>>, ideal: nat)
    requires ideal > 0
  {
    && BucketsOk(hash, news, log2 + 1)
    && (forall x: Item<K, V> :: InTable(news, log2 + 1, x) <==> HasMoved(bs, log2, i, rest, x))
    && (forall b :: 0 <= b < |news| ==> MultOk(news[b], ideal))
  }

  /** Who is still on the chain has not moved. */
  lemma RestNotMoved<K, V>(hash: K -> nat, bs: seq<Bucket<K, V>>, log2: nat, i: nat, rest: seq<Item<K, V>>, x: Item<K,
                           V>, y: Item<K, V>)
    requires BucketsOk(hash, bs, log2) && i < |bs| && Distinct(rest) && rest != [] && x == rest[0]
    requires forall z :: z in rest ==> z in bs[i].chain
    requires HasMoved(bs, log2, i, rest, y)
    ensures x.key != y.key
  {
    hide Slot;
    assert BucketOk(hash, bs[i], log2, i);
    assert BucketOk(hash, bs[Slot(y.hashv, log2)], log2, Slot(y.hashv, log2));
    if Slot(y.hashv, log2) == i {
      var a :| 0 <= a < |bs[i].chain| && bs[i].chain[a] == x;
      var b :| 0 <= b < |bs[i].chain| && bs[i].chain[b] == y;
      assert a != b;
    }
  }

  /** Moving the head of the chain. */
  lemma MoveStep<K(!new), V(!new)>(hash: K -> nat, bs: seq<Bucket<K, V>>, log2: nat, i: nat, rest: seq<Item<K, V>>,
                       news: seq<Bucket<K, V>>, ideal: nat)
    requires ideal > 0 && BucketsOk(hash, bs, log2) && i < |bs| && Distinct(rest) && rest != []
    requires forall z :: z in rest ==> z in bs[i].chain
    requires Halfway(hash, bs, log2, i, rest, news, ideal)
    ensures Slot(rest[0].hashv, log2 + 1) < |news|
    ensures var b := Slot(rest[0].hashv, log2 + 1);
            Halfway(hash, bs, log2, i, rest[1..], news[b := Moved(news[b], rest[0], ideal)], ideal)
  {
    hide Slot, Pow2;
    var x := rest[0];
    var b := Slot(x.hashv, log2 + 1);
    var news' := news[b := Moved(news[b], x, ideal)];
    assert BucketOk(hash, bs[i], log2, i);
    assert BucketOk(hash, news[b], log2 + 1, b);
    forall y | y in news[b].chain ensures y.key != x.key {
      assert InTable(news, log2 + 1, y);
      RestNotMoved(hash, bs, log2, i, rest, x, y);
    }
    PushOk(hash, news[b], x, Moved(news[b], x, ideal).expandMult, log2 + 1, b);
    forall y: Item<K, V> ensures InTable(news', log2 + 1, y) <==> HasMoved(bs, log2, i, rest[1..], y) {
      HeadMoved(rest, y);
      assert InTable(news', log2 + 1, y) <==> InTable(news, log2 + 1, y) || y == x;
      assert x in bs[i].chain && InTable(bs, log2, x);
      assert HasMoved(bs, log2, i, rest[1..], y) <==> HasMoved(bs, log2, i, rest, y) || y == x;
    }
  }

  lemma HeadMoved<K, V>(rest: seq<Item<K, V>>, y: Item<K, V>)
    requires rest != [] && Distinct(rest)
    ensures y !in rest[1..] <==> y !in rest || y == rest[0]
  {
  }

  lemma StartHalfway<K(!new), V(!new)>(hash: K -> nat, bs: seq<Bucket<K, V>>, log2: nat, news: seq<Bucket<K, V>>,
                                       ideal: nat)
    requires ideal > 0 && BucketsOk(hash, bs, log2) && |news| == 2 * |bs|
    requires forall b :: 0 <= b < |news| ==> news[b] == Bucket([], 0, 0)
    ensures |bs| > 0 && Halfway(hash, bs, log2, 0, bs[0].chain, news, ideal)
  {
    hide Slot;
    assert Pow2(log2 + 1) == 2 * Pow2(log2);
  }

  lemma NextBucket<K(!new), V(!new)>(hash: K -> nat, bs: seq<Bucket<K, V>>, log2: nat, i: nat,
                                     news: seq<Bucket<K, V>>, ideal: nat)
    requires ideal > 0 && BucketsOk(hash, bs, log2) && i < |bs| && Halfway(hash, bs, log2, i, [], news, ideal)
    ensures Halfway(hash, bs, log2, i + 1, if i + 1 < |bs| then bs[i + 1].chain else [], news, ideal)
  {
    hide Slot, Pow2;
    var rest := if i + 1 < |bs| then bs[i + 1].chain else [];
    var next := i + 1;
    forall x: Item<K, V> ensures InTable(news, log2 + 1, x) <==> HasMoved(bs, log2, next, rest, x) {
      assert InTable(news, log2 + 1, x) <==> HasMoved(bs, log2, i, [], x);
      assert HasMoved(bs, log2, i, [], x) <==> HasMoved(bs, log2, next, rest, x);
    }
  }

  lemma EndHalfway<K(!new), V(!new)>(hash: K -> nat, bs: seq<Bucket<K, V>>, log2: nat, news: seq<Bucket<K, V>>,
                                     ideal: nat)
    requires ideal > 0 && BucketsOk(hash, bs, log2) && Halfway(hash, bs, log2, |bs|, [], news, ideal)
    ensures BucketsOk(hash, news, log2 + 1)
    ensures forall x: Item<K, V> :: InTable(news, log2 + 1, x) <==> InTable(bs, log2, x)
    ensures forall b :: 0 <= b < |news| ==> MultOk(news[b], ideal)
  {
    hide Slot, Pow2;
    forall x: Item<K, V> ensures HasMoved(bs, log2, |bs|, [], x) <==> InTable(bs, log2, x) {
    }
  }

  // ----------------------------------------------------------- order and chains

  /** Order list and chains hold the same items, as many. */
  ghost predicate Agrees<K(!new), V(!new)>(hash: K -> nat, order: seq<Item<K, V>>, bs: seq<Bucket<K, V>>, log2: nat)
  {
    && BucketsOk(hash, bs, log2)
    && Total(bs) == |order|
    && (forall x :: x in order ==> x.hashv == hash(x.key))
    && (forall x :: x in order <==> InTable(bs, log2, x))
  }

  lemma SlotInside<K, V>(hash: K -> nat, bs: seq<Bucket<K, V>>, log2: nat, hashv: nat)
    requires BucketsOk(hash, bs, log2)
    ensures Slot(hashv, log2) < |bs|
    ensures bs[Slot(hashv, log2)].count == |bs[Slot(hashv, log2)].chain|
  {
    hide Slot, Pow2;
    assert BucketOk(hash, bs[Slot(hashv, log2)], log2, Slot(hashv, log2));
  }

  lemma MapOfPush<K, V>(s: seq<Item<K, V>>, x: Item<K, V>)
    ensures MapOf(s + [x]) == MapOf(s)[x.key := x.value]
  {
    assert (s + [x])[..|s|] == s;
  }

  lemma DistinctRemove<K, V>(s: seq<Item<K, V>>, i: nat, t: seq<Item<K, V>>)
    requires Distinct(s) && i < |s| && t == s[..i] + s[i + 1..]
    ensures Distinct(t)
    ensures forall y :: y in t <==> y in s && y != s[i]
    ensures forall y :: y in t <==> y in s && y.key != s[i].key
  {
    forall j, k | 0 <= j < k < |t| ensures t[j].key != t[k].key {
      assert t[j] == s[if j < i then j else j + 1];
      assert t[k] == s[if k < i then k else k + 1];
    }
    forall y ensures (y in t ==> y in s && y.key != s[i].key) && (y in s && y != s[i] ==> y in t) {
      if y in t {
        var k :| 0 <= k < |t| && t[k] == y;
        assert t[k] == s[if k < i then k else k + 1];
      }
      if y in s && y != s[i] {
        var k :| 0 <= k < |s| && s[k] == y;
        assert y == t[if k < i then k else k - 1];
      }
    }
  }

  /** Unlinking an item from the order list and from its chain keeps both in step. */
  lemma UnlinkFrom<K(!new), V(!new)>(hash: K -> nat, order: seq<Item<K, V>>, order': seq<Item<K, V>>, x: Item<K, V>,
                                     bs: seq<Bucket<K, V>>, log2: nat, k: nat, bkt: Bucket<K, V>)
    requires BucketsOk(hash, bs, log2)
    requires forall y :: y in order <==> InTable(bs, log2, y)
    requires forall y :: y in order' <==> y in order && y != x
    requires Slot(x.hashv, log2) < |bs| && k < |bs[Slot(x.hashv, log2)].chain| && bs[Slot(x.hashv, log2)].chain[k] == x
    requires var had := bs[Slot(x.hashv, log2)];
             had.count > 0 && bkt == Bucket(had.chain[..k] + had.chain[k + 1..], had.count - 1, had.expandMult)
    ensures var bs' := bs[Slot(x.hashv, log2) := bkt];
            && BucketsOk(hash, bs', log2) && Total(bs') == Total(bs) - 1
            && (forall y :: y in order' <==> InTable(bs', log2, y))
  {
    hide Slot, Pow2, Distinct;
    var b := Slot(x.hashv, log2);
    var bs' := bs[b := bkt];
    assert BucketOk(hash, bs[b], log2, b);
    DistinctRemove(bs[b].chain, k, bkt.chain);
    assert BucketOk(hash, bkt, log2, b);
    SumsUpdate(bs, b, bkt, 0);
    forall y: Item<K, V> ensures y in order' <==> InTable(bs', log2, y) {
      assert InTable(bs', log2, y) <==> InTable(bs, log2, y) && y != x;
    }
  }

  /** `t` holds the items of `s` except those of key `k`: seen from one key. */
  lemma LookupRemove<K, V>(s: seq<Item<K, V>>, t: seq<Item<K, V>>, k: K, q: K)
    requires Distinct(s) && Distinct(t)
    requires forall y :: y in t <==> y in s && y.key != k
    ensures q in MapOf(t) <==> q in MapOf(s) && q != k
    ensures q in MapOf(t) ==> MapOf(t)[q] == MapOf(s)[q]
  {
    hide MapOf, Distinct;
    MapOfKeys(s, q);
    MapOfKeys(t, q);
    if q in MapOf(t) {
      var x :| x in t && x.key == q;
      assert x in s;
    }
  }

  lemma MapOfRemove<K, V>(s: seq<Item<K, V>>, t: seq<Item<K, V>>, k: K)
    requires Distinct(s) && Distinct(t)
    requires forall y :: y in t <==> y in s && y.key != k
    ensures MapOf(t) == MapOf(s) - {k}
  {
    hide MapOf, Distinct;
    var m, m' := MapOf(t), MapOf(s) - {k};
    forall q | q in m ensures q in m' && m[q] == m'[q] {
      LookupRemove(s, t, k, q);
    }
    forall q | q in m' ensures q in m {
      LookupRemove(s, t, k, q);
    }
  }

  /** One more item keeps order list and chains in step. */
  lemma PushInto<K(!new), V(!new)>(hash: K -> nat, order: seq<Item<K, V>>, bs: seq<Bucket<K, V>>, log2: nat, x: Item<K,
                                   V>, pushed: Bucket<K, V>)
    requires BucketsOk(hash, bs, log2) && Distinct(order)
    requires forall y :: y in order <==> InTable(bs, log2, y)
    requires forall y :: y in order ==> y.key != x.key && y.hashv == hash(y.key)
    requires x.hashv == hash(x.key)
    requires var bkt := bs[Slot(x.hashv, log2)];
             pushed == Bucket([x] + bkt.chain, bkt.count + 1, bkt.expandMult)
    ensures var bs' := bs[Slot(x.hashv, log2) := pushed];
            && BucketsOk(hash, bs', log2) && Total(bs') == Total(bs) + 1
            && (forall y :: y in order + [x] <==> InTable(bs', log2, y))
    ensures Distinct(order + [x])
  {
    hide Slot, Pow2;
    var b := Slot(x.hashv, log2);
    var bs' := bs[b := pushed];
    assert BucketOk(hash, bs[b], log2, b);
    forall y | y in bs[b].chain ensures y.key != x.key { assert InTable(bs, log2, y); }
    PushOk(hash, bs[b], x, pushed.expandMult, log2, b);
    SumsUpdate(bs, b, pushed, 0);
    forall y: Item<K, V> ensures y in order + [x] <==> InTable(bs', log2, y) {
      assert InTable(bs', log2, y) <==> InTable(bs, log2, y) || y == x;
    }
  }

  lemma AgreesPush<K(!new), V(!new)>(hash: K -> nat, order: seq<Item<K, V>>, bs: seq<Bucket<K, V>>, log2: nat,
                                     x: Item<K, V>, pushed: Bucket<K, V>)
    requires Agrees(hash, order, bs, log2) && Distinct(order) && x.hashv == hash(x.key)
    requires forall y :: y in order ==> y.key != x.key
    requires Slot(x.hashv, log2) < |bs|
    requires var bkt := bs[Slot(x.hashv, log2)]; pushed == Bucket([x] + bkt.chain, bkt.count + 1, bkt.expandMult)
    ensures Agrees(hash, order + [x], bs[Slot(x.hashv, log2) := pushed], log2) && Distinct(order + [x])
  {
    hide Slot, Pow2, Total, BucketsOk, Distinct, InTable;
    PushInto(hash, order, bs, log2, x, pushed);
  }

  lemma AgreesRemove<K(!new), V(!new)>(hash: K -> nat, order: seq<Item<K, V>>, i: nat, order': seq<Item<K, V>>,
                                       bs: seq<Bucket<K, V>>, log2: nat, k: nat, bkt: Bucket<K, V>)
    requires Agrees(hash, order, bs, log2) && Distinct(order) && i < |order| && order' == order[..i] + order[i + 1..]
    requires var b := Slot(order[i].hashv, log2);
             && b < |bs| && k < |bs[b].chain| && bs[b].chain[k] == order[i] && bs[b].count > 0
             && bkt == Bucket(bs[b].chain[..k] + bs[b].chain[k + 1..], bs[b].count - 1, bs[b].expandMult)
    ensures Agrees(hash, order', bs[Slot(order[i].hashv, log2) := bkt], log2) && Distinct(order')
  {
    hide Slot, Pow2, Total, BucketsOk, Distinct, InTable;
    DistinctRemove(order, i, order');
    UnlinkFrom(hash, order, order', order[i], bs, log2, k, bkt);
  }

  lemma {:induction false} MapOfSize<K, V>(s: seq<Item<K, V>>)
    requires Distinct(s)
    ensures |MapOf(s)| == |s|
  {
    if |s| > 0 {
      var n := |s| - 1;
      MapOfSize(s[..n]);
      MapOfKeys(s[..n], s[n].key);
      assert s[n].key !in MapOf(s[..n]) by {
        forall x | x in s[..n] ensures x.key != s[n].key {
          var i :| 0 <= i < n && s[i] == x;
        }
      }
      assert MapOf(s).Keys == MapOf(s[..n]).Keys + {s[n].key};
      assert |MapOf(s).Keys| == |MapOf(s[..n]).Keys| + 1;
    }
  }

  /** The bindings of an order list. */
  function MapOf<K(==), V>(s: seq<Item<K, V>>): (m: map<K, V>)
  {
    if |s| == 0 then map[] else MapOf(s[..|s| - 1])[s[|s| - 1].key := s[|s| - 1].value]
  }

  lemma {:induction false} MapOfKeys<K, V>(s: seq<Item<K, V>>, k: K)
    requires Distinct(s)
    ensures k in MapOf(s) <==> exists x :: x in s && x.key == k
    ensures forall x :: x in s && x.key == k ==> k in MapOf(s) && MapOf(s)[k] == x.value
  {
    if |s| > 0 {
      var n := |s| - 1;
      MapOfKeys(s[..n], k);
      if x :| x in s && x.key == k {
        if x != s[n] { assert x in s[..n]; }
      }
      forall x | x in s && x.key == k ensures k in MapOf(s) && MapOf(s)[k] == x.value {
        if x in s[..n] {
          var i :| 0 <= i < n && s[i] == x;
          assert s[i].key != s[n].key;
        } else {
          assert x == s[n];
        }
      }
    }
  }
}
