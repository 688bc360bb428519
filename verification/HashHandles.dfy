/** The same hash table with its intrusive links: every item carries a handle with
    `prev` and `next` for the order list and `hh_prev` and `hh_next` for its bucket
    chain, and all operations relink handles in place. */
module HashHandles {
  import opened Words
  import opened HashTable

  const INITIAL_LOG2 := 5
  const BKT_CAPACITY_THRESH := 10

  class Handle<K, V> {
    const item: Item<K, V>
    var prev: Handle?<K, V>
    var next: Handle?<K, V>
    var hhPrev: Handle?<K, V>
    var hhNext: Handle?<K, V>

    constructor (item: Item<K, V>)
      ensures this.item == item
    {
      this.item := item;
      prev, next, hhPrev, hhNext := null, null, null, null;
    }
  }

  function Items<K, V>(hs: seq<Handle<K, V>>): (s: seq<Item<K, V>>)
    ensures |s| == |hs| && forall i :: 0 <= i < |s| ==> s[i] == hs[i].item
  {
    seq(|hs|, i requires 0 <= i < |hs| => hs[i].item)
  }

  ghost function First<K, V>(hs: seq<Handle<K, V>>): (h: Handle?<K, V>)
  {
    if hs == [] then null else hs[0]
  }

  ghost function Last<K, V>(hs: seq<Handle<K, V>>): (h: Handle?<K, V>)
  {
    if hs == [] then null else hs[|hs| - 1]
  }

  ghost predicate Apart<K, V>(hs: seq<Handle<K, V>>)
  {
    forall i, j :: 0 <= i < j < |hs| ==> hs[i] != hs[j]
  }

  /** The order list. */
  ghost predicate Ordered<K, V>(hs: seq<Handle<K, V>>)
    reads hs
  {
    && Apart(hs)
    && (forall i, j :: 0 <= i < j == i + 1 < |hs| ==> hs[i].next == hs[j] && hs[j].prev == hs[i])
    && (|hs| > 0 ==> hs[0].prev == null && hs[|hs| - 1].next == null)
  }

  /** A chain, as far as `hh_next` goes, and both ways. */
  ghost predicate Forward<K, V>(hs: seq<Handle<K, V>>)
    reads hs
  {
    && Apart(hs)
    && (forall i, j :: 0 <= i < j == i + 1 < |hs| ==> hs[i].hhNext == hs[j])
    && (|hs| > 0 ==> hs[|hs| - 1].hhNext == null)
  }

  ghost predicate Chained<K, V>(hs: seq<Handle<K, V>>)
    reads hs
  {
    && Forward(hs)
    && (forall i, j :: 0 <= i < j == i + 1 < |hs| ==> hs[j].hhPrev == hs[i])
    && (|hs| > 0 ==> hs[0].hhPrev == null)
  }

  // -------------------------------------------------------------- one list

  /** `HASH_ADD_KEYPTR`: append to the order list. */
  method Append<K, V>(head: Handle?<K, V>, tail: Handle?<K, V>, x: Handle<K, V>, ghost hs: seq<Handle<K, V>>)
    returns (head': Handle?<K, V>, tail': Handle?<K, V>)
    requires Ordered(hs) && head == First(hs) && tail == Last(hs) && x !in hs
    modifies x`next, x`prev, hs`next
    ensures Ordered(hs + [x]) && head' == First(hs + [x]) && tail' == Last(hs + [x])
  {
    x.next := null;
    head', tail' := head, x;
    if head == null {
      head' := x;
      x.prev := null;
    } else {
      tail.next := x;
      x.prev := tail;
    }
  }

  /** `HASH_DELETE`: patch up the order list. */
  method Detach<K, V>(head: Handle?<K, V>, tail: Handle?<K, V>, x: Handle<K, V>, ghost hs: seq<Handle<K, V>>,
                      ghost i: nat)
    returns (head': Handle?<K, V>, tail': Handle?<K, V>)
    requires Ordered(hs) && head == First(hs) && tail == Last(hs) && i < |hs| && hs[i] == x && |hs| > 1
    modifies hs`next, hs`prev
    ensures var rest := hs[..i] + hs[i + 1..]; Ordered(rest) && head' == First(rest) && tail' == Last(rest)
  {
    ghost var rest := hs[..i] + hs[i + 1..];
    OrderedAt(hs, i);
    head', tail' := head, tail;
    if x == tail {
      tail' := x.prev;
    }
    if x.prev != null {
      x.prev.next := x.next;
    } else {
      head' := x.next;
    }
    if x.next != null {
      x.next.prev := x.prev;
    }
    forall a, b | 0 <= a < b == a + 1 < |rest| ensures rest[a].next == rest[b] && rest[b].prev == rest[a] {
      var c, d := if a < i then a else a + 1, if b < i then b else b + 1;
      assert rest[a] == hs[c] && rest[b] == hs[d];
    }
  }

  lemma OrderedAt<K, V>(hs: seq<Handle<K, V>>, i: nat)
    requires Ordered(hs) && i < |hs|
    ensures hs[i].prev == (if i == 0 then null else hs[i - 1])
    ensures hs[i].next == (if i + 1 == |hs| then null else hs[i + 1])
    ensures hs[i] == hs[|hs| - 1] <==> i == |hs| - 1
  {
    if i > 0 {
      var j := i - 1;
      assert hs[j].next == hs[i];
    }
    if i + 1 < |hs| {
      var j := i + 1;
      assert hs[j].prev == hs[i];
    }
  }

  lemma ChainedAt<K, V>(hs: seq<Handle<K, V>>, i: nat)
    requires Chained(hs) && i < |hs|
    ensures hs[i].hhPrev == (if i == 0 then null else hs[i - 1])
    ensures hs[i].hhNext == (if i + 1 == |hs| then null else hs[i + 1])
    ensures hs[i] == hs[0] <==> i == 0
  {
    if i > 0 {
      var j := i - 1;
      assert hs[j].hhNext == hs[i];
    }
    if i + 1 < |hs| {
      var j := i + 1;
      assert hs[j].hhPrev == hs[i];
    }
  }

  /** `HASH_ADD_TO_BKT`: push on a chain. */
  method Push<K, V>(head: Handle?<K, V>, x: Handle<K, V>, ghost hs: seq<Handle<K, V>>) returns (head': Handle?<K, V>)
    requires Chained(hs) && head == First(hs) && x !in hs
    modifies x`hhNext, x`hhPrev, hs`hhPrev
    ensures Chained([x] + hs) && head' == x
  {
    x.hhNext := head;
    x.hhPrev := null;
    if head != null {
      head.hhPrev := x;
    }
    head' := x;
  }

  /** `HASH_DEL_IN_BKT`: unlink from a chain. */
  method Unchain<K, V>(head: Handle?<K, V>, x: Handle<K, V>, ghost hs: seq<Handle<K, V>>, ghost i: nat)
    returns (head': Handle?<K, V>)
    requires Chained(hs) && head == First(hs) && i < |hs| && hs[i] == x
    modifies hs`hhNext, hs`hhPrev
    ensures var rest := hs[..i] + hs[i + 1..]; Chained(rest) && head' == First(rest)
  {
    ghost var rest := hs[..i] + hs[i + 1..];
    ChainedAt(hs, i);
    head' := head;
    if head == x {
      head' := x.hhNext;
    }
    if x.hhPrev != null {
      x.hhPrev.hhNext := x.hhNext;
    }
    if x.hhNext != null {
      x.hhNext.hhPrev := x.hhPrev;
    }
    forall a, b | 0 <= a < b == a + 1 < |rest| ensures rest[a].hhNext == rest[b] && rest[b].hhPrev == rest[a] {
      var c, d := if a < i then a else a + 1, if b < i then b else b + 1;
      assert rest[a] == hs[c] && rest[b] == hs[d];
    }
  }

  // -------------------------------------------------------------- the buckets

  datatype HandleBucket<K, V> = HandleBucket(head: Handle?<K, V>, count: nat, expandMult: nat)

  /** The buckets with their chains spelled out. */
  ghost function Spelled<K, V>(buckets: seq<HandleBucket<K, V>>, chains: seq<seq<Handle<K, V>>>)
    : (bs: seq<Bucket<K, V>>)
    requires |buckets| == |chains|
    ensures |bs| == |buckets|
    ensures forall b :: 0 <= b < |bs| ==> bs[b] == Bucket(Items(chains[b]), buckets[b].count, buckets[b].expandMult)
  {
    seq(|buckets|, b requires 0 <= b < |buckets| => Bucket(Items(chains[b]), buckets[b].count, buckets[b].expandMult))
  }

  /** Bucket `b` points to chain `b`, and all chains are linked. */
  ghost predicate Hung<K, V>(buckets: seq<HandleBucket<K, V>>, chains: seq<seq<Handle<K, V>>>,
                             handles: set<Handle<K, V>>)
    reads handles
  {
    && |buckets| == |chains|
    && (forall b, i :: 0 <= b < |chains| && 0 <= i < |chains[b]| ==> chains[b][i] in handles)
    && (forall b :: 0 <= b < |chains| ==> buckets[b].head == First(chains[b]) && Chained(chains[b]))
  }

  /** No handle is in two chains. */
  ghost predicate ChainsApart<K, V>(chains: seq<seq<Handle<K, V>>>)
  {
    forall b, c, i, j ::
      0 <= b < |chains| && 0 <= c < |chains| && b != c && 0 <= i < |chains[b]| && 0 <= j < |chains[c]| ==>
        chains[b][i] != chains[c][j]
  }

  lemma SlotsApart<K, V>(hash: K -> nat, buckets: seq<HandleBucket<K, V>>, chains: seq<seq<Handle<K, V>>>, log2: nat)
    requires |buckets| == |chains| && BucketsOk(hash, Spelled(buckets, chains), log2)
    ensures ChainsApart(chains)
  {
    hide Slot, Pow2;
    var bs := Spelled(buckets, chains);
    forall b, i | 0 <= b < |chains| && 0 <= i < |chains[b]| ensures Slot(chains[b][i].item.hashv, log2) == b {
      assert BucketOk(hash, bs[b], log2, b);
      assert bs[b].chain[i] in bs[b].chain;
    }
  }

  lemma SpelledUpdate<K, V>(buckets: seq<HandleBucket<K, V>>, chains: seq<seq<Handle<K, V>>>, b: nat,
                            bkt: HandleBucket<K, V>, chain: seq<Handle<K, V>>)
    requires |buckets| == |chains| && b < |chains|
    ensures Spelled(buckets[b := bkt], chains[b := chain]) ==
              Spelled(buckets, chains)[b := Bucket(Items(chain), bkt.count, bkt.expandMult)]
  {
  }

  /** Hang one more handle into bucket `b`. */
  method HangUp<K, V>(buckets: seq<HandleBucket<K, V>>, b: nat, x: Handle<K, V>, mult: nat,
                      ghost chains: seq<seq<Handle<K, V>>>, ghost handles: set<Handle<K, V>>)
    returns (buckets': seq<HandleBucket<K, V>>)
    requires Hung(buckets, chains, handles) && ChainsApart(chains) && b < |buckets|
    requires forall c :: 0 <= c < |chains| ==> x !in chains[c]
    modifies x`hhNext, x`hhPrev, chains[b]`hhPrev
    ensures buckets' == buckets[b := HandleBucket(x, buckets[b].count + 1, mult)]
    ensures Hung(buckets', chains[b := [x] + chains[b]], handles + {x})
  {
    var head := Push(buckets[b].head, x, chains[b]);
    buckets' := buckets[b := HandleBucket(head, buckets[b].count + 1, mult)];
    forall c | 0 <= c < |chains| && c != b ensures Chained(chains[c]) {
    }
  }

  /** Take the handle at position `k` of chain `b` out. */
  method TakeDown<K, V>(buckets: seq<HandleBucket<K, V>>, b: nat, x: Handle<K, V>,
                        ghost chains: seq<seq<Handle<K, V>>>, ghost k: nat, ghost handles: set<Handle<K, V>>)
    returns (buckets': seq<HandleBucket<K, V>>)
    requires Hung(buckets, chains, handles) && ChainsApart(chains) && b < |buckets| && k < |chains[b]|
    requires chains[b][k] == x
    requires buckets[b].count > 0
    modifies chains[b]`hhNext, chains[b]`hhPrev
    ensures var rest := chains[b][..k] + chains[b][k + 1..];
            && buckets' == buckets[b := HandleBucket(First(rest), buckets[b].count - 1, buckets[b].expandMult)]
            && Hung(buckets', chains[b := rest], handles)
  {
    var head := Unchain(buckets[b].head, x, chains[b], k);
    buckets' := buckets[b := HandleBucket(head, buckets[b].count - 1, buckets[b].expandMult)];
    forall c | 0 <= c < |chains| && c != b ensures Chained(chains[c]) {
    }
  }

  // ------------------------------------------------------------------- doubling

  /** What hangs in a new chain has moved. */
  lemma HasBeenMoved<K(!new), V(!new)>(hash: K -> nat, bs: seq<Bucket<K, V>>, log2: nat, i: nat,
                                       rest: seq<Item<K, V>>, news: seq<HandleBucket<K, V>>,
                                       chains: seq<seq<Handle<K, V>>>, ideal: nat, c: nat, k: nat)
    requires ideal > 0 && |news| == |chains| && Halfway(hash, bs, log2, i, rest, Spelled(news, chains), ideal)
    requires c < |chains| && k < |chains[c]|
    ensures HasMoved(bs, log2, i, rest, chains[c][k].item)
  {
    hide Slot, Pow2, HasMoved;
    var n := Spelled(news, chains);
    assert BucketOk(hash, n[c], log2 + 1, c);
    assert n[c].chain[k] == chains[c][k].item;
    assert InTable(n, log2 + 1, chains[c][k].item);
  }

  /** Who is still to be moved hangs in no new chain. */
  lemma NotYetMoved<K(!new), V(!new)>(hash: K -> nat, bs: seq<Bucket<K, V>>, log2: nat, i: nat, rest: seq<Handle<K, V>>,
                                      news: seq<HandleBucket<K, V>>, chains: seq<seq<Handle<K, V>>>, ideal: nat, c: nat)
    requires ideal > 0 && |news| == |chains| && BucketsOk(hash, bs, log2) && i < |bs| && rest != []
    requires forall z :: z in Items(rest) ==> z in bs[i].chain
    requires Halfway(hash, bs, log2, i, Items(rest), Spelled(news, chains), ideal) && c < |chains|
    ensures rest[0] !in chains[c]
  {
    hide Slot, Pow2, Halfway;
    assert Items(rest)[0] in Items(rest);
    assert BucketOk(hash, bs[i], log2, i);
    forall k | 0 <= k < |chains[c]| ensures chains[c][k] != rest[0] {
      HasBeenMoved(hash, bs, log2, i, Items(rest), news, chains, ideal, c, k);
    }
  }

  /** A bucket that gets one more handle while doubling. */
  function Grown<K, V>(bkt: HandleBucket<K, V>, x: Handle<K, V>, ideal: nat): (b: HandleBucket<K, V>)
    requires ideal > 0
  {
    HandleBucket(x, bkt.count + 1, if bkt.count + 1 > ideal then (bkt.count + 1) / ideal else bkt.expandMult)
  }

  lemma ItemsTail<K, V>(hs: seq<Handle<K, V>>)
    requires hs != []
    ensures Items(hs) != [] && Items(hs)[0] == hs[0].item && Items(hs)[1..] == Items(hs[1..])
  {
  }

  lemma ItemsPush<K, V>(x: Handle<K, V>, hs: seq<Handle<K, V>>)
    ensures Items([x] + hs) == [x.item] + Items(hs)
  {
  }

  /** What moving one handle does to the spelled-out buckets. */
  lemma MoveOne<K(!new), V(!new)>(hash: K -> nat, bs: seq<Bucket<K, V>>, log2: nat, i: nat, rest: seq<Handle<K, V>>,
                                  news: seq<HandleBucket<K, V>>, chains: seq<seq<Handle<K, V>>>, ideal: nat)
    requires ideal > 0 && |news| == |chains| && BucketsOk(hash, bs, log2) && i < |bs| && rest != []
    requires Distinct(Items(rest))
    requires forall z :: z in Items(rest) ==> z in bs[i].chain
    requires Halfway(hash, bs, log2, i, Items(rest), Spelled(news, chains), ideal)
    ensures var x := rest[0];
            var b := Slot(x.item.hashv, log2 + 1);
            && b < |news| && ChainsApart(chains) && (forall c :: 0 <= c < |chains| ==> x !in chains[c])
            && var bs0 := Spelled(news, chains);
               var bs1 := Spelled(news[b := Grown(news[b], x, ideal)], chains[b := [x] + chains[b]]);
               && Halfway(hash, bs, log2, i, Items(rest[1..]), bs1, ideal)
               && Total(bs1) == Total(bs0) + 1
               && Nonideal(bs1, ideal) == Nonideal(bs0, ideal) + if news[b].count + 1 > ideal then 1 else 0
  {
    hide Slot, Pow2, Total, Nonideal, BucketsOk, Spelled, Distinct, HasMoved, InTable;
    var x := rest[0];
    var b := Slot(x.item.hashv, log2 + 1);
    var bs0 := Spelled(news, chains);
    ItemsTail(rest);
    MoveStep(hash, bs, log2, i, Items(rest), bs0, ideal);
    ItemsPush(x, chains[b]);
    SpelledUpdate(news, chains, b, Grown(news[b], x, ideal), [x] + chains[b]);
    SlotInside(hash, bs0, log2 + 1, x.item.hashv);
    SumsUpdate(bs0, b, Moved(bs0[b], x.item, ideal), ideal);
    SlotsApart(hash, news, chains, log2 + 1);
    forall c | 0 <= c < |chains| ensures x !in chains[c] {
      NotYetMoved(hash, bs, log2, i, rest, news, chains, ideal, c);
    }
  }

  lemma DistinctFrom<K, V>(s: seq<Item<K, V>>, n: nat)
    requires Distinct(s) && n <= |s|
    ensures Distinct(s[n..]) && forall z :: z in s[n..] ==> z in s
  {
  }

  lemma ItemsFrom<K, V>(hs: seq<Handle<K, V>>, n: nat)
    requires n <= |hs|
    ensures Items(hs[n..]) == Items(hs)[n..]
  {
  }

  lemma ForwardTail<K, V>(hs: seq<Handle<K, V>>)
    requires Forward(hs) && hs != []
    ensures Forward(hs[1..]) && hs[0].hhNext == First(hs[1..]) && hs[0] !in hs[1..]
  {
    if |hs| > 1 {
      var j := 1;
      assert hs[0].hhNext == hs[j];
    }
  }

  lemma ChainDistinct<K, V>(hash: K -> nat, bs: seq<Bucket<K, V>>, log2: nat, i: nat)
    requires BucketsOk(hash, bs, log2) && i < |bs|
    ensures Distinct(bs[i].chain)
  {
    assert BucketOk(hash, bs[i], log2, i);
  }

  /** The new buckets while the chain of old bucket `i` is being moved: `rest` is left. */
  ghost predicate Moving<K(!new), V(!new)>(hash: K -> nat, bs: seq<Bucket<K, V>>, log2: nat, ideal: nat, i: nat,
                                           rest: seq<Handle<K, V>>, news: seq<HandleBucket<K, V>>,
                                           chains: seq<seq<Handle<K, V>>>, nonideal: nat)
    requires ideal > 0
  {
    && |news| == |chains|
    && nonideal == Nonideal(Spelled(news, chains), ideal)
    && Halfway(hash, bs, log2, i, Items(rest), Spelled(news, chains), ideal)
  }

  ghost predicate AllForward<K, V>(chains: seq<seq<Handle<K, V>>>, i: nat, handles: set<Handle<K, V>>)
    reads handles
  {
    && (forall b, k :: 0 <= b < |chains| && 0 <= k < |chains[b]| ==> chains[b][k] in handles)
    && forall m :: i <= m < |chains| ==> Forward(chains[m])
  }

  lemma HungForward<K, V>(buckets: seq<HandleBucket<K, V>>, chains: seq<seq<Handle<K, V>>>, handles: set<Handle<K, V>>)
    requires Hung(buckets, chains, handles)
    ensures AllForward(chains, 0, handles)
  {
  }

  lemma HungHeads<K, V>(buckets: seq<HandleBucket<K, V>>, chains: seq<seq<Handle<K, V>>>, handles: set<Handle<K, V>>)
    requires Hung(buckets, chains, handles)
    ensures |buckets| == |chains| && forall b :: 0 <= b < |chains| ==> buckets[b].head == First(chains[b])
  {
  }

  lemma ForwardAt<K, V>(chains: seq<seq<Handle<K, V>>>, i: nat, handles: set<Handle<K, V>>)
    requires AllForward(chains, i, handles) && i < |chains|
    ensures Forward(chains[i]) && AllForward(chains, i + 1, handles)
    ensures forall h :: h in chains[i] ==> h in handles
  {
  }

  lemma LaterApart<K, V>(chains: seq<seq<Handle<K, V>>>, i: nat, x: Handle<K, V>)
    requires ChainsApart(chains) && i < |chains| && x in chains[i]
    ensures forall m :: i + 1 <= m < |chains| ==> x !in chains[m]
  {
  }

  /** One turn of it: the handle at the front of the rest goes to its new chain. */
  method MoveHandle<K(!new), V(!new)>(ghost hash: K -> nat, ghost bs: seq<Bucket<K, V>>, log2: nat, ideal: nat,
                                      ghost i: nat, x: Handle<K, V>, ghost rest: seq<Handle<K, V>>,
                                      before: seq<HandleBucket<K, V>>, ghost had: seq<seq<Handle<K, V>>>, count: nat,
                                      ghost all: seq<seq<Handle<K, V>>>, ghost handles: set<Handle<K, V>>)
    returns (news: seq<HandleBucket<K, V>>, ghost chains: seq<seq<Handle<K, V>>>, nonideal: nat)
    requires ideal > 0 && BucketsOk(hash, bs, log2) && i < |bs| && rest != [] && x == rest[0] && x in handles
    requires Distinct(Items(rest)) && forall z :: z in Items(rest) ==> z in bs[i].chain
    requires Hung(before, had, handles) && Moving(hash, bs, log2, ideal, i, rest, before, had, count)
    requires AllForward(all, i + 1, handles) && forall m :: i + 1 <= m < |all| ==> x !in all[m]
    requires Forward(rest)
    modifies handles`hhPrev, x`hhNext
    ensures AllForward(all, i + 1, handles) && Forward(rest[1..])
    ensures Hung(news, chains, handles) && Moving(hash, bs, log2, ideal, i, rest[1..], news, chains, nonideal)
    ensures |news| == |chains| && |before| == |had|
    ensures Total(Spelled(news, chains)) == Total(Spelled(before, had)) + 1
  {
    hide Slot, Pow2, Total, Nonideal, Halfway, BucketsOk, Spelled, Distinct, ChainsApart, Chained;
    MoveOne(hash, bs, log2, i, rest, before, had, ideal);
    ForwardTail(rest);
    var b := Slot(x.item.hashv, log2 + 1);
    nonideal := if before[b].count + 1 > ideal then count + 1 else count;
    news := HangUp(before, b, x, Grown(before[b], x, ideal).expandMult, had, handles);
    chains := had[b := [x] + had[b]];
    assert handles + {x} == handles;
    forall m | i + 1 <= m < |all| ensures Forward(all[m]) {
      assert forall k :: 0 <= k < |all[m]| ==> all[m][k] != x;
    }
  }

  /** The inner loop of `HASH_EXPAND_BUCKETS`: walk the chain of old bucket `i` along
      `hh_next`, and push every handle on its new chain. */
  method MoveChain<K(!new), V(!new)>(ghost hash: K -> nat, ghost bs: seq<Bucket<K, V>>, log2: nat, ideal: nat,
                                     ghost i: nat, first: Handle?<K, V>, ghost all: seq<seq<Handle<K, V>>>,
                                     before: seq<HandleBucket<K, V>>, ghost had: seq<seq<Handle<K, V>>>, count: nat,
                                     ghost handles: set<Handle<K, V>>)
    returns (news: seq<HandleBucket<K, V>>, ghost chains: seq<seq<Handle<K, V>>>, nonideal: nat)
    requires ideal > 0 && BucketsOk(hash, bs, log2) && i < |bs| == |all| && bs[i].chain == Items(all[i])
    requires AllForward(all, i, handles) && ChainsApart(all) && first == First(all[i])
    requires Hung(before, had, handles) && Moving(hash, bs, log2, ideal, i, all[i], before, had, count)
    modifies handles`hhPrev, handles`hhNext
    ensures Hung(news, chains, handles) && Moving(hash, bs, log2, ideal, i, [], news, chains, nonideal)
    ensures AllForward(all, i + 1, handles)
    ensures |news| == |chains| && |before| == |had|
    ensures Total(Spelled(news, chains)) == Total(Spelled(before, had)) + |all[i]|
  {
    hide Slot, Pow2, Total, BucketsOk, Spelled, Distinct, Hung, Moving, Items, ChainsApart, AllForward, Forward;
    news, chains, nonideal := before, had, count;
    ghost var chain, rest := all[i], all[i];
    MovingSizes(hash, bs, log2, ideal, i, chain, news, chains, nonideal);
    ForwardAt(all, i, handles);
    ChainDistinct(hash, bs, log2, i);
    var thh := first;
    while thh != null
      invariant |rest| <= |chain| && rest == chain[|chain| - |rest|..] && thh == First(rest) && Forward(rest)
      invariant AllForward(all, i + 1, handles)
      invariant Hung(news, chains, handles) && Moving(hash, bs, log2, ideal, i, rest, news, chains, nonideal)
      invariant |news| == |chains| && Total(Spelled(news, chains)) == Total(Spelled(before, had)) + |chain| - |rest|
      decreases |rest|
    {
      assert thh in chain;
      LaterApart(all, i, thh);
      ItemsFrom(chain, |chain| - |rest|);
      DistinctFrom(Items(chain), |chain| - |rest|);
      ForwardTail(rest);
      var next := thh.hhNext;
      ghost var tail := rest[1..];
      news, chains, nonideal := MoveHandle(hash, bs, log2, ideal, i, thh, rest, news, chains, nonideal, all, handles);
      rest := tail;
      thh := next;
    }
    assert rest == [];
  }

  lemma MovingSizes<K(!new), V(!new)>(hash: K -> nat, bs: seq<Bucket<K, V>>, log2: nat, ideal: nat, i: nat,
                                      rest: seq<Handle<K, V>>, news: seq<HandleBucket<K, V>>,
                                      chains: seq<seq<Handle<K, V>>>, nonideal: nat)
    requires ideal > 0 && Moving(hash, bs, log2, ideal, i, rest, news, chains, nonideal)
    ensures |news| == |chains|
  {
    hide Halfway;
  }

  lemma EmptySums<K, V>(news: seq<HandleBucket<K, V>>, chains: seq<seq<Handle<K, V>>>, ideal: nat)
    requires |news| == |chains|
    requires forall b :: 0 <= b < |news| ==> news[b] == HandleBucket(null, 0, 0) && chains[b] == []
    ensures Total(Spelled(news, chains)) == 0 && Nonideal(Spelled(news, chains), ideal) == 0
    ensures forall b :: 0 <= b < |news| ==> Spelled(news, chains)[b] == Bucket([], 0, 0)
  {
    FreshSums(Spelled(news, chains), ideal);
  }

  lemma StartMoving<K(!new), V(!new)>(hash: K -> nat, bs: seq<Bucket<K, V>>, log2: nat, ideal: nat,
                                      chains: seq<seq<Handle<K, V>>>, news: seq<HandleBucket<K, V>>,
                                      newChains: seq<seq<Handle<K, V>>>, handles: set<Handle<K, V>>)
    requires ideal > 0 && BucketsOk(hash, bs, log2) && |chains| == |bs| && |news| == |newChains| == 2 * |bs|
    requires forall b :: 0 <= b < |bs| ==> bs[b].chain == Items(chains[b])
    requires forall b :: 0 <= b < |news| ==> news[b] == HandleBucket(null, 0, 0) && newChains[b] == []
    ensures Hung(news, newChains, handles) && |bs| > 0
    ensures Moving(hash, bs, log2, ideal, 0, chains[0], news, newChains, 0)
    ensures Total(Spelled(news, newChains)) == 0 == Total(bs[..0])
  {
    hide Halfway, BucketsOk, Spelled, Total, Nonideal;
    EmptySums(news, newChains, ideal);
    StartHalfway(hash, bs, log2, Spelled(news, newChains), ideal);
    TotalPrefix(bs, 0);
  }

  lemma NextMoving<K(!new), V(!new)>(hash: K -> nat, bs: seq<Bucket<K, V>>, log2: nat, ideal: nat, i: nat,
                                     chains: seq<seq<Handle<K, V>>>, news: seq<HandleBucket<K, V>>,
                                     newChains: seq<seq<Handle<K, V>>>, nonideal: nat)
    requires ideal > 0 && BucketsOk(hash, bs, log2) && i < |bs| == |chains|
    requires forall b :: 0 <= b < |bs| ==> bs[b].chain == Items(chains[b])
    requires Moving(hash, bs, log2, ideal, i, [], news, newChains, nonideal)
    ensures Moving(hash, bs, log2, ideal, i + 1, if i + 1 < |bs| then chains[i + 1] else [], news, newChains, nonideal)
  {
    hide Halfway, BucketsOk, Spelled, Nonideal;
    assert Items<K, V>([]) == [];
    NextBucket(hash, bs, log2, i, Spelled(news, newChains), ideal);
  }

  lemma EndMoving<K(!new), V(!new)>(hash: K -> nat, bs: seq<Bucket<K, V>>, log2: nat, ideal: nat,
                                    news: seq<HandleBucket<K, V>>, newChains: seq<seq<Handle<K, V>>>, nonideal: nat)
    requires ideal > 0 && BucketsOk(hash, bs, log2)
    requires Moving(hash, bs, log2, ideal, |bs|, [], news, newChains, nonideal)
    ensures |news| == |newChains|
    ensures var bs' := Spelled(news, newChains);
            && BucketsOk(hash, bs', log2 + 1) && nonideal == Nonideal(bs', ideal)
            && (forall x: Item<K, V> :: InTable(bs', log2 + 1, x) <==> InTable(bs, log2, x))
            && (forall b :: 0 <= b < |bs'| ==> MultOk(bs'[b], ideal))
  {
    hide Halfway, BucketsOk, Spelled, Nonideal, InTable, MultOk;
    assert Items<K, V>([]) == [];
    EndHalfway(hash, bs, log2, Spelled(news, newChains), ideal);
  }

  /** The outer loop of `HASH_EXPAND_BUCKETS`: all handles go to twice as many buckets. */
  method Redistribute<K(!new), V(!new)>(ghost hash: K -> nat, buckets: seq<HandleBucket<K, V>>,
                                        ghost chains: seq<seq<Handle<K, V>>>, log2: nat, ideal: nat,
                                        ghost handles: set<Handle<K, V>>)
    returns (news: seq<HandleBucket<K, V>>, ghost newChains: seq<seq<Handle<K, V>>>, nonideal: nat)
    requires ideal > 0 && Hung(buckets, chains, handles) && BucketsOk(hash, Spelled(buckets, chains), log2)
    modifies handles`hhPrev, handles`hhNext
    ensures Hung(news, newChains, handles) && |news| == |newChains| && |buckets| == |chains|
    ensures var bs, bs' := Spelled(buckets, chains), Spelled(news, newChains);
            && BucketsOk(hash, bs', log2 + 1) && Total(bs') == Total(bs) && nonideal == Nonideal(bs', ideal)
            && (forall x: Item<K, V> :: InTable(bs', log2 + 1, x) <==> InTable(bs, log2, x))
            && (forall b :: 0 <= b < |bs'| ==> MultOk(bs'[b], ideal))
  {
    hide Slot, Pow2, BucketsOk, InTable, MultOk, Total, Nonideal, Hung, Moving, ChainsApart, AllForward;
    HungForward(buckets, chains, handles);
    HungHeads(buckets, chains, handles);
    SlotsApart(hash, buckets, chains, log2);
    ghost var bs := Spelled(buckets, chains);
    news, newChains, nonideal := seq(2 * |buckets|, _ => HandleBucket(null, 0, 0)), seq(2 * |buckets|, _ => []), 0;
    StartMoving(hash, bs, log2, ideal, chains, news, newChains, handles);
    var i := 0;
    while i < |buckets|
      invariant 0 <= i <= |buckets| && |news| == |newChains|
      invariant Hung(news, newChains, handles) && AllForward(chains, i, handles)
      invariant Moving(hash, bs, log2, ideal, i, if i < |buckets| then chains[i] else [], news, newChains, nonideal)
      invariant Total(Spelled(news, newChains)) == Total(bs[..i])
    {
      news, newChains, nonideal :=
        MoveChain(hash, bs, log2, ideal, i, buckets[i].head, chains, news, newChains, nonideal, handles);
      TotalPrefix(bs, i);
      NextMoving(hash, bs, log2, ideal, i, chains, news, newChains, nonideal);
      i := i + 1;
    }
    assert bs[..i] == bs;
    EndMoving(hash, bs, log2, ideal, news, newChains, nonideal);
  }

  /** It does not touch the order list. */
  method Rebuild<K(!new), V(!new)>(ghost hash: K -> nat, buckets: seq<HandleBucket<K, V>>,
                                   ghost chains: seq<seq<Handle<K, V>>>, log2: nat, ideal: nat,
                                   ghost order: seq<Handle<K, V>>, ghost handles: set<Handle<K, V>>)
    returns (news: seq<HandleBucket<K, V>>, ghost newChains: seq<seq<Handle<K, V>>>, nonideal: nat)
    requires ideal > 0 && Hung(buckets, chains, handles) && Ordered(order) && handles == set h | h in order
    requires Agrees(hash, Items(order), Spelled(buckets, chains), log2)
    modifies handles`hhPrev, handles`hhNext
    ensures Hung(news, newChains, handles) && |news| == |newChains| && Ordered(order)
    ensures var bs' := Spelled(news, newChains);
            && Agrees(hash, Items(order), bs', log2 + 1) && nonideal == Nonideal(bs', ideal)
            && (forall b :: 0 <= b < |bs'| ==> MultOk(bs'[b], ideal))
  {
    hide Slot, Pow2, BucketsOk, InTable, MultOk, Total, Nonideal, Hung, Spelled, Items;
    news, newChains, nonideal := Redistribute(hash, buckets, chains, log2, ideal, handles);
  }

  /** Nor does hanging up or taking down a handle, and the order list does not touch
      the chains. */
  method HangUpKeeping<K, V>(buckets: seq<HandleBucket<K, V>>, b: nat, x: Handle<K, V>,
                             ghost chains: seq<seq<Handle<K, V>>>, ghost handles: set<Handle<K, V>>,
                             ghost order: seq<Handle<K, V>>)
    returns (buckets': seq<HandleBucket<K, V>>)
    requires Hung(buckets, chains, handles) && ChainsApart(chains) && b < |buckets| && Ordered(order)
    requires forall c :: 0 <= c < |chains| ==> x !in chains[c]
    modifies x`hhNext, x`hhPrev, handles`hhPrev
    ensures buckets' == buckets[b := HandleBucket(x, buckets[b].count + 1, buckets[b].expandMult)]
    ensures Hung(buckets', chains[b := [x] + chains[b]], handles + {x}) && Ordered(order)
  {
    hide ChainsApart;
    HungHeads(buckets, chains, handles);
    hide Hung;
    InHandles(buckets, chains, handles, b);
    buckets' := HangUp(buckets, b, x, buckets[b].expandMult, chains, handles);
  }

  lemma InHandles<K, V>(buckets: seq<HandleBucket<K, V>>, chains: seq<seq<Handle<K, V>>>, handles: set<Handle<K, V>>,
                        b: nat)
    requires Hung(buckets, chains, handles) && b < |chains|
    ensures forall h :: h in chains[b] ==> h in handles
  {
  }

  method TakeDownKeeping<K, V>(buckets: seq<HandleBucket<K, V>>, b: nat, x: Handle<K, V>,
                               ghost chains: seq<seq<Handle<K, V>>>,
                               ghost k: nat, ghost handles: set<Handle<K, V>>, ghost order: seq<Handle<K, V>>)
    returns (buckets': seq<HandleBucket<K, V>>)
    requires Hung(buckets, chains, handles) && ChainsApart(chains) && b < |buckets| && k < |chains[b]|
    requires chains[b][k] == x
    requires buckets[b].count > 0 && Ordered(order)
    modifies handles`hhNext, handles`hhPrev
    ensures var rest := chains[b][..k] + chains[b][k + 1..];
            && buckets' == buckets[b := HandleBucket(First(rest), buckets[b].count - 1, buckets[b].expandMult)]
            && Hung(buckets', chains[b := rest], handles)
    ensures Ordered(order)
  {
    hide ChainsApart;
    HungHeads(buckets, chains, handles);
    hide Hung;
    InHandles(buckets, chains, handles, b);
    buckets' := TakeDown(buckets, b, x, chains, k, handles);
  }

  method AppendKeeping<K, V>(head: Handle?<K, V>, tail: Handle?<K, V>, x: Handle<K, V>,
                             ghost order: seq<Handle<K, V>>, ghost buckets: seq<HandleBucket<K, V>>,
                             ghost chains: seq<seq<Handle<K, V>>>, ghost handles: set<Handle<K, V>>)
    returns (head': Handle?<K, V>, tail': Handle?<K, V>)
    requires Ordered(order) && head == First(order) && tail == Last(order) && x !in order
    requires Hung(buckets, chains, handles)
    modifies x`next, x`prev, order`next
    ensures Ordered(order + [x]) && head' == First(order + [x]) && tail' == Last(order + [x])
    ensures Hung(buckets, chains, handles)
  {
    hide Ordered;
    head', tail' := Append(head, tail, x, order);
  }

  method DetachKeeping<K, V>(head: Handle?<K, V>, tail: Handle?<K, V>, x: Handle<K, V>,
                             ghost order: seq<Handle<K, V>>, ghost i: nat, ghost buckets: seq<HandleBucket<K, V>>,
                             ghost chains: seq<seq<Handle<K, V>>>, ghost handles: set<Handle<K, V>>)
    returns (head': Handle?<K, V>, tail': Handle?<K, V>)
    requires Ordered(order) && head == First(order) && tail == Last(order) && i < |order| && order[i] == x
    requires |order| > 1
    requires Hung(buckets, chains, handles)
    modifies order`next, order`prev
    ensures var rest := order[..i] + order[i + 1..]; Ordered(rest) && head' == First(rest) && tail' == Last(rest)
    ensures Hung(buckets, chains, handles)
  {
    hide Ordered;
    head', tail' := Detach(head, tail, x, order, i);
  }

  /** Both lists get a new handle. */
  /** Bucket `b` has got `x` in front, and keeps its limit. */
  ghost predicate Gained<K, V>(bs: seq<HandleBucket<K, V>>, bs': seq<HandleBucket<K, V>>, b: nat, x: Handle<K, V>)
  {
    b < |bs| && bs' == bs[b := HandleBucket(x, bs[b].count + 1, bs[b].expandMult)]
  }

  /** The chain of a bucket has reached its limit. */
  predicate Crowded(count: nat, expandMult: nat)
  {
    count >= (expandMult + 1) * BKT_CAPACITY_THRESH
  }

  method LinkUp<K(!new), V(!new)>(ghost hash: K -> nat, head: Handle?<K, V>, tail: Handle?<K, V>,
                                  buckets: seq<HandleBucket<K, V>>, log2: nat, x: Handle<K, V>,
                                  ghost order: seq<Handle<K, V>>, ghost chains: seq<seq<Handle<K, V>>>,
                                  ghost handles: set<Handle<K, V>>)
    returns (head': Handle?<K, V>, tail': Handle?<K, V>, buckets': seq<HandleBucket<K, V>>,
             ghost chains': seq<seq<Handle<K, V>>>)
    requires Ordered(order) && Distinct(Items(order)) && head == First(order) && tail == Last(order) && x !in order
    requires handles == (set h | h in order) && Hung(buckets, chains, handles)
    requires Agrees(hash, Items(order), Spelled(buckets, chains), log2)
    requires x.item.hashv == hash(x.item.key) && x.item.key !in MapOf(Items(order))
    modifies x`next, x`prev, x`hhNext, x`hhPrev, order`next, handles`hhPrev
    ensures Ordered(order + [x]) && Distinct(Items(order + [x])) && head' == First(order + [x])
    ensures tail' == Last(order + [x])
    ensures |buckets'| == |chains'| && Hung(buckets', chains', handles + {x})
    ensures Agrees(hash, Items(order + [x]), Spelled(buckets', chains'), log2)
    ensures Gained(buckets, buckets', Slot(x.item.hashv, log2), x)
  {
    hide Pow2, Slot, MapOf, Ordered, Distinct, Spelled, Hung, Items, Agrees, ChainsApart, First, Last;
    NewKey(hash, order, buckets, chains, log2, x, handles);
    head', tail' := AppendKeeping(head, tail, x, order, buckets, chains, handles);
    var b := Slot(x.item.hashv, log2);
    buckets' := HangUpKeeping(buckets, b, x, chains, handles, order + [x]);
    chains' := chains[b := [x] + chains[b]];
    LinkAgrees(hash, order, buckets, chains, log2, x, buckets'[b]);
  }

  /** Both lists lose a handle, and others are left. */
  method LinkOut<K(!new), V(!new)>(ghost hash: K -> nat, head: Handle?<K, V>, tail: Handle?<K, V>,
                                   buckets: seq<HandleBucket<K, V>>, log2: nat, x: Handle<K, V>,
                                   ghost order: seq<Handle<K, V>>, ghost i: nat, ghost chains: seq<seq<Handle<K, V>>>,
                                   ghost handles: set<Handle<K, V>>)
    returns (head': Handle?<K, V>, tail': Handle?<K, V>, buckets': seq<HandleBucket<K, V>>,
             ghost chains': seq<seq<Handle<K, V>>>)
    requires Ordered(order) && Distinct(Items(order)) && head == First(order) && tail == Last(order)
    requires i < |order| && order[i] == x && |order| > 1
    requires handles == (set h | h in order) && Hung(buckets, chains, handles)
    requires Agrees(hash, Items(order), Spelled(buckets, chains), log2)
    modifies order`next, order`prev, handles`hhNext, handles`hhPrev
    ensures |buckets'| == |chains'|
    ensures var rest := order[..i] + order[i + 1..];
            && Ordered(rest) && Distinct(Items(rest)) && head' == First(rest) && tail' == Last(rest)
            && Hung(buckets', chains', set h | h in rest) && Agrees(hash, Items(rest), Spelled(buckets', chains'), log2)
  {
    hide Pow2, Slot, MapOf, Ordered, Distinct, Spelled, Hung, Items, Agrees, ChainsApart, First, Last;
    ghost var rest := order[..i] + order[i + 1..];
    RemovedItems(order, i, rest);
    ghost var k := ChainPosition(hash, order, i, buckets, chains, log2, handles);
    head', tail' := DetachKeeping(head, tail, x, order, i, buckets, chains, handles);
    var b := Slot(x.item.hashv, log2);
    buckets' := TakeDownKeeping(buckets, b, x, chains, k, handles, rest);
    chains' := chains[b := chains[b][..k] + chains[b][k + 1..]];
    DeleteAgrees(hash, order, i, rest, buckets, chains, log2, k, buckets'[b]);
    FewerHandles(hash, order, handles, rest, buckets', chains', log2);
  }

  // -------------------------------------------------------------------- the table

  class Table<K(==, !new), V(==, !new)> {
    const hash: K -> nat
    var head: Handle?<K, V>
    var tail: Handle?<K, V>
    var buckets: seq<HandleBucket<K, V>>
    var log2: nat
    var numItems: nat
    var idealChainMaxlen: nat
    var nonidealItems: nat
    var ineffExpands: nat
    var noexpand: bool
    ghost var order: seq<Handle<K, V>>
    ghost var chains: seq<seq<Handle<K, V>>>

    ghost function Handles(): (s: set<Handle<K, V>>)
      reads this
    {
      set h | h in order
    }

    /** The order list is linked, and no key is in it twice. */
    ghost predicate ListOk()
      reads this, order
    {
      numItems == |order| && Distinct(Items(order)) && Ordered(order) && head == First(order) && tail == Last(order)
    }

    /** The chains are linked, and tell the same story as the order list. */
    ghost predicate ChainsOk()
      reads this, order
    {
      Hung(buckets, chains, Handles()) && Agrees(hash, Items(order), Spelled(buckets, chains), log2)
    }

    /** Without items there is no table. */
    ghost predicate Valid()
      reads this, order
    {
      ListOk() && (order != [] ==> ChainsOk())
    }

    /** The map that the table stands for. */
    ghost function View(): (m: map<K, V>)
      reads this
    {
      MapOf(Items(order))
    }

    constructor (hash: K -> nat)
      ensures Valid() && View() == map[] && this.hash == hash && order == []
    {
      this.hash := hash;
      head, tail, buckets, log2, numItems := null, null, [], INITIAL_LOG2, 0;
      idealChainMaxlen, nonidealItems, ineffExpands, noexpand := 0, 0, 0, false;
      order, chains := [], [];
    }

    /** `HASH_COUNT` */
    method Count() returns (n: nat)
      requires Valid()
      ensures n == |View()|
    {
      hide Ordered, Hung, Agrees;
      n := if head != null then numItems else 0;
      MapOfSize(Items(order));
    }

    /** `HASH_EXPAND_BUCKETS`: twice the buckets, the same items.  The items beyond
        the ideal length are counted exactly, the ideal length is never zero, and
        two ineffective doublings in a row are the last. */
    method Expand()
      requires Valid() && order != []
      modifies this`buckets, this`chains, this`log2, this`idealChainMaxlen, this`nonidealItems, this`ineffExpands,
               this`noexpand,
               order`hhPrev, order`hhNext
      ensures Valid() && log2 == old(log2) + 1 && |buckets| == |chains|
      ensures idealChainMaxlen == IdealLength(numItems, log2) > 0
      ensures nonidealItems == Nonideal(Spelled(buckets, chains), idealChainMaxlen)
      ensures forall b :: 0 <= b < |buckets| ==> MultOk(Spelled(buckets, chains)[b], idealChainMaxlen)
      ensures ineffExpands == if nonidealItems > Shr(numItems, 1) then old(ineffExpands) + 1 else 0
      ensures noexpand <==> old(noexpand) || ineffExpands > 1
    {
      hide Pow2, And, Shr, IdealLength, Distinct, Nonideal, MultOk, Hung, Spelled, Agrees, Ordered, Items;
      IdealIsCeiling(numItems, log2 + 1);
      idealChainMaxlen := IdealLength(numItems, log2 + 1);
      DoubleBuckets();
      ineffExpands := if nonidealItems > Shr(numItems, 1) then ineffExpands + 1 else 0;
      if ineffExpands > 1 {
        noexpand := true;
      }
    }

    /** The doubling itself. */
    method DoubleBuckets()
      requires ListOk() && ChainsOk() && idealChainMaxlen > 0
      modifies this`buckets, this`chains, this`log2, this`nonidealItems, order`hhPrev, order`hhNext
      ensures ListOk() && ChainsOk() && log2 == old(log2) + 1 && |buckets| == |chains|
      ensures nonidealItems == Nonideal(Spelled(buckets, chains), idealChainMaxlen)
      ensures forall b :: 0 <= b < |buckets| ==> MultOk(Spelled(buckets, chains)[b], idealChainMaxlen)
    {
      hide Pow2, Distinct, Nonideal, MultOk, Hung, Spelled, Agrees, Ordered, Items, First, Last;
      var news, nonideal;
      ghost var newChains;
      news, newChains, nonideal := Rebuild(hash, buckets, chains, log2, idealChainMaxlen, order, Handles());
      nonidealItems := nonideal;
      log2 := log2 + 1;
      buckets, chains := news, newChains;
    }

    /** `HASH_MAKE_TABLE`: 32 empty buckets. */
    method MakeTable()
      modifies this`buckets, this`chains, this`log2, this`idealChainMaxlen, this`nonidealItems, this`ineffExpands,
               this`noexpand
      ensures log2 == INITIAL_LOG2 && idealChainMaxlen == nonidealItems == ineffExpands == 0 && !noexpand
      ensures Hung(buckets, chains, {}) && |buckets| == |chains| == 32
      ensures forall b :: 0 <= b < 32 ==> buckets[b] == HandleBucket(null, 0, 0)
      ensures Agrees(hash, [], Spelled(buckets, chains), log2)
    {
      hide Hung, Agrees, Spelled;
      log2, buckets, chains := INITIAL_LOG2, seq(32, _ => HandleBucket(null, 0, 0)), seq(32, _ => []);
      idealChainMaxlen, nonidealItems, ineffExpands, noexpand := 0, 0, 0, false;
      NothingHangs(hash, buckets, chains);
    }

    /** `HASH_FIND`: walk the chain of the key's bucket. */
    method Find(key: K) returns (out: Handle?<K, V>)
      requires Valid()
      ensures out == null <==> key !in View()
      ensures out != null ==> out in order && out.item.key == key && key in View() && View()[key] == out.item.value
    {
      hide Pow2, Total, Slot, MapOf, Ordered, Distinct, Spelled, BucketsOk, InTable, Items;
      if head == null {
        NothingFound(Items(order), key);
        return null;
      }
      BucketFound(hash, order, buckets, chains, log2, key, Handles());
      ghost var chain := chains[Slot(hash(key), log2)];
      out := buckets[Slot(hash(key), log2)].head;
      ghost var i := 0;
      while out != null
        invariant 0 <= i <= |chain| && out == (if i < |chain| then chain[i] else null)
        invariant forall k :: 0 <= k < i ==> chain[k].item.key != key
        decreases |chain| - i
      {
        if out.item.key == key {
          return;
        }
        ChainedAt(chain, i);
        out := out.hhNext;
        i := i + 1;
      }
    }

    /** `HASH_ADD_KEYPTR` on a table that is made, up to the limit test of
        `HASH_ADD_TO_BKT`: append to the order list and push on the chain. */
    method Insert(x: Handle<K, V>)
      requires ListOk() && ChainsOk() && x !in order && x.item.hashv == hash(x.item.key) && x.item.key !in View()
      modifies this`head, this`tail, this`buckets, this`chains, this`order, this`numItems,
               x`next, x`prev, x`hhNext, x`hhPrev, order`next, order`hhPrev
      ensures ListOk() && ChainsOk() && order == old(order) + [x]
      ensures Gained(old(buckets), buckets, Slot(x.item.hashv, log2), x)
    {
      hide Pow2, Slot, MapOf, Ordered, Distinct, Spelled, Hung, Items, Agrees, First, Last;
      ghost var handles := Handles();
      head, tail, buckets, chains := LinkUp(hash, head, tail, buckets, log2, x, order, chains, handles);
      order := order + [x];
      numItems := numItems + 1;
      assert Handles() == handles + {x};
    }

    /** `HASH_ADD_KEYPTR` up to that test: the first item makes the table. */
    method Link(x: Handle<K, V>)
      requires Valid() && x !in order && x.item.hashv == hash(x.item.key) && x.item.key !in View()
      modifies this, x`next, x`prev, x`hhNext, x`hhPrev, order`next, order`hhPrev
      ensures Valid() && order == old(order) + [x]
      ensures Slot(x.item.hashv, log2) < |buckets| && buckets[Slot(x.item.hashv, log2)].count > 0
      ensures old(order) == [] ==>
                && log2 == INITIAL_LOG2 && !noexpand
                && var bkt := buckets[Slot(x.item.hashv, log2)]; bkt.count == 1 && bkt.expandMult == 0
      ensures old(order) != [] ==>
                && log2 == old(log2) && noexpand == old(noexpand)
                && Gained(old(buckets), buckets, Slot(x.item.hashv, log2), x)
    {
      hide Pow2, Slot, MapOf, Ordered, Distinct, Spelled, Hung, Items, Agrees;
      if head == null {
        MakeTable();
        NoHandles(order);
      }
      Insert(x);
    }

    /** `HASH_ADD_KEYPTR`: add a handle with a new key, and double the buckets when its
        chain has reached its limit. */
    method Add(x: Handle<K, V>)
      requires Valid() && x !in order && x.item.hashv == hash(x.item.key) && x.item.key !in View()
      modifies this, x`next, x`prev, x`hhNext, x`hhPrev, order`next, order`hhPrev, order`hhNext
      ensures Valid() && order == old(order) + [x]
      ensures View() == old(View())[x.item.key := x.item.value]
      ensures old(order) == [] ==> log2 == INITIAL_LOG2
      ensures old(order) != [] ==>
                && Slot(x.item.hashv, old(log2)) < |old(buckets)|
                && var bkt := old(buckets)[Slot(x.item.hashv, old(log2))];
                   log2 == if !old(noexpand) && Crowded(bkt.count + 1, bkt.expandMult) then old(log2) + 1 else old(log2)
    {
      hide Pow2, Slot, Ordered, Distinct, Spelled, Hung, Agrees, MapOf;
      MapOfPush(Items(order), x.item);
      Link(x);
      assert Items(order) == Items(old(order)) + [x.item];
      var bkt := buckets[Slot(x.item.hashv, log2)];
      if Crowded(bkt.count, bkt.expandMult) && !noexpand {
        Expand();
      }
    }

    /** `HASH_DELETE` when other items are left: patch up both lists. */
    method Unlink(x: Handle<K, V>, ghost i: nat)
      requires Valid() && i < |order| && order[i] == x && |order| > 1
      modifies this`head, this`tail, this`buckets, this`chains, this`order, this`numItems,
               order`next, order`prev, order`hhNext, order`hhPrev
      ensures Valid() && order == old(order)[..i] + old(order)[i + 1..]
    {
      hide Pow2, Slot, MapOf, Ordered, Distinct, Spelled, Hung, Items, Agrees, First, Last;
      ghost var rest := order[..i] + order[i + 1..];
      head, tail, buckets, chains := LinkOut(hash, head, tail, buckets, log2, x, order, i, chains, Handles());
      order := rest;
      numItems := numItems - 1;
    }

    /** `HASH_DELETE`: unlink a handle from the order list and from its chain; the last
        one takes the table with it. */
    method Delete(x: Handle<K, V>, ghost i: nat)
      requires Valid() && i < |order| && order[i] == x
      modifies this, order`next, order`prev, order`hhNext, order`hhPrev
      ensures Valid() && order == old(order)[..i] + old(order)[i + 1..]
      ensures View() == old(View()) - {x.item.key}
    {
      hide Pow2, Total, Slot, MapOf, Ordered, Distinct, Spelled, BucketsOk, InTable, Hung, Items, Agrees;
      RemovedItems(order, i, order[..i] + order[i + 1..]);
      OrderedAt(order, i);
      if x.prev == null && x.next == null {
        OrderedNone<K, V>();
        head, tail, buckets, chains, order, numItems := null, null, [], [], [], 0;
      } else {
        Unlink(x, i);
      }
    }
  }

  lemma NothingHangs<K(!new), V(!new)>(hash: K -> nat, buckets: seq<HandleBucket<K, V>>, chains: seq<seq<Handle<K, V>>>)
    requires |buckets| == |chains| == 32
    requires forall b :: 0 <= b < 32 ==> buckets[b] == HandleBucket(null, 0, 0) && chains[b] == []
    ensures Hung(buckets, chains, {}) && Agrees(hash, [], Spelled(buckets, chains), INITIAL_LOG2)
  {
    hide Slot, Total, Spelled;
    EmptySums(buckets, chains, 0);
    assert Pow2(2) == 4 && Pow2(INITIAL_LOG2) == 32;
  }

  lemma NoHandles<K, V>(order: seq<Handle<K, V>>)
    requires order == []
    ensures Items(order) == [] && (set h | h in order) == {}
  {
  }

  lemma NothingFound<K, V>(order: seq<Item<K, V>>, key: K)
    requires order == []
    ensures key !in MapOf(order)
  {
  }

  /** What the bucket of a key tells: a handle with the key is the one, and without such
      a handle the key is not there. */
  lemma BucketFound<K(!new), V(!new)>(hash: K -> nat, order: seq<Handle<K, V>>, buckets: seq<HandleBucket<K, V>>,
                                      chains: seq<seq<Handle<K, V>>>, log2: nat, key: K, handles: set<Handle<K, V>>)
    requires Distinct(Items(order)) && Hung(buckets, chains, handles) && handles == set h | h in order
    requires Agrees(hash, Items(order), Spelled(buckets, chains), log2)
    ensures Slot(hash(key), log2) < |chains| == |buckets|
    ensures var chain, m := chains[Slot(hash(key), log2)], MapOf(Items(order));
            && Chained(chain) && buckets[Slot(hash(key), log2)].head == First(chain)
            && (forall k :: 0 <= k < |chain| && chain[k].item.key == key ==>
                  chain[k] in order && key in m && m[key] == chain[k].item.value)
            && (key in m ==> exists k :: 0 <= k < |chain| && chain[k].item.key == key)
  {
    hide Pow2, Total, Slot, MapOf, Chained, Distinct, BucketsOk, Agrees, Spelled, Items;
    BucketInside(hash, Items(order), Spelled(buckets, chains), log2, hash(key));
    var b := Slot(hash(key), log2);
    var chain := chains[b];
    forall k | 0 <= k < |chain| && chain[k].item.key == key
      ensures chain[k] in order && key in MapOf(Items(order)) && MapOf(Items(order))[key] == chain[k].item.value
    {
      assert chain[k] in handles;
      KeyOf(order, chain[k]);
    }
    if key in MapOf(Items(order)) {
      var k := KeyHangs(hash, order, buckets, chains, log2, key);
    }
  }

  lemma BucketInside<K(!new), V(!new)>(hash: K -> nat, order: seq<Item<K, V>>, bs: seq<Bucket<K, V>>, log2: nat,
                                       hashv: nat)
    requires Agrees(hash, order, bs, log2)
    ensures Slot(hashv, log2) < |bs|
  {
    hide Slot, Pow2, BucketsOk, InTable;
    SlotInside(hash, bs, log2, hashv);
  }

  lemma KeyOf<K, V>(order: seq<Handle<K, V>>, h: Handle<K, V>)
    requires Distinct(Items(order)) && h in order
    ensures h.item.key in MapOf(Items(order)) && MapOf(Items(order))[h.item.key] == h.item.value
  {
    hide MapOf, Distinct;
    var i :| 0 <= i < |order| && order[i] == h;
    assert Items(order)[i] in Items(order);
    MapOfKeys(Items(order), h.item.key);
  }

  lemma KeyHangs<K(!new), V(!new)>(hash: K -> nat, order: seq<Handle<K, V>>, buckets: seq<HandleBucket<K, V>>,
                                   chains: seq<seq<Handle<K, V>>>, log2: nat, key: K) returns (k: nat)
    requires |buckets| == |chains| && Distinct(Items(order))
    requires Agrees(hash, Items(order), Spelled(buckets, chains), log2)
    requires Slot(hash(key), log2) < |chains| && key in MapOf(Items(order))
    ensures k < |chains[Slot(hash(key), log2)]| && chains[Slot(hash(key), log2)][k].item.key == key
  {
    hide Pow2, Total, Slot, MapOf, Distinct, BucketsOk;
    var b, bs := Slot(hash(key), log2), Spelled(buckets, chains);
    MapOfKeys(Items(order), key);
    var x :| x in Items(order) && x.key == key;
    assert InTable(bs, log2, x);
    k :| 0 <= k < |bs[b].chain| && bs[b].chain[k] == x;
  }

  /** A handle with a new key hangs nowhere. */
  lemma NewKey<K(!new), V(!new)>(hash: K -> nat, order: seq<Handle<K, V>>, buckets: seq<HandleBucket<K, V>>,
                                 chains: seq<seq<Handle<K, V>>>, log2: nat, x: Handle<K, V>, handles: set<Handle<K, V>>)
    requires x !in order && handles == set h | h in order
    requires Hung(buckets, chains, handles) && Agrees(hash, Items(order), Spelled(buckets, chains), log2)
    ensures |buckets| == |chains| && Slot(x.item.hashv, log2) < |buckets| && ChainsApart(chains)
    ensures forall c :: 0 <= c < |chains| ==> x !in chains[c]
  {
    hide Pow2, Total, Slot, Spelled, BucketsOk, InTable, Items, Chained;
    SlotInside(hash, Spelled(buckets, chains), log2, x.item.hashv);
    SlotsApart(hash, buckets, chains, log2);
  }

  lemma LinkAgrees<K(!new), V(!new)>(hash: K -> nat, order: seq<Handle<K, V>>, buckets: seq<HandleBucket<K, V>>,
                                     chains: seq<seq<Handle<K, V>>>, log2: nat, x: Handle<K, V>,
                                     bkt: HandleBucket<K, V>)
    requires |buckets| == |chains| && Slot(x.item.hashv, log2) < |buckets|
    requires Distinct(Items(order)) && Agrees(hash, Items(order), Spelled(buckets, chains), log2)
    requires x.item.hashv == hash(x.item.key) && x.item.key !in MapOf(Items(order))
    requires var b := Slot(x.item.hashv, log2); bkt == HandleBucket(x, buckets[b].count + 1, buckets[b].expandMult)
    ensures var b := Slot(x.item.hashv, log2);
            && Agrees(hash, Items(order + [x]), Spelled(buckets[b := bkt], chains[b := [x] + chains[b]]), log2)
            && Distinct(Items(order + [x]))
  {
    hide Slot, MapOf, Distinct, Agrees;
    var b := Slot(x.item.hashv, log2);
    MapOfKeys(Items(order), x.item.key);
    assert Items(order + [x]) == Items(order) + [x.item];
    ItemsPush(x, chains[b]);
    SpelledUpdate(buckets, chains, b, bkt, [x] + chains[b]);
    AgreesPush(hash, Items(order), Spelled(buckets, chains), log2, x.item,
               Spelled(buckets[b := bkt], chains[b := [x] + chains[b]])[b]);
  }

  lemma RemovedItems<K, V>(order: seq<Handle<K, V>>, i: nat, rest: seq<Handle<K, V>>)
    requires Distinct(Items(order)) && i < |order| && rest == order[..i] + order[i + 1..]
    ensures Items(rest) == Items(order)[..i] + Items(order)[i + 1..] && Distinct(Items(rest))
    ensures MapOf(Items(rest)) == MapOf(Items(order)) - {order[i].item.key}
  {
    hide MapOf, Distinct;
    assert Items(rest) == Items(order)[..i] + Items(order)[i + 1..];
    DistinctRemove(Items(order), i, Items(rest));
    MapOfRemove(Items(order), Items(rest), order[i].item.key);
  }

  lemma OrderedNone<K, V>()
    ensures Ordered<K, V>([])
  {
  }

  /** Where a handle of the order list hangs. */
  lemma ChainPosition<K(!new), V(!new)>(hash: K -> nat, order: seq<Handle<K, V>>, i: nat,
                                        buckets: seq<HandleBucket<K, V>>, chains: seq<seq<Handle<K, V>>>, log2: nat,
                                        handles: set<Handle<K, V>>) returns (k: nat)
    requires Distinct(Items(order)) && i < |order| && handles == set h | h in order
    requires Hung(buckets, chains, handles) && Agrees(hash, Items(order), Spelled(buckets, chains), log2)
    ensures |buckets| == |chains| && ChainsApart(chains)
    ensures var b := Slot(order[i].item.hashv, log2);
            b < |chains| && k < |chains[b]| && chains[b][k] == order[i] && buckets[b].count == |chains[b]|
  {
    hide Pow2, Total, Slot, BucketsOk, Chained;
    var x, bs := order[i], Spelled(buckets, chains);
    var b := Slot(x.item.hashv, log2);
    SlotInside(hash, bs, log2, x.item.hashv);
    SlotsApart(hash, buckets, chains, log2);
    assert Items(order)[i] in Items(order);
    assert InTable(bs, log2, x.item);
    k :| 0 <= k < |bs[b].chain| && bs[b].chain[k] == x.item;
    var y := chains[b][k];
    assert y in handles;
    var j :| 0 <= j < |order| && order[j] == y;
    assert Items(order)[j].key == Items(order)[i].key;
  }

  lemma DeleteAgrees<K(!new), V(!new)>(hash: K -> nat, order: seq<Handle<K, V>>, i: nat, rest: seq<Handle<K, V>>,
                                       buckets: seq<HandleBucket<K, V>>, chains: seq<seq<Handle<K, V>>>, log2: nat,
                                       k: nat, bkt: HandleBucket<K, V>)
    requires |buckets| == |chains| && i < |order| && rest == order[..i] + order[i + 1..]
    requires Distinct(Items(order)) && Agrees(hash, Items(order), Spelled(buckets, chains), log2)
    requires var b := Slot(order[i].item.hashv, log2);
             && b < |chains| && k < |chains[b]| && chains[b][k] == order[i] && buckets[b].count > 0
             && bkt == HandleBucket(First(chains[b][..k] + chains[b][k + 1..]),
                                    buckets[b].count - 1, buckets[b].expandMult)
    ensures var b := Slot(order[i].item.hashv, log2);
            var less := chains[b][..k] + chains[b][k + 1..];
            Agrees(hash, Items(rest), Spelled(buckets[b := bkt], chains[b := less]), log2)
  {
    hide Slot, Distinct, Agrees, MapOf;
    var b := Slot(order[i].item.hashv, log2);
    var less := chains[b][..k] + chains[b][k + 1..];
    RemovedItems(order, i, rest);
    assert Items(less) == Items(chains[b])[..k] + Items(chains[b])[k + 1..];
    SpelledUpdate(buckets, chains, b, bkt, less);
    AgreesRemove(hash, Items(order), i, Items(rest), Spelled(buckets, chains), log2, k,
                 Spelled(buckets[b := bkt], chains[b := less])[b]);
  }

  /** What hangs in the chains is in the order list: the handle taken out is in neither. */
  lemma FewerHandles<K(!new), V(!new)>(hash: K -> nat, order: seq<Handle<K, V>>, handles: set<Handle<K, V>>,
                                       rest: seq<Handle<K, V>>, buckets: seq<HandleBucket<K, V>>,
                                       chains: seq<seq<Handle<K, V>>>, log2: nat)
    requires Hung(buckets, chains, handles) && Agrees(hash, Items(rest), Spelled(buckets, chains), log2)
    requires Distinct(Items(order)) && handles == (set h | h in order) && forall h :: h in rest ==> h in order
    ensures Hung(buckets, chains, set h | h in rest)
  {
    hide Pow2, Total, Slot, Chained, BucketsOk;
    forall b, k | 0 <= b < |chains| && 0 <= k < |chains[b]| ensures chains[b][k] in rest {
      var y := chains[b][k];
      ChainItem(hash, Items(rest), buckets, chains, log2, b, k);
      var j :| 0 <= j < |rest| && rest[j].item == y.item;
      assert rest[j] in rest;
      var m :| 0 <= m < |order| && order[m] == rest[j];
      assert y in handles;
      var n :| 0 <= n < |order| && order[n] == y;
      assert Items(order)[m].key == Items(order)[n].key;
    }
  }

  lemma ChainItem<K(!new), V(!new)>(hash: K -> nat, order: seq<Item<K, V>>, buckets: seq<HandleBucket<K, V>>,
                                    chains: seq<seq<Handle<K, V>>>, log2: nat, b: nat, k: nat)
    requires |buckets| == |chains| && Agrees(hash, order, Spelled(buckets, chains), log2) && b < |chains|
    requires k < |chains[b]|
    ensures chains[b][k].item in order
  {
    hide Pow2, Total, Slot;
    var bs := Spelled(buckets, chains);
    assert BucketOk(hash, bs[b], log2, b);
    assert bs[b].chain[k] == chains[b][k].item;
    assert InTable(bs, log2, chains[b][k].item);
  }
}
