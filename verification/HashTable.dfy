/**
 * The hash table of uthash.h behind the buffer's index: find, add and delete refine a finite map, also
 * across the doubling of the bucket array. The hash function is any function of the key.
 */
module HashTable {
  import opened Common

  const HASH_INITIAL_NUM_BUCKETS_LOG2: nat := 5
  const HASH_BKT_CAPACITY_THRESH: nat := 10

  /** UT_hash_handle: key and stored hash value of an element. */
  datatype Item = Item(key: nat, hashv: nat, elem: nat)

  /** UT_hash_bucket: the chain, most recent first, its length, and how far it may grow. */
  datatype Bucket = Bucket(chain: seq<Item>, count: int, expandMult: nat)

  const EMPTY_BUCKET: Bucket := Bucket([], 0, 0)

  function Pow2(n: nat): (r: nat)
    ensures r > 0
  {
    if n == 0 then 1 else 2 * Pow2(n - 1)
  }

  lemma DoublePow2(n: nat)
    ensures Pow2(n + 1) == 2 * Pow2(n)
  {
  }

  /** HASH_TO_BKT: masking with a power of two less one is the remainder. */
  function ToBkt(hashv: nat, n: nat): (r: nat)
    requires n > 0
    ensures r < n
  {
    hashv % n
  }

  /** The ceiling of items by buckets. */
  function IdealLen(items: nat, n: nat): (r: nat)
    requires n > 0
    ensures items > 0 ==> r > 0
  {
    items / n + if items % n != 0 then 1 else 0
  }

  lemma DropCard(m: map<nat, nat>, k: nat)
    requires k in m
    ensures |m - {k}| == |m| - 1
  {
    assert (m - {k}).Keys == m.Keys - {k};
  }

  lemma LastKey(m: map<nat, nat>, k: nat)
    requires k in m && |m| == 1
    ensures m - {k} == map[]
  {
    DropCard(m, k);
  }

  /** Every item of the chain belongs to bucket b and holds what m says of its key; no key comes twice. */
  ghost predicate ChainOk(c: seq<Item>, b: nat, n: nat, hash: nat -> nat, m: map<nat, nat>)
    requires n > 0
  {
    && (forall i :: 0 <= i < |c| ==>
          && c[i].hashv == hash(c[i].key) && ToBkt(c[i].hashv, n) == b
          && c[i].key in m && m[c[i].key] == c[i].elem)
    && (forall i, j :: 0 <= i < j < |c| ==> c[i].key != c[j].key)
  }

  predicate HasKey(c: seq<Item>, k: nat) { exists i :: 0 <= i < |c| && c[i].key == k }

  /** The buckets hold exactly the map m, each item in the bucket its hash value names. */
  ghost predicate Holds(bs: seq<Bucket>, hash: nat -> nat, m: map<nat, nat>) {
    && |bs| > 0
    && (forall b :: 0 <= b < |bs| ==> ChainOk(bs[b].chain, b, |bs|, hash, m) && bs[b].count == |bs[b].chain|)
    && (forall k :: k in m ==> HasKey(bs[ToBkt(hash(k), |bs|)].chain, k))
  }

  lemma ChainAdd(c: seq<Item>, b: nat, n: nat, hash: nat -> nat, m: map<nat, nat>, k: nat, e: nat)
    requires n > 0 && ChainOk(c, b, n, hash, m) && k !in m && b == ToBkt(hash(k), n)
    ensures ChainOk([Item(k, hash(k), e)] + c, b, n, hash, m[k := e])
  {
    hide ToBkt;
  }

  lemma ChainKept(c: seq<Item>, b: nat, n: nat, hash: nat -> nat, m: map<nat, nat>, k: nat, e: nat)
    requires n > 0 && ChainOk(c, b, n, hash, m) && k !in m
    ensures ChainOk(c, b, n, hash, m[k := e])
  {
    hide ToBkt;
  }

  /** A new item at the front of its chain. */
  lemma HoldsAdd(bs: seq<Bucket>, hash: nat -> nat, m: map<nat, nat>, k: nat, e: nat, x: nat)
    requires Holds(bs, hash, m) && k !in m
    ensures var b := ToBkt(hash(k), |bs|);
            Holds(bs[b := Bucket([Item(k, hash(k), e)] + bs[b].chain, bs[b].count + 1, x)], hash, m[k := e])
  {
    var b, m1 := ToBkt(hash(k), |bs|), m[k := e];
    var c := [Item(k, hash(k), e)] + bs[b].chain;
    var r := bs[b := Bucket(c, bs[b].count + 1, x)];
    hide ToBkt, ChainOk, HasKey;
    forall q | 0 <= q < |r| ensures ChainOk(r[q].chain, q, |r|, hash, m1) {
      if q == b { ChainAdd(bs[q].chain, q, |bs|, hash, m, k, e);
                 } else { ChainKept(bs[q].chain, q, |bs|, hash, m, k, e); }
    }
    assert HasKey(c, k) by { FrontIsKey(Item(k, hash(k), e), bs[b].chain); }
    forall y | y in m1 && y != k ensures HasKey(r[ToBkt(hash(y), |r|)].chain, y) {
      FrontHasKey(Item(k, hash(k), e), bs[ToBkt(hash(y), |bs|)].chain, y);
    }
  }

  lemma FrontIsKey(x: Item, c: seq<Item>)
    ensures HasKey([x] + c, x.key)
  {
    assert ([x] + c)[0].key == x.key;
  }

  lemma FrontHasKey(x: Item, c: seq<Item>, k: nat)
    requires HasKey(c, k)
    ensures HasKey([x] + c, k)
  {
    var i :| 0 <= i < |c| && c[i].key == k;
    assert ([x] + c)[i + 1].key == k;
  }

  /** Taking item i out of a chain takes out its key and nothing else. */
  lemma DropItem(c: seq<Item>, i: nat, b: nat, n: nat, hash: nat -> nat, m: map<nat, nat>)
    requires n > 0 && i < |c| && ChainOk(c, b, n, hash, m)
    ensures var d := c[..i] + c[i + 1..];
            ChainOk(d, b, n, hash, m - {c[i].key}) && forall y :: y != c[i].key && HasKey(c, y) ==> HasKey(d, y)
  {
    var d := c[..i] + c[i + 1..];
    assert forall j :: 0 <= j < |d| ==> d[j] == if j < i then c[j] else c[j + 1];
    forall y | y != c[i].key && HasKey(c, y) ensures HasKey(d, y) {
      var j :| 0 <= j < |c| && c[j].key == y;
      assert if j < i then d[j] == c[j] else d[j - 1] == c[j];
    }
  }

  /** An item leaves its chain. */
  lemma HoldsDrop(bs: seq<Bucket>, hash: nat -> nat, m: map<nat, nat>, k: nat, i: nat)
    requires Holds(bs, hash, m) && k in m
    requires var c := bs[ToBkt(hash(k), |bs|)].chain; i < |c| && c[i].key == k
    ensures var b := ToBkt(hash(k), |bs|); var c := bs[b].chain;
            Holds(bs[b := bs[b].(chain := c[..i] + c[i + 1..], count := bs[b].count - 1)], hash, m - {k})
  {
    var b, m1 := ToBkt(hash(k), |bs|), m - {k};
    var c := bs[b].chain;
    var r := bs[b := bs[b].(chain := c[..i] + c[i + 1..], count := bs[b].count - 1)];
    assert ChainOk(c, b, |bs|, hash, m);
    DropItem(c, i, b, |bs|, hash, m);
    forall q | 0 <= q < |r| && q != b ensures ChainOk(r[q].chain, q, |r|, hash, m1) {
      assert ChainOk(bs[q].chain, q, |bs|, hash, m);
      NotElsewhere(bs, hash, m, k, q);
    }
    hide ToBkt, ChainOk, HasKey;
    forall y | y in m1 ensures HasKey(r[ToBkt(hash(y), |r|)].chain, y) {
      assert HasKey(bs[ToBkt(hash(y), |bs|)].chain, y);
    }
  }

  lemma KeyInBucket(bs: seq<Bucket>, hash: nat -> nat, m: map<nat, nat>, k: nat)
    requires Holds(bs, hash, m) && k in m
    ensures |bs| > 0 && HasKey(bs[ToBkt(hash(k), |bs|)].chain, k)
  {
  }

  lemma NotElsewhere(bs: seq<Bucket>, hash: nat -> nat, m: map<nat, nat>, k: nat, q: nat)
    requires Holds(bs, hash, m) && q < |bs| && q != ToBkt(hash(k), |bs|)
    ensures forall j :: 0 <= j < |bs[q].chain| ==> bs[q].chain[j].key != k
  {
    assert ChainOk(bs[q].chain, q, |bs|, hash, m);
  }

  /** Nothing in any chain: the empty map. */
  lemma HoldsNone(n: nat, hash: nat -> nat)
    requires n > 0
    ensures Holds(seq(n, _ => EMPTY_BUCKET), hash, map[])
  {
  }

  /** The part of m whose items lie in the buckets below i or among the first j items of bucket i. */
  ghost predicate Moved(m: map<nat, nat>, part: map<nat, nat>, bs: seq<Bucket>, i: nat, j: nat, hash: nat -> nat) {
    && |bs| > 0
    && (forall k :: k in part <==> k in m && Visited(bs, i, j, hash, k))
    && (forall k :: k in part ==> part[k] == m[k])
  }

  lemma MovedNext(m: map<nat, nat>, part: map<nat, nat>, bs: seq<Bucket>, i: nat, j: nat, hash: nat -> nat)
    requires Holds(bs, hash, m) && Moved(m, part, bs, i, j, hash) && i < |bs| && j <= |bs[i].chain|
    ensures j == |bs[i].chain| ==> Moved(m, part, bs, i + 1, 0, hash)
    ensures j < |bs[i].chain| ==>
              var x := bs[i].chain[j];
              && x.key !in part && x.hashv == hash(x.key) && x.key in m
              && Moved(m, part[x.key := x.elem], bs, i, j + 1, hash)
  {
    hide ToBkt;
    var c := bs[i].chain;
    assert ChainOk(c, i, |bs|, hash, m);
    if j == |c| {
      assert c[..j] == c;
      forall k | k in m ensures Visited(bs, i + 1, 0, hash, k) <==> Visited(bs, i, j, hash, k) {
        assert HasKey(bs[ToBkt(hash(k), |bs|)].chain, k);
      }
    } else {
      forall k ensures HasKey(c[..j + 1], k) <==> HasKey(c[..j], k) || k == c[j].key {
        if HasKey(c[..j + 1], k) {
          var q :| 0 <= q < j + 1 && c[..j + 1][q].key == k;
          if q < j { assert c[..j][q].key == k; }
        }
        if HasKey(c[..j], k) {
          var q :| 0 <= q < j && c[..j][q].key == k;
          assert c[..j + 1][q].key == k;
        }
        assert c[..j + 1][j] == c[j];
      }
      assert !HasKey(c[..j], c[j].key);
    }
  }

  lemma NoneMoved(m: map<nat, nat>, bs: seq<Bucket>, hash: nat -> nat)
    requires |bs| > 0
    ensures Moved(m, map[], bs, 0, 0, hash)
  {
  }

  lemma AllMoved(m: map<nat, nat>, part: map<nat, nat>, bs: seq<Bucket>, hash: nat -> nat)
    requires Moved(m, part, bs, |bs|, 0, hash)
    ensures part == m
  {
  }

  /** The keys of the chains of buckets below i, and of the first j items of bucket i. */
  ghost predicate Visited(bs: seq<Bucket>, i: nat, j: nat, hash: nat -> nat, k: nat)
    requires |bs| > 0
  {
    var b := ToBkt(hash(k), |bs|);
    b < i || (b == i && i < |bs| && j <= |bs[i].chain| && HasKey(bs[i].chain[..j], k))
  }

  class HashTable {
    const hash: nat -> nat
    var made: bool                // head is not NULL: there is a table
    var buckets: seq<Bucket>
    var log2NumBuckets: nat
    var numItems: nat
    var idealChainMaxlen: nat
    var nonidealItems: nat
    var ineffExpands: nat
    var noexpand: bool
    ghost var contents: map<nat, nat>

    /** The table holds the contents. */
    ghost predicate TableOk()
      reads this
    {
      && |buckets| == Pow2(log2NumBuckets) && numItems == |contents|
      && Holds(buckets, hash, contents)
    }

    /** There is a table exactly while there are elements. */
    ghost predicate Valid()
      reads this
    {
      (made <==> contents != map[]) && (made ==> TableOk())
    }

    /** A hash is a NULL pointer at first. */
    constructor (hash: nat -> nat)
      ensures Valid() && contents == map[] && this.hash == hash
    {
      this.hash := hash;
      made, buckets, log2NumBuckets, numItems, idealChainMaxlen := false, [], 0, 0, 0;
      nonidealItems, ineffExpands, noexpand := 0, 0, false;
      contents := map[];
    }

    /** HASH_MAKE_TABLE */
    method MakeTable()
      requires contents == map[]
      modifies this
      ensures made && TableOk() && contents == map[]
    {
      made := true;
      buckets := seq(Pow2(HASH_INITIAL_NUM_BUCKETS_LOG2), _ => EMPTY_BUCKET);
      log2NumBuckets, numItems, idealChainMaxlen := HASH_INITIAL_NUM_BUCKETS_LOG2, 0, 0;
      nonidealItems, ineffExpands, noexpand := 0, 0, false;
      HoldsNone(Pow2(HASH_INITIAL_NUM_BUCKETS_LOG2), hash);
    }

    /** HASH_FIND */
    method Find(k: nat) returns (r: Option<nat>)
      requires Valid()
      ensures r == if k in contents then Some(contents[k]) else None
    {
      if !made {
        return None;
      }
      var b := ToBkt(hash(k), |buckets|);
      var c := buckets[b].chain;
      assert ChainOk(c, b, |buckets|, hash, contents);
      var i := 0;
      while i < |c|
        invariant 0 <= i <= |c| && forall j :: 0 <= j < i ==> c[j].key != k
      {
        if c[i].key == k {
          return Some(c[i].elem);
        }
        i := i + 1;
      }
      r := None;
    }

    /** HASH_ADD_KEYPTR; the caller has found the key absent. */
    method Add(k: nat, elem: nat)
      requires Valid() && k !in contents
      modifies this
      ensures Valid() && contents == old(contents)[k := elem]
    {
      hide Pow2, Holds;
      if !made {
        MakeTable();
      }
      Insert(k, elem);
      assert k in contents;
    }

    /** Its part once there is a table: the new item goes to the front of its chain, and the table may grow. */
    method Insert(k: nat, elem: nat)
      requires made && TableOk() && k !in contents
      modifies this
      ensures made && TableOk() && contents == old(contents)[k := elem]
    {
      hide ToBkt, Pow2, ChainOk, Holds, HasKey;
      HoldsAdd(buckets, hash, contents, k, elem, buckets[ToBkt(hash(k), |buckets|)].expandMult);
      var hashv := hash(k);
      var b := ToBkt(hashv, |buckets|);
      numItems := numItems + 1;
      var bkt := buckets[b];
      bkt := bkt.(count := bkt.count + 1);
      bkt := bkt.(chain := [Item(k, hashv, elem)] + bkt.chain);
      buckets := buckets[b := bkt];
      contents := contents[k := elem];
      if bkt.count >= (bkt.expandMult + 1) * HASH_BKT_CAPACITY_THRESH && !noexpand {
        ExpandBuckets();
      }
    }

    /** HASH_DELETE: the last element takes the table with it. */
    method Delete(k: nat)
      requires Valid() && k in contents
      modifies this
      ensures Valid() && contents == old(contents) - {k} && made == (|old(contents)| > 1)
    {
      hide ToBkt, Pow2, ChainOk, Holds, HasKey;
      DropCard(contents, k);
      if numItems == 1 {
        LastKey(contents, k);
        made, buckets, log2NumBuckets, numItems := false, [], 0, 0;
        contents := map[];
      } else {
        Unlink(k);
      }
    }

    /** Its part while other elements are left. */
    method Unlink(k: nat)
      requires made && TableOk() && k in contents && |contents| > 1
      modifies this
      ensures made && TableOk() && contents == old(contents) - {k} && contents != map[]
    {
      hide ToBkt, Pow2, ChainOk, Holds, HasKey;
      KeyInBucket(buckets, hash, contents, k);
      var b := ToBkt(hash(k), |buckets|);
      var bkt := buckets[b];
      var i := IndexIn(bkt.chain, k);
      HoldsDrop(buckets, hash, contents, k, i);
      DropCard(contents, k);
      buckets := buckets[b := bkt.(chain := bkt.chain[..i] + bkt.chain[i + 1..], count := bkt.count - 1)];
      numItems := numItems - 1;
      contents := contents - {k};
    }

    /** Where key k is in a chain. */
    static method IndexIn(c: seq<Item>, k: nat) returns (i: nat)
      requires HasKey(c, k)
      ensures i < |c| && c[i].key == k
    {
      i := 0;
      while c[i].key != k
        invariant i < |c| && forall j :: 0 <= j < i ==> c[j].key != k
        decreases |c| - i
      {
        i := i + 1;
      }
    }

    /** The loop body of HASH_EXPAND_BUCKETS: one item goes to the front of its new chain. */
    method Rehash(x: Item, bs: seq<Bucket>, ghost part: map<nat, nat>) returns (r: seq<Bucket>)
      requires Holds(bs, hash, part) && x.key !in part && x.hashv == hash(x.key) && idealChainMaxlen > 0
      modifies this`nonidealItems
      ensures |r| == |bs| && Holds(r, hash, part[x.key := x.elem])
    {
      var b := ToBkt(x.hashv, |bs|);
      var bkt := bs[b].(count := bs[b].count + 1);
      assert ChainOk(bs[b].chain, b, |bs|, hash, part);
      if bkt.count > idealChainMaxlen {
        nonidealItems := nonidealItems + 1;
        bkt := bkt.(expandMult := bkt.count / idealChainMaxlen);
      }
      HoldsAdd(bs, hash, part, x.key, x.elem, bkt.expandMult);
      hide Holds, ToBkt;
      r := bs[b := bkt.(chain := [x] + bkt.chain)];
    }

    /** The inner loop of HASH_EXPAND_BUCKETS: the chain of old bucket i is moved. */
    method MoveChain(i: nat, bs: seq<Bucket>, ghost part: map<nat, nat>)
      returns (r: seq<Bucket>, ghost part': map<nat, nat>)
      requires TableOk() && i < |buckets| && Holds(bs, hash, part) && Moved(contents, part, buckets, i, 0, hash)
      requires numItems > 0 ==> idealChainMaxlen > 0
      modifies this`nonidealItems
      ensures TableOk() && |r| == |bs| && Holds(r, hash, part') && Moved(contents, part', buckets, i + 1, 0, hash)
    {
      hide Holds, Moved;
      var c := buckets[i].chain;
      var j := 0;
      r, part' := bs, part;
      while j < |c|
        invariant 0 <= j <= |c| && TableOk() && |r| == |bs|
        invariant Holds(r, hash, part') && Moved(contents, part', buckets, i, j, hash)
      {
        MovedNext(contents, part', buckets, i, j, hash);
        r := Rehash(c[j], r, part');
        part' := part'[c[j].key := c[j].elem];
        j := j + 1;
      }
      MovedNext(contents, part', buckets, i, j, hash);
    }

    /** HASH_EXPAND_BUCKETS: twice as many buckets, every item in the one its hash value now names. */
    method ExpandBuckets()
      requires TableOk()
      modifies this
      ensures TableOk() && made == old(made) && contents == old(contents) && |buckets| == 2 * |old(buckets)|
    {
      hide Holds, Moved, IdealLen, Pow2;
      var bs := seq(2 * |buckets|, _ => EMPTY_BUCKET);
      idealChainMaxlen := IdealLen(numItems, |bs|);
      nonidealItems := 0;
      ghost var part: map<nat, nat> := map[];
      HoldsNone(|bs|, hash);
      NoneMoved(contents, buckets, hash);
      var i := 0;
      while i < |buckets|
        invariant 0 <= i <= |buckets| && TableOk() && |bs| == 2 * |buckets|
        invariant contents == old(contents) && buckets == old(buckets) && made == old(made)
        invariant Holds(bs, hash, part) && Moved(contents, part, buckets, i, 0, hash)
        invariant numItems > 0 ==> idealChainMaxlen > 0
      {
        bs, part := MoveChain(i, bs, part);
        i := i + 1;
      }
      AllMoved(contents, part, buckets, hash);
      buckets := bs;
      DoublePow2(log2NumBuckets);
      log2NumBuckets := log2NumBuckets + 1;
      ineffExpands := if nonidealItems > numItems / 2 then ineffExpands + 1 else 0;
      if ineffExpands > 1 {
        noexpand := true;
      }
    }
  }
}
