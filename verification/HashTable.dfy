/** The separate-chaining hash table: the first entry of each bucket lies in the bucket array, the others on a chain. */
module HashTable {
  import opened Wrappers

  type Key = seq<char>

  datatype Entry<+V> = Entry(key: Key, value: V)

  /** An empty bucket has no inline entry, and then no chain either. */
  datatype Bucket<+V> = Bucket(head: Option<Entry<V>>, chain: seq<Entry<V>>)

  function List<V>(b: Bucket<V>): seq<Entry<V>> {
    if b.head.None? then [] else [b.head.value] + b.chain
  }

  // ---------- one bucket ----------

  ghost predicate HasKey<V>(q: seq<Entry<V>>, k: Key) {
    exists i :: 0 <= i < |q| && q[i].key == k
  }

  ghost predicate DistinctKeys<V>(q: seq<Entry<V>>) {
    forall i, j :: 0 <= i < j < |q| ==> q[i].key != q[j].key
  }

  /** The inline entry is empty only if the chain is. */
  ghost predicate Shape<V>(b: Bucket<V>) {
    b.head.None? ==> b.chain == []
  }

  // ---------- the whole table ----------

  /** The bucket of a key. */
  function Index(hash: Key -> nat, k: Key, cap: nat): (i: nat)
    requires 0 < cap
    ensures i < cap
  {
    hash(k) % cap
  }

  /** Entry `e` of bucket `i` belongs there and to `m`. */
  ghost predicate InPlace<V>(hash: Key -> nat, cap: nat, m: map<Key, V>, i: int, e: Entry<V>) {
    0 < cap && Index(hash, e.key, cap) == i && e.key in m && m[e.key] == e.value
  }

  ghost predicate BucketOk<V>(hash: Key -> nat, cap: nat, m: map<Key, V>, i: int, b: Bucket<V>) {
    Shape(b) && DistinctKeys(List(b)) && forall e :: e in List(b) ==> InPlace(hash, cap, m, i, e)
  }

  /** The buckets hold exactly the associations of `m`, each where its hash says. */
  ghost predicate Holds<V>(bs: seq<Bucket<V>>, hash: Key -> nat, m: map<Key, V>) {
    && 0 < |bs|
    && (forall i :: 0 <= i < |bs| ==> BucketOk(hash, |bs|, m, i, bs[i]))
    && (forall k :: k in m ==> HasKey(List(bs[Index(hash, k, |bs|)]), k))
  }

  /** Every entry lies in the bucket that its hash selects. */
  lemma InItsBucket<V>(bs: seq<Bucket<V>>, hash: Key -> nat, m: map<Key, V>, i: nat, e: Entry<V>)
    requires Holds(bs, hash, m) && i < |bs| && e in List(bs[i])
    ensures hash(e.key) % |bs| == i && e.key in m && m[e.key] == e.value
  {
    hide List;
    assert BucketOk(hash, |bs|, m, i, bs[i]);
  }

  lemma KeyFound<V>(bs: seq<Bucket<V>>, hash: Key -> nat, m: map<Key, V>, k: Key)
    requires Holds(bs, hash, m)
    ensures HasKey(List(bs[Index(hash, k, |bs|)]), k) <==> k in m
    ensures forall j :: 0 <= j < |List(bs[Index(hash, k, |bs|)])| && List(bs[Index(hash, k, |bs|)])[j].key == k ==>
              k in m && m[k] == List(bs[Index(hash, k, |bs|)])[j].value
  {
    hide Index;
    var i := Index(hash, k, |bs|);
    var q := List(bs[i]);
    assert BucketOk(hash, |bs|, m, i, bs[i]);
    forall j | 0 <= j < |q| && q[j].key == k ensures k in m && m[k] == q[j].value {
      assert q[j] in q && InPlace(hash, |bs|, m, i, q[j]);
    }
  }

  /** `m'` differs from `m` at most at `k`. */
  ghost predicate SameBut<V>(m: map<Key, V>, m': map<Key, V>, k: Key) {
    forall l :: l != k ==> (l in m' <==> l in m) && (l in m ==> m'[l] == m[l])
  }

  /** `q'` differs from `q` at most in entries for `k`. */
  ghost predicate SameEntriesBut<V>(q: seq<Entry<V>>, q': seq<Entry<V>>, k: Key) {
    && (forall e :: e in q && e.key != k ==> e in q')
    && (forall e :: e in q' && e.key != k ==> e in q)
  }

  /** Replacing the bucket of `k`, when only `k` is affected. */
  lemma BucketReplaced<V>(bs: seq<Bucket<V>>, hash: Key -> nat, m: map<Key, V>, m': map<Key, V>, k: Key, b: Bucket<V>)
    requires Holds(bs, hash, m) && Shape(b) && DistinctKeys(List(b)) && SameBut(m, m', k)
    requires k in m' <==> HasKey(List(b), k)
    requires forall e :: e in List(b) && e.key == k ==> k in m' && e.value == m'[k]
    requires SameEntriesBut(List(bs[Index(hash, k, |bs|)]), List(b), k)
    ensures Holds(bs[Index(hash, k, |bs|) := b], hash, m')
  {
    hide Index, List, DistinctKeys, Shape, HasKey;
    var x := Index(hash, k, |bs|);
    var bs' := bs[x := b];
    forall i | 0 <= i < |bs'| ensures BucketOk(hash, |bs|, m', i, bs'[i]) {
      assert BucketOk(hash, |bs|, m, i, bs[i]);
      forall e | e in List(bs'[i]) ensures InPlace(hash, |bs|, m', i, e) {
        if e.key != k { assert e in List(bs[i]) && InPlace(hash, |bs|, m, i, e); }
        else if i != x { assert false; }
      }
    }
    forall l | l in m' ensures HasKey(List(bs'[Index(hash, l, |bs|)]), l) {
      if l != k { KeyStays(List(bs[x]), List(b), k, l); }
    }
  }

  lemma KeyStays<V>(q: seq<Entry<V>>, q': seq<Entry<V>>, k: Key, l: Key)
    requires SameEntriesBut(q, q', k) && l != k
    ensures HasKey(q, l) ==> HasKey(q', l)
  {
    if HasKey(q, l) {
      var i :| 0 <= i < |q| && q[i].key == l;
      assert q[i] in q && q[i] in q';
    }
  }

  // ---------- changes to one bucket ----------

  /** Position `p` of the bucket's list holds `e` from now on. */
  function Updated<V>(b: Bucket<V>, p: nat, e: Entry<V>): (b': Bucket<V>)
    requires p < |List(b)|
    ensures List(b') == List(b)[p := e]
  {
    if p == 0 then b.(head := Some(e)) else b.(chain := b.chain[p - 1 := e])
  }

  /** A new entry goes inline if the bucket is empty and to the end of the chain otherwise. */
  function Appended<V>(b: Bucket<V>, e: Entry<V>): (b': Bucket<V>)
    requires Shape(b)
    ensures Shape(b') && List(b') == List(b) + [e]
  {
    if b.head.None? then b.(head := Some(e)) else b.(chain := b.chain + [e])
  }

  /** Removing the inline entry moves the first of the chain into its place. */
  function Removed<V>(b: Bucket<V>, p: nat): Bucket<V>
    requires p < |List(b)|
  {
    if p > 0 then b.(chain := b.chain[..p - 1] + b.chain[p..])
    else if b.chain != [] then Bucket(Some(b.chain[0]), b.chain[1..])
    else Bucket(None, [])
  }

  lemma RemovedList<V>(b: Bucket<V>, p: nat)
    requires p < |List(b)|
    ensures Shape(Removed(b, p)) && List(Removed(b, p)) == List(b)[..p] + List(b)[p + 1..]
  {
    HeadCut(b.head.value, b.chain, p);
    if p > 0 {
      assert [b.head.value] + (b.chain[..p - 1] + b.chain[p..]) == ([b.head.value] + b.chain[..p - 1]) + b.chain[p..];
    } else if b.chain != [] {
      assert [b.chain[0]] + b.chain[1..] == b.chain;
    }
  }

  lemma HeadCut<V>(h: Entry<V>, chain: seq<Entry<V>>, p: nat)
    requires p <= |chain|
    ensures ([h] + chain)[..p] == if p == 0 then [] else [h] + chain[..p - 1]
    ensures ([h] + chain)[p + 1..] == chain[p..]
  {
  }

  /** Replacing an entry by one with the same key. */
  lemma UpdatedSame<V>(q: seq<Entry<V>>, p: nat, e: Entry<V>)
    requires p < |q| && q[p].key == e.key && DistinctKeys(q)
    ensures DistinctKeys(q[p := e]) && HasKey(q[p := e], e.key) && SameEntriesBut(q, q[p := e], e.key)
    ensures forall f :: f in q[p := e] && f.key == e.key ==> f == e
  {
    var r := q[p := e];
    assert r[p].key == e.key;
    forall f | f in q && f.key != e.key ensures f in r {
      var j :| 0 <= j < |q| && q[j] == f;
      assert r[j] == f;
    }
  }

  lemma UpdatedShape<V>(b: Bucket<V>, p: nat, e: Entry<V>)
    requires p < |List(b)| && Shape(b)
    ensures Shape(Updated(b, p, e)) && List(Updated(b, p, e)) == List(b)[p := e]
  {
  }

  lemma UpdateBucket<V>(bs: seq<Bucket<V>>, hash: Key -> nat, m: map<Key, V>, k: Key, v: V, p: nat)
    requires Holds(bs, hash, m) && p < |List(bs[Index(hash, k, |bs|)])| && List(bs[Index(hash, k, |bs|)])[p].key == k
    ensures k in m && m[k] == List(bs[Index(hash, k, |bs|)])[p].value
    ensures Holds(bs[Index(hash, k, |bs|) := Updated(bs[Index(hash, k, |bs|)], p, Entry(k, v))], hash, m[k := v])
  {
    hide Index, Holds;
    KeyFound(bs, hash, m, k);
    var x := Index(hash, k, |bs|);
    BucketShape(bs, hash, m, x);
    var q, e := List(bs[x]), Entry(k, v);
    var b := Updated(bs[x], p, e);
    UpdatedShape(bs[x], p, e);
    hide Shape, List, Updated, DistinctKeys, HasKey, SameEntriesBut;
    UpdatedSame(q, p, e);
    BucketReplaced(bs, hash, m, m[k := v], k, b);
  }

  lemma BucketShape<V>(bs: seq<Bucket<V>>, hash: Key -> nat, m: map<Key, V>, x: int)
    requires Holds(bs, hash, m) && 0 <= x < |bs|
    ensures Shape(bs[x]) && DistinctKeys(List(bs[x]))
  {
    assert BucketOk(hash, |bs|, m, x, bs[x]);
  }

  lemma AppendBucket<V>(bs: seq<Bucket<V>>, hash: Key -> nat, m: map<Key, V>, k: Key, v: V)
    requires Holds(bs, hash, m) && !HasKey(List(bs[Index(hash, k, |bs|)]), k)
    ensures k !in m && Shape(bs[Index(hash, k, |bs|)])
    ensures Holds(bs[Index(hash, k, |bs|) := Appended(bs[Index(hash, k, |bs|)], Entry(k, v))], hash, m[k := v])
  {
    hide Index, Holds;
    KeyFound(bs, hash, m, k);
    var x := Index(hash, k, |bs|);
    BucketShape(bs, hash, m, x);
    var q, e := List(bs[x]), Entry(k, v);
    var b := Appended(bs[x], e);
    assert List(b)[|q|].key == k;
    hide List, Appended;
    BucketReplaced(bs, hash, m, m[k := v], k, b);
  }

  lemma RemoveBucket<V>(bs: seq<Bucket<V>>, hash: Key -> nat, m: map<Key, V>, k: Key, p: nat)
    requires Holds(bs, hash, m) && p < |List(bs[Index(hash, k, |bs|)])| && List(bs[Index(hash, k, |bs|)])[p].key == k
    ensures k in m && m[k] == List(bs[Index(hash, k, |bs|)])[p].value
    ensures Holds(bs[Index(hash, k, |bs|) := Removed(bs[Index(hash, k, |bs|)], p)], hash, m - {k})
  {
    hide Index, Holds;
    KeyFound(bs, hash, m, k);
    var x := Index(hash, k, |bs|);
    BucketShape(bs, hash, m, x);
    var q := List(bs[x]);
    var b := Removed(bs[x], p);
    RemovedList(bs[x], p);
    hide List, Removed, DistinctKeys, HasKey, SameEntriesBut;
    RemovedDistinct(q, p);
    RemovedSame(q, p);
    RemovedNoKey(q, p);
    BucketReplaced(bs, hash, m, m - {k}, k, b);
  }

  lemma RemovedSame<V>(q: seq<Entry<V>>, p: nat)
    requires p < |q|
    ensures SameEntriesBut(q, q[..p] + q[p + 1..], q[p].key)
  {
    var r := q[..p] + q[p + 1..];
    forall f | f in q && f.key != q[p].key ensures f in r {
      var j :| 0 <= j < |q| && q[j] == f;
      assert r[if j < p then j else j - 1] == f;
    }
  }

  lemma RemovedNoKey<V>(q: seq<Entry<V>>, p: nat)
    requires p < |q| && DistinctKeys(q)
    ensures forall e :: e in q[..p] + q[p + 1..] ==> e.key != q[p].key
  {
  }

  lemma RemovedDistinct<V>(q: seq<Entry<V>>, p: nat)
    requires p < |q| && DistinctKeys(q)
    ensures DistinctKeys(q[..p] + q[p + 1..]) && !HasKey(q[..p] + q[p + 1..], q[p].key)
  {
  }

  // ---------- iteration ----------

  /** All entries from bucket `i` on, in the order of iteration. */
  function Flatten<V>(bs: seq<Bucket<V>>, i: nat): seq<Entry<V>>
    requires i <= |bs|
    decreases |bs| - i
  {
    if i == |bs| then [] else List(bs[i]) + Flatten(bs, i + 1)
  }

  /** A position in an iteration: a bucket and an entry of its list; `base` is the capacity at the end. */
  datatype Position = Position(base: nat, entry: nat)

  ghost predicate AtEntry<V>(bs: seq<Bucket<V>>, it: Position) {
    it.base <= |bs| && if it.base == |bs| then it.entry == 0 else it.entry < |List(bs[it.base])|
  }

  /** The entries still to be visited. */
  function Remaining<V>(bs: seq<Bucket<V>>, it: Position): seq<Entry<V>>
    requires AtEntry(bs, it)
  {
    if it.base == |bs| then [] else List(bs[it.base])[it.entry..] + Flatten(bs, it.base + 1)
  }

  /** The first bucket from `i` on that is not empty. */
  method SkipEmpty<V>(bs: seq<Bucket<V>>, i: nat) returns (it: Position)
    requires i <= |bs| && forall j :: 0 <= j < |bs| ==> Shape(bs[j])
    ensures AtEntry(bs, it) && Remaining(bs, it) == Flatten(bs, i)
  {
    hide Flatten, List, Remaining, AtEntry, Shape;
    var base := i;
    while base < |bs| && bs[base].head.None?
      invariant i <= base <= |bs| && Flatten(bs, base) == Flatten(bs, i)
    {
      SkipOne(bs, base);
      base := base + 1;
    }
    it := Position(base, 0);
    FromBase(bs, base);
  }

  lemma SkipOne<V>(bs: seq<Bucket<V>>, i: nat)
    requires i < |bs| && bs[i].head.None?
    ensures Flatten(bs, i) == Flatten(bs, i + 1)
  {
    assert List(bs[i]) == [];
  }

  lemma {:induction false} FromBase<V>(bs: seq<Bucket<V>>, i: nat)
    requires i <= |bs| && (i < |bs| ==> bs[i].head.Some?)
    ensures AtEntry(bs, Position(i, 0)) && Remaining(bs, Position(i, 0)) == Flatten(bs, i)
  {
    hide Flatten;
    if i < |bs| {
      HeadListed(bs[i]);
      FlattenStep(bs, i);
      hide List;
      DropNone(List(bs[i]));
    } else {
      FlattenEnd(bs);
    }
  }

  lemma HeadListed<V>(b: Bucket<V>)
    requires b.head.Some?
    ensures |List(b)| > 0
  {
  }

  lemma DropNone<V>(q: seq<Entry<V>>)
    ensures q[0..] == q
  {
  }

  /** `hash_table_get_iterator`. */
  method GetIterator<V>(bs: seq<Bucket<V>>) returns (it: Position)
    requires forall j :: 0 <= j < |bs| ==> Shape(bs[j])
    ensures AtEntry(bs, it) && Remaining(bs, it) == Flatten(bs, 0)
  {
    it := SkipEmpty(bs, 0);
  }

  /** `hash_table_iterator_has_next`: the current entry, if there is one. */
  method HasNext<V>(bs: seq<Bucket<V>>, it: Position) returns (e: Option<Entry<V>>)
    requires AtEntry(bs, it)
    ensures e == if Remaining(bs, it) == [] then None else Some(Remaining(bs, it)[0])
  {
    if it.base != |bs| {
      e := Some(if it.entry == 0 then bs[it.base].head.value else bs[it.base].chain[it.entry - 1]);
    } else {
      e := None;
    }
  }

  /** `hash_table_iterator_next`: along the chain, then on to the next bucket that is not empty. */
  method Next<V>(bs: seq<Bucket<V>>, it: Position) returns (it': Position, more: bool)
    requires AtEntry(bs, it) && forall j :: 0 <= j < |bs| ==> Shape(bs[j])
    ensures AtEntry(bs, it') && Remaining(bs, it') == if Remaining(bs, it) == [] then [] else Remaining(bs, it)[1..]
    ensures more <==> Remaining(bs, it') != []
  {
    hide Remaining, Flatten, List, Shape;
    if it.base == |bs| {
      NothingLeft(bs, it);
      return it, false;
    }
    ListLength(bs[it.base]);
    if it.entry < |bs[it.base].chain| {
      AlongChain(bs, it);
      it' := Position(it.base, it.entry + 1);
      NothingLeft(bs, it');
      return it', true;
    }
    EndOfChain(bs, it);
    it' := SkipEmpty(bs, it.base + 1);
    NothingLeft(bs, it');
    more := it'.base != |bs|;
  }

  lemma ListLength<V>(b: Bucket<V>)
    requires Shape(b)
    ensures |List(b)| == if b.head.None? then 0 else 1 + |b.chain|
  {
  }

  lemma NothingLeft<V>(bs: seq<Bucket<V>>, it: Position)
    requires AtEntry(bs, it)
    ensures it.base == |bs| <==> Remaining(bs, it) == []
  {
  }

  lemma AlongChain<V>(bs: seq<Bucket<V>>, it: Position)
    requires AtEntry(bs, it) && it.base < |bs| && it.entry + 1 < |List(bs[it.base])|
    ensures Remaining(bs, it) != [] && Remaining(bs, Position(it.base, it.entry + 1)) == Remaining(bs, it)[1..]
  {
    hide List, Flatten;
    DropOne(List(bs[it.base]), Flatten(bs, it.base + 1), it.entry);
  }

  lemma DropOne<V>(a: seq<Entry<V>>, b: seq<Entry<V>>, p: nat)
    requires p < |a|
    ensures |a[p..] + b| > 0 && (a[p..] + b)[1..] == a[p + 1..] + b
  {
  }

  lemma EndOfChain<V>(bs: seq<Bucket<V>>, it: Position)
    requires AtEntry(bs, it) && it.base < |bs| && it.entry + 1 == |List(bs[it.base])|
    ensures Remaining(bs, it) != [] && Flatten(bs, it.base + 1) == Remaining(bs, it)[1..]
  {
    hide List, Flatten;
    DropOne(List(bs[it.base]), Flatten(bs, it.base + 1), it.entry);
    assert List(bs[it.base])[it.entry + 1..] + Flatten(bs, it.base + 1) == Flatten(bs, it.base + 1);
  }

  /** The entries from bucket `i` on are distinct, and are the associations whose bucket is `i` or later. */
  ghost predicate Tail<V>(hash: Key -> nat, cap: nat, m: map<Key, V>, q: seq<Entry<V>>, i: nat)
    requires 0 < cap
  {
    && DistinctKeys(q)
    && (forall e :: e in q ==> e.key in m && m[e.key] == e.value && Index(hash, e.key, cap) >= i)
    && (forall k :: k in m && Index(hash, k, cap) >= i ==> HasKey(q, k))
  }

  lemma {:induction false} FlattenTail<V>(bs: seq<Bucket<V>>, hash: Key -> nat, m: map<Key, V>, i: nat)
    requires Holds(bs, hash, m) && i <= |bs|
    ensures Tail(hash, |bs|, m, Flatten(bs, i), i)
    decreases |bs| - i
  {
    hide Index, Holds, List, Flatten;
    if i < |bs| {
      FlattenTail(bs, hash, m, i + 1);
      BucketHolds(bs, hash, m, i);
      TailStep(hash, |bs|, m, List(bs[i]), Flatten(bs, i + 1), i);
      FlattenStep(bs, i);
    } else {
      FlattenEnd(bs);
    }
  }

  lemma FlattenEnd<V>(bs: seq<Bucket<V>>)
    ensures Flatten(bs, |bs|) == []
  {
  }

  lemma BucketHolds<V>(bs: seq<Bucket<V>>, hash: Key -> nat, m: map<Key, V>, i: nat)
    requires Holds(bs, hash, m) && i < |bs|
    ensures DistinctKeys(List(bs[i])) && (forall e :: e in List(bs[i]) ==> InPlace(hash, |bs|, m, i, e))
    ensures forall k :: k in m && Index(hash, k, |bs|) == i ==> HasKey(List(bs[i]), k)
  {
    hide Index, InPlace, DistinctKeys, HasKey, List;
    assert BucketOk(hash, |bs|, m, i, bs[i]);
  }

  lemma FlattenStep<V>(bs: seq<Bucket<V>>, i: nat)
    requires i < |bs|
    ensures Flatten(bs, i) == List(bs[i]) + Flatten(bs, i + 1)
  {
  }

  lemma TailStep<V>(hash: Key -> nat, cap: nat, m: map<Key, V>, q: seq<Entry<V>>, r: seq<Entry<V>>, i: nat)
    requires 0 < cap && Tail(hash, cap, m, r, i + 1) && DistinctKeys(q)
    requires forall e :: e in q ==> InPlace(hash, cap, m, i, e)
    requires forall k :: k in m && Index(hash, k, cap) == i ==> HasKey(q, k)
    ensures Tail(hash, cap, m, q + r, i)
  {
    hide Index;
    var s := q + r;
    assert forall j :: 0 <= j < |q| ==> s[j] == q[j] && s[j] in q;
    assert forall j :: |q| <= j < |s| ==> s[j] == r[j - |q|] && s[j] in r;
    forall k | k in m && Index(hash, k, cap) >= i ensures HasKey(s, k) {
      if Index(hash, k, cap) == i {
        var j :| 0 <= j < |q| && q[j].key == k;
        assert s[j].key == k;
      } else {
        var j :| 0 <= j < |r| && r[j].key == k;
        assert s[|q| + j].key == k;
      }
    }
    DistinctAppend(hash, cap, q, r, i);
  }

  lemma DistinctAppend<V>(hash: Key -> nat, cap: nat, q: seq<Entry<V>>, r: seq<Entry<V>>, i: nat)
    requires 0 < cap && DistinctKeys(q) && DistinctKeys(r)
    requires (forall e :: e in q ==> Index(hash, e.key, cap) == i) && (forall e :: e in r ==> Index(hash, e.key, cap) > i)
    ensures DistinctKeys(q + r)
  {
    hide Index;
    var s := q + r;
    forall a, b | 0 <= a < b < |s| ensures s[a].key != s[b].key {
      if a < |q| <= b { assert s[a] in q && s[b] in r; }
    }
  }

  lemma {:induction false} CountEntries<V>(q: seq<Entry<V>>, m: map<Key, V>)
    requires DistinctKeys(q) && (forall e :: e in q ==> e.key in m && m[e.key] == e.value) && forall k :: k in m ==> HasKey(q, k)
    ensures |q| == |m|
  {
    if q == [] {
      assert forall k :: k in m ==> HasKey(q, k);
      assert m == map[];
    } else {
      var n := |q| - 1;
      var r, e := q[..n], q[n];
      var m' := m - {e.key};
      assert e in q;
      forall f | f in r ensures f.key in m' && m'[f.key] == f.value { assert f in q; }
      forall k | k in m' ensures HasKey(r, k) {
        var j :| 0 <= j < |q| && q[j].key == k;
        assert r[j].key == k;
      }
      CountEntries(r, m');
      assert m.Keys == m'.Keys + {e.key};
      assert |m.Keys| == |m'.Keys| + 1;
    }
  }

  /** Iteration visits every association exactly once, and nothing else. */
  lemma IterationVisitsAll<V>(bs: seq<Bucket<V>>, hash: Key -> nat, m: map<Key, V>)
    requires Holds(bs, hash, m)
    ensures DistinctKeys(Flatten(bs, 0)) && |Flatten(bs, 0)| == |m|
    ensures forall e :: e in Flatten(bs, 0) ==> e.key in m && m[e.key] == e.value
    ensures forall k :: k in m ==> HasKey(Flatten(bs, 0), k)
  {
    FlattenTail(bs, hash, m, 0);
    hide Holds, Flatten, Index;
    CountEntries(Flatten(bs, 0), m);
  }

  // ---------- the table ----------

  /** The entry count is below three quarters of the capacity. */
  predicate Roomy(count: nat, cap: nat) { 4 * count < 3 * cap }

  /** `tm` holds the first `i` of the entries `all` of `m`. */
  ghost predicate Moved<V>(all: seq<Entry<V>>, i: nat, tm: map<Key, V>, m: map<Key, V>) {
    && i <= |all| && |tm| == i
    && (forall k :: k in tm <==> HasKey(all[..i], k))
    && (forall k :: k in tm ==> k in m && tm[k] == m[k])
  }

  lemma MoveNext<V>(all: seq<Entry<V>>, i: nat, tm: map<Key, V>, m: map<Key, V>)
    requires Moved(all, i, tm, m) && i < |all| && DistinctKeys(all) && forall e :: e in all ==> e.key in m && m[e.key] == e.value
    ensures all[i].key !in tm && Moved(all, i + 1, tm[all[i].key := all[i].value], m)
  {
    FreshKey(all, i);
    hide DistinctKeys, HasKey;
    var k, tm' := all[i].key, tm[all[i].key := all[i].value];
    assert all[i] in all;
    KeysAfterInsert(tm, k, all[i].value);
    assert k !in tm && |tm'| == i + 1;
    forall l ensures l in tm' <==> HasKey(all[..i + 1], l) {
      HasKeySnoc(all, i, l);
    }
    forall l | l in tm' ensures l in m && tm'[l] == m[l] {
      assert l == k || l in tm;
    }
  }

  lemma FreshKey<V>(all: seq<Entry<V>>, i: nat)
    requires i < |all| && DistinctKeys(all)
    ensures !HasKey(all[..i], all[i].key)
  {
  }

  lemma HasKeySnoc<V>(all: seq<Entry<V>>, i: nat, l: Key)
    requires i < |all|
    ensures HasKey(all[..i + 1], l) <==> HasKey(all[..i], l) || all[i].key == l
  {
    if HasKey(all[..i], l) {
      var j :| 0 <= j < i && all[..i][j].key == l;
      assert all[..i + 1][j].key == l;
    }
    if all[i].key == l { assert all[..i + 1][i].key == l; }
    if HasKey(all[..i + 1], l) {
      var j :| 0 <= j < i + 1 && all[..i + 1][j].key == l;
      if j < i { assert all[..i][j].key == l; }
    }
  }

  lemma MovedAll<V>(all: seq<Entry<V>>, tm: map<Key, V>, m: map<Key, V>)
    requires Moved(all, |all|, tm, m) && forall k :: k in m ==> HasKey(all, k)
    ensures tm == m
  {
    assert all[..|all|] == all;
  }

  class StringHashTable<V> {
    const hash: Key -> nat
    var entries: seq<Bucket<V>>
    var count: nat
    ghost var model: map<Key, V>

    ghost predicate Valid()
      reads this
    {
      Holds(entries, hash, model) && count == |model| && Roomy(count, |entries|)
    }

    /** `make_hash_table`, with load factor 0.75. */
    constructor (hash: Key -> nat, capacity: nat)
      requires 0 < capacity
      ensures Valid() && model == map[] && this.hash == hash && |entries| == capacity
    {
      this.hash := hash;
      entries := seq(capacity, _ => Bucket(None, []));
      count, model := 0, map[];
    }

    /** `find_hash_table_entry`: the bucket of the key, and in its list the entry of the key or else the last one. */
    method Find(key: Key) returns (x: nat, p: nat, equal: bool, onChain: bool)
      requires Valid()
      ensures x == Index(hash, key, |entries|) && (equal <==> key in model) && (onChain <==> p > 0)
      ensures equal <==> HasKey(List(entries[x]), key)
      ensures equal ==> p < |List(entries[x])| && List(entries[x])[p].key == key
      ensures !equal ==> p == if List(entries[x]) == [] then 0 else |List(entries[x])| - 1
    {
      hide Holds, Index, HasKey;
      HoldsFacts(entries, hash, model);
      x := Index(hash, key, |entries|);
      KeyFound(entries, hash, model, key);
      var b := entries[x];
      BucketShape(entries, hash, model, x);
      p, equal, onChain := 0, false, false;
      while true
        invariant p <= |b.chain| && (p > 0 ==> b.head.Some?) && onChain == (p > 0)
        invariant forall j :: 0 <= j < p && j < |List(b)| ==> List(b)[j].key != key
        decreases |b.chain| - p
      {
        var here := if p == 0 then b.head else Some(b.chain[p - 1]);
        if here.Some? && here.value.key == key {
          equal := true;
          KeyAt(List(b), p, key);
          return;
        }
        if p == |b.chain| {
          NoKey(List(b), key);
          return;
        }
        p, onChain := p + 1, true;
      }
    }

    /** `hash_table_insert_impl`. */
    method Insert(key: Key, value: V) returns (prev: Option<V>)
      requires Valid()
      modifies this
      ensures Valid() && model == old(model)[key := value] && count == old(count) + if key in old(model) then 0 else 1
      ensures prev == if key in old(model) then Some(old(model)[key]) else None
      ensures |entries| == if Roomy(old(count) + 1, |old(entries)|) then |old(entries)| else 2 * |old(entries)|
      decreases count, 1
    {
      hide Holds, Index;
      HoldsFacts(entries, hash, model);
      if 4 * (count + 1) >= 3 * |entries| {
        Rehash(|entries| * 2);
      }
      HoldsFacts(entries, hash, model);
      var x, p, equal, onChain := Find(key);
      if equal {
        prev := Some(List(entries[x])[p].value);
        UpdateBucket(entries, hash, model, key, value, p);
        entries := entries[x := Updated(entries[x], p, Entry(key, value))];
      } else {
        prev := None;
        AppendBucket(entries, hash, model, key, value);
        AppendedInline(entries[x], onChain, p, Entry(key, value));
        entries := entries[x := if onChain || entries[x].head.Some?
                                then entries[x].(chain := entries[x].chain + [Entry(key, value)])
                                else entries[x].(head := Some(Entry(key, value)))];
        count := count + 1;
      }
      KeysAfterInsert(model, key, value);
      model := model[key := value];
    }

    /** `hash_table_rehash`: move every entry to a table of the new capacity, which may grow on the way. */
    method Rehash(capacity: nat)
      requires Valid() && 0 < capacity
      modifies this
      ensures Valid() && model == old(model) && count == old(count)
      ensures if Roomy(old(count), capacity) then |entries| == capacity else |entries| > capacity
      decreases count, 0
    {
      hide Holds, Index, DistinctKeys, Moved, Flatten, HasKey, Remaining, AtEntry, List, Shape;
      var t := new StringHashTable(hash, capacity);
      ghost var all, i := Flatten(entries, 0), 0;
      IterationVisitsAll(entries, hash, model);
      ShapesHold(entries, hash, model);
      MovedNone(all, model);
      var it := GetIterator(entries);
      assert all[0..] == all;
      var e := HasNext(entries, it);
      while e.Some?
        invariant fresh(t) && t.Valid() && t.hash == hash && entries == old(entries) && count == old(count) && model == old(model)
        invariant 0 <= i <= |all| == count && t.count == i && Moved(all, i, t.model, model)
        invariant AtEntry(entries, it) && Remaining(entries, it) == all[i..]
        invariant e == if i == |all| then None else Some(all[i])
        invariant if Roomy(i, capacity) then |t.entries| == capacity else |t.entries| > capacity
        decreases |all| - i
      {
        MoveNext(all, i, t.model, model);
        var _ := t.Insert(e.value.key, e.value.value);
        MovedCount(all, i + 1, t.model, model);
        var more;
        it, more := Next(entries, it);
        assert all[i..][1..] == all[i + 1..];
        i := i + 1;
        e := HasNext(entries, it);
      }
      MovedAll(all, t.model, model);
      entries, count := t.entries, t.count;
    }

    /** `hash_table_reserve`, with its own formula for the capacity. */
    method Reserve(newCapacity: nat)
      requires Valid()
      modifies this
      ensures Valid() && model == old(model)
      ensures count == old(count)
      ensures if Roomy(count, Reserved(newCapacity)) then |entries| == Reserved(newCapacity) else |entries| > Reserved(newCapacity)
    {
      Rehash(Reserved(newCapacity));
    }

    /** Announce how many entries there will be, then insert the new ones, as the class path loader does: the table grows all
        the same, unless there are at most two. */
    method ReserveAndFill(all: seq<Entry<V>>)
      requires Valid() && DistinctKeys(all) && forall e :: e in all ==> e.key !in model
      modifies this
      ensures Valid() && count == old(count) + |all|
      ensures Extended(all, old(model), model)
      ensures |entries| >= Reserved(count) && (|entries| == Reserved(count) <==> count <= 2)
    {
      hide Holds, Index, HasKey, Filled, Valid;
      ghost var m := model;
      var total := count + |all|;
      var capacity := Reserved(total);
      Reserve(total);
      FilledNone(all, m);
      for i := 0 to |all|
        invariant Valid() && count == old(count) + i && Filled(all, i, m, model)
        invariant if Roomy(count, capacity) then |entries| == capacity else |entries| > capacity
      {
        FillNext(all, i, m, model);
        var _ := Insert(all[i].key, all[i].value);
      }
      FilledAll(all, m, model);
      ReserveRarelySuffices(total);
    }

    /** `hash_table_delete`. */
    method Delete(key: Key) returns (prev: Option<V>)
      requires Valid()
      modifies this
      ensures Valid() && model == old(model) - {key}
      ensures prev == if key in old(model) then Some(old(model)[key]) else None
      ensures |entries| == |old(entries)|
    {
      hide Holds, Index;
      HoldsFacts(entries, hash, model);
      var x, p, equal, onChain := Find(key);
      KeysAfterDelete(model, key);
      if !equal {
        return None;
      }
      prev := Some(List(entries[x])[p].value);
      RemoveBucket(entries, hash, model, key, p);
      var b := entries[x];
      entries := entries[x := if onChain then b.(chain := b.chain[..p - 1] + b.chain[p..])
                              else if b.chain != [] then Bucket(Some(b.chain[0]), b.chain[1..])
                              else Bucket(None, [])];
      count := count - 1;
      model := model - {key};
    }

    /** `hash_table_lookup`, and `hash_table_contains` where only the presence matters. */
    method Lookup(key: Key) returns (v: Option<V>)
      requires Valid()
      ensures v == if key in model then Some(model[key]) else None
    {
      hide Holds, Index;
      var x, p, equal, onChain := Find(key);
      KeyFound(entries, hash, model, key);
      v := if equal then Some(List(entries[x])[p].value) else None;
    }
  }

  lemma HoldsFacts<V>(bs: seq<Bucket<V>>, hash: Key -> nat, m: map<Key, V>)
    requires Holds(bs, hash, m)
    ensures 0 < |bs|
  {
  }

  lemma KeyAt<V>(q: seq<Entry<V>>, p: nat, k: Key)
    requires p < |q| && q[p].key == k
    ensures HasKey(q, k)
  {
  }

  lemma NoKey<V>(q: seq<Entry<V>>, k: Key)
    requires forall j :: 0 <= j < |q| ==> q[j].key != k
    ensures !HasKey(q, k)
  {
  }

  lemma AppendedInline<V>(b: Bucket<V>, onChain: bool, p: nat, e: Entry<V>)
    requires Shape(b) && onChain == (p > 0) && p == if List(b) == [] then 0 else |List(b)| - 1
    ensures Appended(b, e) == if onChain || b.head.Some? then b.(chain := b.chain + [e]) else b.(head := Some(e))
  {
  }

  lemma KeysAfterInsert<V>(m: map<Key, V>, k: Key, v: V)
    ensures |m[k := v]| == if k in m then |m| else |m| + 1
  {
    if k in m { assert m[k := v].Keys == m.Keys; } else { assert m[k := v].Keys == m.Keys + {k}; }
    assert |m[k := v]| == |m[k := v].Keys| && |m| == |m.Keys|;
  }

  lemma KeysAfterDelete<V>(m: map<Key, V>, k: Key)
    ensures |m - {k}| == if k in m then |m| - 1 else |m|
    ensures k !in m ==> m - {k} == m
  {
    if k in m { assert m.Keys == (m - {k}).Keys + {k}; } else { assert m - {k} == m; }
    assert |m - {k}| == |(m - {k}).Keys| && |m| == |m.Keys|;
  }

  lemma ShapesHold<V>(bs: seq<Bucket<V>>, hash: Key -> nat, m: map<Key, V>)
    requires Holds(bs, hash, m)
    ensures forall j :: 0 <= j < |bs| ==> Shape(bs[j])
  {
    forall j | 0 <= j < |bs| ensures Shape(bs[j]) { BucketShape(bs, hash, m, j); }
  }

  lemma MovedNone<V>(all: seq<Entry<V>>, m: map<Key, V>)
    ensures Moved(all, 0, map[], m)
  {
  }

  lemma MovedCount<V>(all: seq<Entry<V>>, i: nat, tm: map<Key, V>, m: map<Key, V>)
    requires Moved(all, i, tm, m)
    ensures |tm| == i
  {
  }

  /** `m'` is `m` with the entries of `all` added. */
  ghost predicate Extended<V>(all: seq<Entry<V>>, m: map<Key, V>, m': map<Key, V>) {
    && (forall k :: k in m' <==> k in m || HasKey(all, k))
    && (forall k :: k in m ==> k in m' && m'[k] == m[k]) && forall e :: e in all ==> e.key in m' && m'[e.key] == e.value
  }

  /** The first `i` entries have been added. */
  ghost predicate Filled<V>(all: seq<Entry<V>>, i: nat, m: map<Key, V>, m': map<Key, V>) {
    && i <= |all| && (forall k :: k in m' <==> k in m || HasKey(all[..i], k))
    && (forall k :: k in m ==> k in m' && m'[k] == m[k])
    && forall j :: 0 <= j < i ==> all[j].key in m' && m'[all[j].key] == all[j].value
  }

  lemma FilledNone<V>(all: seq<Entry<V>>, m: map<Key, V>)
    ensures Filled(all, 0, m, m)
  {
  }

  lemma FillNext<V>(all: seq<Entry<V>>, i: nat, m: map<Key, V>, m': map<Key, V>)
    requires Filled(all, i, m, m') && i < |all| && DistinctKeys(all) && forall e :: e in all ==> e.key !in m
    ensures all[i].key !in m' && Filled(all, i + 1, m, m'[all[i].key := all[i].value])
  {
    FreshKey(all, i);
    assert all[i] in all;
    forall j | 0 <= j < i ensures all[j].key != all[i].key {}
    hide DistinctKeys, HasKey;
    forall k ensures HasKey(all[..i + 1], k) <==> HasKey(all[..i], k) || all[i].key == k { HasKeySnoc(all, i, k); }
  }

  lemma FilledAll<V>(all: seq<Entry<V>>, m: map<Key, V>, m': map<Key, V>)
    requires Filled(all, |all|, m, m')
    ensures Extended(all, m, m')
  {
    assert all[..|all|] == all;
    forall e | e in all ensures e.key in m' && m'[e.key] == e.value {
      var j :| 0 <= j < |all| && all[j] == e;
    }
  }

  /** The capacity that `hash_table_reserve` computes. */
  function Reserved(newCapacity: nat): nat {
    newCapacity * 3 / 4 + 2
  }

  /** Reserving room for `n` entries is enough for `n` insertions without growth only up to `n == 2`. */
  lemma ReserveRarelySuffices(n: nat)
    ensures Roomy(n, Reserved(n)) <==> n <= 2
  {
  }
}
