/**
  The cache-line hash table: chains of five-slot buckets with a word of tags each, and a
  fresh hash seed for every table.
*/
module HashMap {
  import opened Arith
  import opened Swar
  import opened Options

  datatype Entry<K, V> = Entry(key: K, value: V)

  /** A bucket with one tag byte per slot; the link to the next bucket is the place in the chain. */
  datatype Bucket<K, V> = Bucket(meta: bv64, nodes: seq<Option<Entry<K, V>>>)

  type Chains<K, V> = seq<seq<Bucket<K, V>>>

  /** The chains, the striped counter of entries, and the seed of the table's hash function. */
  datatype Table<K, V> = Table(chains: Chains<K, V>, size: seq<int>, seed: nat)

  datatype Pos = Pos(chain: nat, bucket: nat, slot: nat)
  datatype Hint = Grow | Shrink | Clear

  const SHRINK_FRACTION: nat := 128
  const MIN_TABLE_LEN: nat := 32
  const MIN_COUNTER_LEN: nat := 8
  const MAX_COUNTER_LEN: nat := 32

  function H1(h: bv64): nat {
    (h >> 7) as nat
  }

  function H2(h: bv64): (tag: bv64)
    ensures tag < 0x80
  {
    h & 0x7f
  }

  function Index(h: bv64, len: nat): (i: nat)
    requires len > 0
    ensures i < len
  {
    And(len - 1, H1(h))
  }

  function Empty<K, V>(): (b: Bucket<K, V>) {
    Bucket(DEFAULT_META, [None, None, None, None, None])
  }

  // ---------- What a table means ----------

  /** The tags agree with the slots: an empty slot has the empty tag, a full one that of its key. */
  ghost predicate BucketOk<K, V>(b: Bucket<K, V>, hash: (nat, K) -> bv64, seed: nat) {
    && |b.nodes| == SLOTS
    && (forall s :: 0 <= s < SLOTS ==>
          Byte(b.meta, s) == if b.nodes[s].None? then EMPTY_META_SLOT else H2(hash(seed, b.nodes[s].value.key)))
    && (forall s :: SLOTS <= s < 8 ==> Byte(b.meta, s) == EMPTY_META_SLOT)
  }

  function At<K, V>(chains: Chains<K, V>, p: Pos): Option<Entry<K, V>> {
    if p.chain < |chains| && p.bucket < |chains[p.chain]| && p.slot < |chains[p.chain][p.bucket].nodes|
    then chains[p.chain][p.bucket].nodes[p.slot] else None
  }

  ghost predicate SlotOf<K, V>(chains: Chains<K, V>, p: Pos) {
    p.chain < |chains| && p.bucket < |chains[p.chain]| && p.slot < SLOTS && |chains[p.chain][p.bucket].nodes| == SLOTS
  }

  /** `where` says for each key the one slot that holds it, which is on the chain of the key's hash. */
  ghost predicate Holds<K, V>(chains: Chains<K, V>, where: map<K, Pos>, hash: (nat, K) -> bv64, seed: nat) {
    && (forall k :: k in where ==> At(chains, where[k]).Some? && At(chains, where[k]).value.key == k)
    && (forall p :: At(chains, p).Some? ==> HoldsAt(chains, where, hash, seed, p))
  }

  ghost predicate HoldsAt<K, V>(chains: Chains<K, V>, where: map<K, Pos>, hash: (nat, K) -> bv64, seed: nat, p: Pos)
    requires At(chains, p).Some?
  {
    var key := At(chains, p).value.key;
    key in where && where[key] == p && p.chain == Index(hash(seed, key), |chains|)
  }

  ghost predicate Buckets<K, V>(chains: Chains<K, V>, hash: (nat, K) -> bv64, seed: nat) {
    && |chains| > 0
    && (forall x :: 0 <= x < |chains| ==> |chains[x]| > 0)
    && (forall x, b :: 0 <= x < |chains| && 0 <= b < |chains[x]| ==> BucketOk(chains[x][b], hash, seed))
  }

  ghost predicate TableOk<K, V>(t: Table<K, V>, where: map<K, Pos>, hash: (nat, K) -> bv64) {
    Buckets(t.chains, hash, t.seed) && Holds(t.chains, where, hash, t.seed) && |t.size| > 0 && Sum(t.size) == |where|
  }

  // ---------- The counter ----------

  function Sum(s: seq<int>): int {
    if s == [] then 0 else Sum(s[..|s| - 1]) + s[|s| - 1]
  }

  lemma {:induction false} SumUpdate(s: seq<int>, i: nat, delta: int)
    requires i < |s|
    ensures Sum(s[i := s[i] + delta]) == Sum(s) + delta
  {
    var u := s[i := s[i] + delta];
    if i == |s| - 1 {
      assert u[..|s| - 1] == s[..|s| - 1];
    } else {
      SumUpdate(s[..|s| - 1], i, delta);
      assert u[..|s| - 1] == s[..|s| - 1][i := s[i] + delta];
    }
  }

  lemma {:induction false} SumZeros(s: seq<int>)
    requires forall i :: 0 <= i < |s| ==> s[i] == 0
    ensures Sum(s) == 0
  {
    if s != [] {
      SumZeros(s[..|s| - 1]);
    }
  }

  function AddSize(size: seq<int>, bucket: nat, delta: int): (s: seq<int>)
    requires |size| > 0
    ensures |s| == |size| && Sum(s) == Sum(size) + delta
  {
    var c := And(|size| - 1, bucket);
    SumUpdate(size, c, delta);
    size[c := size[c] + delta]
  }

  // ---------- Steps on a table ----------

  /** Slot p gets a new content and its tag. */
  function Write<K, V>(chains: Chains<K, V>, p: Pos, tag: bv64, o: Option<Entry<K, V>>): Chains<K, V>
    requires SlotOf(chains, p)
  {
    var b := chains[p.chain][p.bucket];
    chains[p.chain := chains[p.chain][p.bucket := Bucket(SetByte(b.meta, tag, p.slot), b.nodes[p.slot := o])]]
  }

  function NewBucket<K, V>(tag: bv64, e: Entry<K, V>): Bucket<K, V> {
    Bucket(SetByte(DEFAULT_META, tag, 0), [Some(e), None, None, None, None])
  }

  /** A chain gets another bucket, with one entry. */
  function Extend<K, V>(chains: Chains<K, V>, x: nat, tag: bv64, e: Entry<K, V>): Chains<K, V>
    requires x < |chains|
  {
    chains[x := chains[x] + [NewBucket(tag, e)]]
  }

  lemma BucketWrite<K, V>(b: Bucket<K, V>, s: nat, tag: bv64, o: Option<Entry<K, V>>, hash: (nat, K) -> bv64, seed: nat)
    requires BucketOk(b, hash, seed) && s < SLOTS
    requires tag == if o.None? then EMPTY_META_SLOT else H2(hash(seed, o.value.key))
    ensures BucketOk(Bucket(SetByte(b.meta, tag, s), b.nodes[s := o]), hash, seed)
  {
    hide Byte, SetByte;
    forall j | 0 <= j < 8 ensures Byte(SetByte(b.meta, tag, s), j) == if s == j then tag else Byte(b.meta, j) {
      ByteSet(b.meta, tag, s, j);
    }
  }

  lemma NewBucketOk<K, V>(e: Entry<K, V>, hash: (nat, K) -> bv64, seed: nat)
    ensures BucketOk(NewBucket(H2(hash(seed, e.key)), e), hash, seed)
    ensures BucketOk(Empty<K, V>(), hash, seed)
  {
    var b := Empty<K, V>();
    assert BucketOk(b, hash, seed);
    BucketWrite(b, 0, H2(hash(seed, e.key)), Some(e), hash, seed);
    assert b.nodes[0 := Some(e)] == [Some(e), None, None, None, None];
  }

  lemma SlotIn<K, V>(chains: Chains<K, V>, hash: (nat, K) -> bv64, seed: nat, p: Pos)
    requires Buckets(chains, hash, seed) && p.chain < |chains| && p.bucket < |chains[p.chain]| && p.slot < SLOTS
    ensures SlotOf(chains, p) && BucketOk(chains[p.chain][p.bucket], hash, seed)
    ensures At(chains, p) == chains[p.chain][p.bucket].nodes[p.slot]
  {
  }

  lemma BucketsWrite<K, V>(chains: Chains<K, V>, p: Pos, tag: bv64, o: Option<Entry<K, V>>, hash: (nat, K) -> bv64, seed: nat)
    requires Buckets(chains, hash, seed) && SlotOf(chains, p)
    requires tag == if o.None? then EMPTY_META_SLOT else H2(hash(seed, o.value.key))
    ensures Buckets(Write(chains, p, tag, o), hash, seed)
  {
    assert BucketOk(chains[p.chain][p.bucket], hash, seed);
    BucketWrite(chains[p.chain][p.bucket], p.slot, tag, o, hash, seed);
    hide BucketOk, SetByte;
  }

  lemma BucketsExtend<K, V>(chains: Chains<K, V>, x: nat, e: Entry<K, V>, hash: (nat, K) -> bv64, seed: nat)
    requires Buckets(chains, hash, seed) && x < |chains|
    ensures Buckets(Extend(chains, x, H2(hash(seed, e.key)), e), hash, seed)
  {
    NewBucketOk(e, hash, seed);
    hide BucketOk, NewBucket;
  }

  /** The two tables differ in the content of slot p only. */
  ghost predicate DifferAt<K, V>(chains: Chains<K, V>, chains': Chains<K, V>, p: Pos, o: Option<Entry<K, V>>) {
    && |chains'| == |chains|
    && (forall q :: At(chains', q) == if q == p then o else At(chains, q))
  }

  lemma WriteDiffers<K, V>(chains: Chains<K, V>, p: Pos, tag: bv64, o: Option<Entry<K, V>>)
    requires SlotOf(chains, p)
    ensures DifferAt(chains, Write(chains, p, tag, o), p, o)
  {
    hide SetByte;
  }

  lemma ExtendDiffers<K, V>(chains: Chains<K, V>, x: nat, tag: bv64, e: Entry<K, V>)
    requires x < |chains|
    ensures At(chains, Pos(x, |chains[x]|, 0)).None?
    ensures DifferAt(chains, Extend(chains, x, tag, e), Pos(x, |chains[x]|, 0), Some(e))
  {
    hide SetByte;
  }

  lemma HoldsReplaced<K, V>(chains: Chains<K, V>, chains': Chains<K, V>, where: map<K, Pos>, hash: (nat, K) -> bv64, seed: nat, p: Pos, e: Entry<K, V>)
    requires |chains| > 0 && Holds(chains, where, hash, seed) && DifferAt(chains, chains', p, Some(e))
    requires At(chains, p).Some? && At(chains, p).value.key == e.key
    ensures Holds(chains', where, hash, seed)
  {
    hide At, Index;
    assert HoldsAt(chains, where, hash, seed, p);
    forall q | At(chains', q).Some? ensures HoldsAt(chains', where, hash, seed, q) {
      assert q != p ==> HoldsAt(chains, where, hash, seed, q);
    }
  }

  lemma HoldsRemoved<K, V>(chains: Chains<K, V>, chains': Chains<K, V>, where: map<K, Pos>, hash: (nat, K) -> bv64, seed: nat, p: Pos)
    requires |chains| > 0 && Holds(chains, where, hash, seed) && DifferAt(chains, chains', p, None)
    requires At(chains, p).Some?
    ensures At(chains, p).value.key in where && where[At(chains, p).value.key] == p
    ensures Holds(chains', where - {At(chains, p).value.key}, hash, seed)
  {
    hide At, Index;
    assert HoldsAt(chains, where, hash, seed, p);
    forall q | At(chains', q).Some? ensures HoldsAt(chains', where - {At(chains, p).value.key}, hash, seed, q) {
      assert q != p ==> HoldsAt(chains, where, hash, seed, q);
    }
  }

  lemma HoldsInserted<K, V>(chains: Chains<K, V>, chains': Chains<K, V>, where: map<K, Pos>, hash: (nat, K) -> bv64, seed: nat, p: Pos, e: Entry<K, V>)
    requires |chains| > 0 && Holds(chains, where, hash, seed) && DifferAt(chains, chains', p, Some(e))
    requires At(chains, p).None? && e.key !in where && p.chain == Index(hash(seed, e.key), |chains|)
    ensures Holds(chains', where[e.key := p], hash, seed)
  {
    hide At, Index;
    forall q | At(chains', q).Some? ensures HoldsAt(chains', where[e.key := p], hash, seed, q) {
      assert q != p ==> HoldsAt(chains, where, hash, seed, q);
    }
  }

  lemma CountRemoved<K>(where: map<K, Pos>, k: K)
    requires k in where
    ensures |where - {k}| == |where| - 1
  {
    var w' := where - {k};
    assert w'.Keys == where.Keys - {k};
    assert |w'| == |w'.Keys| && |where| == |where.Keys|;
  }

  lemma CountInserted<K>(where: map<K, Pos>, k: K, p: Pos)
    requires k !in where
    ensures |where[k := p]| == |where| + 1
  {
    var w' := where[k := p];
    assert w'.Keys == where.Keys + {k};
    assert |w'| == |w'.Keys| && |where| == |where.Keys|;
  }

  // ---------- Searching ----------

  ghost predicate Lacks<K, V>(b: Bucket<K, V>, key: K) {
    forall s :: 0 <= s < |b.nodes| && b.nodes[s].Some? ==> b.nodes[s].value.key != key
  }

  /** Whichever slot holds the key is marked in the word. */
  ghost predicate Candidates<K, V>(b: Bucket<K, V>, key: K, w: bv64) {
    && |b.nodes| == SLOTS && MarksOnly(w)
    && (forall s :: 0 <= s < SLOTS && b.nodes[s].Some? && b.nodes[s].value.key == key ==> Marked(w, s))
  }

  lemma FirstCandidates<K, V>(b: Bucket<K, V>, key: K, hash: (nat, K) -> bv64, seed: nat)
    requires BucketOk(b, hash, seed)
    ensures Candidates(b, key, Search(b.meta, Broadcast(H2(hash(seed, key)))))
  {
    hide Byte, Broadcast, H2, Search, MarksOnly, Marked;
    var tag := H2(hash(seed, key));
    SearchMisses(b.meta, tag, 0);
    forall s | 0 <= s < SLOTS && b.nodes[s].Some? && b.nodes[s].value.key == key
      ensures Marked(Search(b.meta, Broadcast(tag)), s)
    {
      SearchMisses(b.meta, tag, s);
    }
  }

  lemma BucketSlots<K, V>(b: Bucket<K, V>, hash: (nat, K) -> bv64, seed: nat)
    requires BucketOk(b, hash, seed)
    ensures |b.nodes| == SLOTS
  {
  }

  lemma CandidatesMarks<K, V>(b: Bucket<K, V>, key: K, w: bv64)
    requires Candidates(b, key, w) && w != 0
    ensures FirstMarkedByteIndex(w) < SLOTS
  {
    FirstMarked(w);
  }

  lemma FewerCandidates<K, V>(b: Bucket<K, V>, key: K, w: bv64)
    requires Candidates(b, key, w) && w != 0 && FirstMarkedByteIndex(w) < SLOTS
    requires var n := b.nodes[FirstMarkedByteIndex(w)]; n.Some? ==> n.value.key != key
    ensures Candidates(b, key, ClearLowestBit(w)) && ClearLowestBit(w) < w
  {
    hide FirstMarkedByteIndex, Marked, MarksOnly, ClearLowestBit;
    ClearFirst(w, 0);
    forall s | 0 <= s < SLOTS && b.nodes[s].Some? && b.nodes[s].value.key == key ensures Marked(ClearLowestBit(w), s) {
      ClearFirst(w, s);
    }
  }

  lemma NoCandidates<K, V>(b: Bucket<K, V>, key: K)
    requires Candidates(b, key, 0)
    ensures Lacks(b, key)
  {
  }

  /** A key that no bucket of its chain has is not in the table. */
  lemma NotOnChain<K, V>(chains: Chains<K, V>, where: map<K, Pos>, hash: (nat, K) -> bv64, seed: nat, key: K)
    requires |chains| > 0 && Holds(chains, where, hash, seed)
    requires var x := Index(hash(seed, key), |chains|); forall b :: 0 <= b < |chains[x]| ==> Lacks(chains[x][b], key)
    ensures key !in where
  {
    if key in where {
      var p := where[key];
      assert HoldsAt(chains, where, hash, seed, p);
      if Lacks(chains[p.chain][p.bucket], key) {
        assert false;
      }
    }
  }

  /** A key is where a search of its chain finds it. */
  lemma FoundOnChain<K, V>(chains: Chains<K, V>, where: map<K, Pos>, hash: (nat, K) -> bv64, seed: nat, p: Pos)
    requires |chains| > 0 && Holds(chains, where, hash, seed) && At(chains, p).Some?
    ensures At(chains, p).value.key in where && where[At(chains, p).value.key] == p
  {
    assert HoldsAt(chains, where, hash, seed, p);
  }

  class Map<K(==, !new), V(!new)> {
    const hash: (nat, K) -> bv64
    const minTableLen: nat
    var table: Table<K, V>
    var seeds: nat

    /** Which slot holds which key. */
    ghost var where: map<K, Pos>

    ghost predicate Valid()
      reads this
    {
      && TableOk(table, where, hash)
      && IsPow2(minTableLen) && IsPow2(|table.chains|) && minTableLen <= |table.chains|
    }

    /** The finite map that the table represents. */
    ghost function Model(): map<K, Entry<K, V>>
      requires Valid()
      reads this
    {
      Contents(table.chains, where)
    }

    ghost function Lookup(key: K): Option<Entry<K, V>>
      requires Valid()
      reads this
    {
      if key in Model() then Some(Model()[key]) else None
    }

    constructor (hash: (nat, K) -> bv64, sizeHint: int)
      ensures Valid() && Model() == map[]
      ensures this.hash == hash && minTableLen == |table.chains|
    {
      var len := if sizeHint <= MIN_TABLE_LEN * SLOTS then MIN_TABLE_LEN else RoundUpPow2((4 * sizeHint) / 15);
      assert IsPow2(32) by { assert IsPow2(1) && IsPow2(2) && IsPow2(4) && IsPow2(8) && IsPow2(16); }
      this.hash := hash;
      minTableLen := len;
      table := NewTable(len, 0);
      seeds := 1;
      where := map[];
      new;
      NewTableOk<K, V>(len, 0, hash);
    }

    /** Looks for the key among the slots whose tag matches. */
    method Probe(b: Bucket<K, V>, key: K, h2w: bv64, ghost seed: nat) returns (idx: nat)
      requires BucketOk(b, hash, seed) && h2w == Broadcast(H2(hash(seed, key)))
      ensures idx <= SLOTS
      ensures idx < SLOTS ==> b.nodes[idx].Some? && b.nodes[idx].value.key == key
      ensures idx == SLOTS ==> Lacks(b, key)
    {
      hide BucketOk, Broadcast, H2, Search, ClearLowestBit, FirstMarkedByteIndex, Candidates;
      var markedw := Search(b.meta, h2w);
      assert |b.nodes| == SLOTS && Candidates(b, key, markedw) by { FirstCandidates(b, key, hash, seed); BucketSlots(b, hash, seed); }
      while markedw != 0
        invariant Candidates(b, key, markedw)
        decreases markedw
      {
        assert FirstMarkedByteIndex(markedw) < SLOTS by { CandidatesMarks(b, key, markedw); }
        idx := FirstMarkedByteIndex(markedw);
        var n := b.nodes[idx];
        if n.Some? && n.value.key == key {
          return;
        }
        assert Candidates(b, key, ClearLowestBit(markedw)) && ClearLowestBit(markedw) < markedw by {
          FewerCandidates(b, key, markedw);
        }
        markedw := ClearLowestBit(markedw);
      }
      assert Lacks(b, key) by { NoCandidates(b, key); }
      idx := SLOTS;
    }

    /** The entry of the key, or nothing. */
    method Get(key: K) returns (r: Option<Entry<K, V>>)
      requires Valid()
      ensures r == Lookup(key)
    {
      hide Buckets, Holds, Broadcast, Index, H2, At;
      var h := hash(table.seed, key);
      var h2w := Broadcast(H2(h));
      assert |table.chains| > 0 by { NonEmpty(table.chains, hash, table.seed); }
      var bidx := Index(h, |table.chains|);
      var chain := table.chains[bidx];
      var i := 0;
      while i < |chain|
        invariant i <= |chain|
        invariant forall j :: 0 <= j < i ==> Lacks(chain[j], key)
      {
        assert BucketOk(chain[i], hash, table.seed) by { SlotIn(table.chains, hash, table.seed, Pos(bidx, i, 0)); }
        var idx := Probe(chain[i], key, h2w, table.seed);
        if idx < SLOTS {
          assert key in where && where[key] == Pos(bidx, i, idx) && At(table.chains, Pos(bidx, i, idx)) == chain[i].nodes[idx] by {
            SlotIn(table.chains, hash, table.seed, Pos(bidx, i, idx));
            FoundOnChain(table.chains, where, hash, table.seed, Pos(bidx, i, idx));
          }
          return chain[i].nodes[idx];
        }
        i := i + 1;
      }
      assert key !in where by { NotOnChain(table.chains, where, hash, table.seed, key); }
      return None;
    }

    /** The entries the stripes of the counter add up to. */
    method SumSize(t: Table<K, V>) returns (n: nat)
      ensures n == Max(Sum(t.size), 0)
    {
      var sum, i := 0, 0;
      while i < |t.size|
        invariant i <= |t.size| && sum == Sum(t.size[..i])
      {
        assert t.size[..i + 1][..i] == t.size[..i];
        sum := sum + t.size[i];
        i := i + 1;
      }
      assert t.size[..i] == t.size;
      n := Max(sum, 0);
    }

    method Size() returns (n: nat)
      requires Valid()
      ensures n == |Model()|
    {
      assert Model().Keys == where.Keys;
      n := SumSize(table);
    }

    /** Puts an entry in the first free slot of a chain, or in a new bucket at its end. */
    method AppendToBucket(chains: Chains<K, V>, x: nat, h2: bv64, e: Entry<K, V>, ghost seed: nat)
      returns (chains': Chains<K, V>, ghost p: Pos)
      requires Buckets(chains, hash, seed) && x < |chains| && h2 == H2(hash(seed, e.key))
      ensures Buckets(chains', hash, seed) && DifferAt(chains, chains', p, Some(e))
      ensures At(chains, p).None? && p.chain == x
    {
      hide Buckets, At, DifferAt, H2, Write, Extend;
      var b := 0;
      while b < |chains[x]|
        invariant b <= |chains[x]|
      {
        var i := 0;
        while i < SLOTS
          invariant i <= SLOTS
        {
          p := Pos(x, b, i);
          assert SlotOf(chains, p) && At(chains, p) == chains[x][b].nodes[i] by { SlotIn(chains, hash, seed, p); }
          if chains[x][b].nodes[i].None? {
            assert Buckets(Write(chains, p, h2, Some(e)), hash, seed) by { BucketsWrite(chains, p, h2, Some(e), hash, seed); }
            assert DifferAt(chains, Write(chains, p, h2, Some(e)), p, Some(e)) by { WriteDiffers(chains, p, h2, Some(e)); }
            chains' := Write(chains, Pos(x, b, i), h2, Some(e));
            return;
          }
          i := i + 1;
        }
        b := b + 1;
      }
      p := Pos(x, |chains[x]|, 0);
      assert Buckets(Extend(chains, x, h2, e), hash, seed) by { BucketsExtend(chains, x, e, hash, seed); }
      assert At(chains, p).None? && DifferAt(chains, Extend(chains, x, h2, e), p, Some(e)) by { ExtendDiffers(chains, x, h2, e); }
      chains' := Extend(chains, x, h2, e);
    }

    /** Copies the entries of one chain to another table, under that table's hash function. */
    method CopyBucket(x: nat, dest: Chains<K, V>, seed: nat, ghost dw: map<K, Pos>)
      returns (dest': Chains<K, V>, copied: nat, ghost dw': map<K, Pos>)
      requires x < |table.chains| && Buckets(table.chains, hash, table.seed) && Holds(table.chains, where, hash, table.seed)
      requires Copied(table.chains, where, dest, dw, hash, seed, Pos(x, 0, 0))
      ensures Copied(table.chains, where, dest', dw', hash, seed, Pos(x + 1, 0, 0))
      ensures |dest'| == |dest| && |dw'| == |dw| + copied
    {
      hide Buckets, Holds, Copied, At, Index, H2, DifferAt;
      var chain := table.chains[x];
      dest', copied, dw' := dest, 0, dw;
      var b := 0;
      while b < |chain|
        invariant b <= |chain| && |dest'| == |dest| && |dw'| == |dw| + copied
        invariant Copied(table.chains, where, dest', dw', hash, seed, Pos(x, b, 0))
      {
        var i := 0;
        while i < SLOTS
          invariant i <= SLOTS && |dest'| == |dest| && |dw'| == |dw| + copied
          invariant Copied(table.chains, where, dest', dw', hash, seed, Pos(x, b, i))
        {
          ghost var q := Pos(x, b, i);
          assert i < |chain[b].nodes| && At(table.chains, q) == chain[b].nodes[i] by { SlotIn(table.chains, hash, table.seed, q); }
          if chain[b].nodes[i].Some? {
            var n := chain[b].nodes[i].value;
            var h := hash(seed, n.key);
            assert |dest'| > 0 && Buckets(dest', hash, seed) by { CopiedBuckets(table.chains, where, dest', dw', hash, seed, q); }
            var appended, p := AppendToBucket(dest', Index(h, |dest'|), H2(h), n, seed);
            assert n.key !in dw' && |appended| == |dest'| && Copied(table.chains, where, appended, dw'[n.key := p], hash, seed, Pos(x, b, i + 1)) by {
              CopiedEntry(table.chains, where, dest', dw', hash, table.seed, seed, q, appended, p);
            }
            assert |dw'[n.key := p]| == |dw'| + 1 by { CountInserted(dw', n.key, p); }
            dest', dw', copied := appended, dw'[n.key := p], copied + 1;
          } else {
            assert Copied(table.chains, where, dest', dw', hash, seed, Pos(x, b, i + 1)) by {
              CopiedGap(table.chains, where, dest', dw', hash, table.seed, seed, q);
            }
          }
          i := i + 1;
        }
        assert Copied(table.chains, where, dest', dw', hash, seed, Pos(x, b + 1, 0)) by {
          CopiedNextBucket(table.chains, where, dest', dw', hash, table.seed, seed, x, b);
        }
        b := b + 1;
      }
      assert Copied(table.chains, where, dest', dw', hash, seed, Pos(x + 1, 0, 0)) by {
        CopiedNextChain(table.chains, where, dest', dw', hash, table.seed, seed, x);
      }
    }

    /** Replaces the table by one with twice or half as many chains, or by an empty one. */
    method Resize(hint: Hint)
      requires Valid()
      modifies `table, `where, `seeds
      ensures Valid()
      ensures Model() == if hint == Hint.Clear then map[] else old(Model())
      ensures |table.chains| ==
        match hint
        case Grow => 2 * old(|table.chains|)
        case Clear => minTableLen
        case Shrink => if old(|table.chains|) > minTableLen && old(|Model()|) <= (old(|table.chains|) * SLOTS) / SHRINK_FRACTION
          then old(|table.chains|) / 2 else old(|table.chains|)
    {
      hide Buckets, Holds, Copied, Contents;
      assert |Model()| == |where| by { ContentsSize(table.chains, where, hash, table.seed); }
      var tableLen := |table.chains|;
      if hint == Shrink {
        var sum := SumSize(table);
        if minTableLen == tableLen || sum > (tableLen * SLOTS) / SHRINK_FRACTION {
          return;
        }
      }
      var newLen := match hint case Grow => 2 * tableLen case Shrink => tableLen / 2 case Clear => minTableLen;
      assert newLen > 0 && IsPow2(newLen) && minTableLen <= newLen by {
        if hint == Shrink { Pow2Gap(minTableLen, tableLen); }
      }
      var newTable: Table<K, V> := NewTable(newLen, seeds);
      ghost var dw: map<K, Pos> := map[];
      assert TableOk(newTable, dw, hash) && |newTable.chains| == newLen by { NewTableOk<K, V>(newLen, seeds, hash); }
      if hint != Hint.Clear {
        assert Copied(table.chains, where, newTable.chains, dw, hash, seeds, Pos(0, 0, 0)) by {
          CopiedNone(table.chains, where, newTable.chains, hash, seeds);
        }
        var i := 0;
        while i < tableLen
          invariant table == old(table) && where == old(where) && seeds == old(seeds)
          invariant i <= tableLen && |newTable.chains| == newLen && newTable.seed == seeds
          invariant Copied(table.chains, where, newTable.chains, dw, hash, seeds, Pos(i, 0, 0))
          invariant |newTable.size| > 0 && Sum(newTable.size) == |dw|
        {
          var chains, copied;
          chains, copied, dw := CopyBucket(i, newTable.chains, seeds, dw);
          newTable := Table(chains, AddSize(newTable.size, i, copied), seeds);
          i := i + 1;
        }
        assert TableOk(newTable, dw, hash) && Contents(newTable.chains, dw) == Contents(table.chains, where) by {
          CopiedAll(table.chains, where, newTable.chains, dw, hash, table.seed, seeds);
        }
      } else {
        assert Contents(newTable.chains, dw) == map[] by { ContentsSize(newTable.chains, dw, hash, seeds); }
      }
      table := newTable;
      where := dw;
      seeds := seeds + 1;
    }

    /**
      Sets, replaces or removes the entry of a key, as f says of the present one. The table
      grows first, and the search starts again, if the chain is full and the table crowded.
    */
    method Compute(key: K, f: Option<Entry<K, V>> -> Option<Entry<K, V>>) returns (r: Option<Entry<K, V>>)
      requires Valid() && forall o :: f(o).Some? ==> f(o).value.key == key
      modifies `table, `where, `seeds
      ensures Valid()
      ensures r == f(old(Lookup(key)))
      ensures Model() == if r.None? then old(Model()) - {key} else old(Model())[key := r.value]
    {
      hide Buckets, Holds, Broadcast, Index, H2, At, Contents, EmptySlots, FirstMarkedByteIndex, Lacks, SlotOf;
      while true
        invariant Valid() && Model() == old(Model())
        decreases Max(0, 4 * |old(Model())| - 15 * |table.chains|)
      {
        ghost var present := table;
        var h := hash(table.seed, key);
        var h2w := Broadcast(H2(h));
        var tableLen := |table.chains|;
        assert tableLen > 0 by { NonEmpty(table.chains, hash, table.seed); }
        var bidx := Index(h, tableLen);
        var chain := table.chains[bidx];
        var free: Option<Pos> := None;
        var i := 0;
        while i < |chain|
          invariant i <= |chain| && Valid() && Model() == old(Model()) && table == present
          invariant forall j :: 0 <= j < i ==> Lacks(chain[j], key)
          invariant free.Some? ==> free.value.chain == bidx && SlotOf(table.chains, free.value) && At(table.chains, free.value).None?
        {
          assert BucketOk(chain[i], hash, table.seed) by { SlotIn(table.chains, hash, table.seed, Pos(bidx, i, 0)); }
          var idx := Probe(chain[i], key, h2w, table.seed);
          if idx < SLOTS {
            assert SlotOf(table.chains, Pos(bidx, i, idx)) && At(table.chains, Pos(bidx, i, idx)) == chain[i].nodes[idx] by {
              SlotIn(table.chains, hash, table.seed, Pos(bidx, i, idx));
            }
            r := Settle(key, f, Pos(bidx, i, idx));
            return;
          }
          var emptyw := EmptySlots(chain[i].meta);
          if free.None? && emptyw != 0 {
            assert FirstMarkedByteIndex(emptyw) < SLOTS && chain[i].nodes[FirstMarkedByteIndex(emptyw)].None? by {
              FreeSlot(chain[i], hash, table.seed);
            }
            free := Some(Pos(bidx, i, FirstMarkedByteIndex(emptyw)));
            assert SlotOf(table.chains, free.value) && At(table.chains, free.value) == chain[i].nodes[free.value.slot] by {
              SlotIn(table.chains, hash, table.seed, free.value);
            }
          }
          i := i + 1;
        }
        assert key !in where by { NotOnChain(table.chains, where, hash, table.seed, key); }
        if free.None? {
          var sum := SumSize(table);
          if sum > (15 * tableLen) / 4 {
            assert |Model()| == sum by { ContentsSize(table.chains, where, hash, table.seed); }
            Resize(Grow);
            continue;
          }
        }
        r := Insert(key, f, free);
        return;
      }
    }

    /** In-place update or removal of the entry in slot p. */
    method Settle(key: K, f: Option<Entry<K, V>> -> Option<Entry<K, V>>, p: Pos) returns (r: Option<Entry<K, V>>)
      requires Valid() && forall o :: f(o).Some? ==> f(o).value.key == key
      requires SlotOf(table.chains, p) && At(table.chains, p).Some? && At(table.chains, p).value.key == key
      modifies `table, `where, `seeds
      ensures Valid()
      ensures r == f(old(Lookup(key)))
      ensures Model() == if r.None? then old(Model()) - {key} else old(Model())[key := r.value]
    {
      hide Buckets, Holds, At, Contents, Write, Swap, H2;
      var b := table.chains[p.chain][p.bucket];
      var oldNode := b.nodes[p.slot];
      assert key in where && Lookup(key) == oldNode by { Present(table.chains, where, hash, table.seed, p); }
      r := f(oldNode);
      if r.None? {
        var newmetaw := SetByte(b.meta, EMPTY_META_SLOT, p.slot);
        assert TableOk(Table(Write(table.chains, p, EMPTY_META_SLOT, None), AddSize(table.size, p.chain, -1), table.seed), where - {key}, hash)
            && |Write(table.chains, p, EMPTY_META_SLOT, None)| == |table.chains|
            && Contents(Write(table.chains, p, EMPTY_META_SLOT, None), where - {key}) == Contents(table.chains, where) - {key} by {
          RemoveStep(table, where, hash, p);
        }
        table := Table(Write(table.chains, p, EMPTY_META_SLOT, None), AddSize(table.size, p.chain, -1), table.seed);
        where := where - {key};
        if newmetaw == DEFAULT_META {
          Resize(Shrink);
        }
      } else {
        assert TableOk(table.(chains := Swap(table.chains, p, r.value)), where, hash)
            && |Swap(table.chains, p, r.value)| == |table.chains|
            && Contents(Swap(table.chains, p, r.value), where) == Contents(table.chains, where)[key := r.value] by {
          SwapStep(table, where, hash, p, r.value);
        }
        table := table.(chains := Swap(table.chains, p, r.value));
      }
    }

    /** Insertion into a free slot of the chain, or into a new bucket at its end. */
    method Insert(key: K, f: Option<Entry<K, V>> -> Option<Entry<K, V>>, free: Option<Pos>) returns (r: Option<Entry<K, V>>)
      requires Valid() && (forall o :: f(o).Some? ==> f(o).value.key == key) && key !in where
      requires free.Some? ==> free.value.chain == Index(hash(table.seed, key), |table.chains|)
                              && SlotOf(table.chains, free.value) && At(table.chains, free.value).None?
      modifies `table, `where
      ensures Valid()
      ensures r == f(old(Lookup(key)))
      ensures Model() == if r.None? then old(Model()) - {key} else old(Model())[key := r.value]
    {
      hide Buckets, Holds, At, SlotOf, Write, Extend, H2, Index;
      r := f(None);
      if r.None? {
        assert Model() - {key} == Model();
        return;
      }
      hide Contents;
      var h2 := H2(hash(table.seed, key));
      if free.Some? {
        var p := free.value;
        assert TableOk(Table(Write(table.chains, p, h2, r), AddSize(table.size, p.chain, 1), table.seed), where[key := p], hash)
            && |Write(table.chains, p, h2, r)| == |table.chains|
            && Contents(Write(table.chains, p, h2, r), where[key := p]) == Contents(table.chains, where)[key := r.value] by {
          InsertStep(table, where, hash, p, r.value);
        }
        table := Table(Write(table.chains, p, h2, r), AddSize(table.size, p.chain, 1), table.seed);
        where := where[key := p];
      } else {
        var x := Index(hash(table.seed, key), |table.chains|);
        ghost var p := Pos(x, |table.chains[x]|, 0);
        assert TableOk(Table(Extend(table.chains, x, h2, r.value), AddSize(table.size, x, 1), table.seed), where[key := p], hash)
            && |Extend(table.chains, x, h2, r.value)| == |table.chains|
            && Contents(Extend(table.chains, x, h2, r.value), where[key := p]) == Contents(table.chains, where)[key := r.value] by {
          ExtendStep(table, where, hash, x, r.value);
        }
        table := Table(Extend(table.chains, x, h2, r.value), AddSize(table.size, x, 1), table.seed);
        where := where[key := p];
      }
    }

    /** Discards every entry. */
    method Clear()
      requires Valid()
      modifies `table, `where, `seeds
      ensures Valid() && Model() == map[]
    {
      Resize(Hint.Clear);
    }
  }

  ghost function Contents<K, V>(chains: Chains<K, V>, where: map<K, Pos>): map<K, Entry<K, V>>
  {
    map k | k in where && At(chains, where[k]).Some? :: At(chains, where[k]).value
  }

  lemma ContentsSize<K, V>(chains: Chains<K, V>, where: map<K, Pos>, hash: (nat, K) -> bv64, seed: nat)
    requires Holds(chains, where, hash, seed)
    ensures |Contents(chains, where)| == |where|
    ensures where == map[] ==> Contents(chains, where) == map[]
  {
    var c := Contents(chains, where);
    assert c.Keys == where.Keys;
    assert |c| == |c.Keys| && |where| == |where.Keys|;
  }

  /** Slot p gets another entry of the same key; its tag stays. */
  function Swap<K, V>(chains: Chains<K, V>, p: Pos, e: Entry<K, V>): Chains<K, V>
    requires SlotOf(chains, p)
  {
    var b := chains[p.chain][p.bucket];
    chains[p.chain := chains[p.chain][p.bucket := Bucket(b.meta, b.nodes[p.slot := Some(e)])]]
  }

  lemma Present<K, V>(chains: Chains<K, V>, where: map<K, Pos>, hash: (nat, K) -> bv64, seed: nat, p: Pos)
    requires |chains| > 0 && Holds(chains, where, hash, seed) && SlotOf(chains, p) && At(chains, p).Some?
    ensures var key := At(chains, p).value.key;
      && key in where && key in Contents(chains, where)
      && At(chains, p) == chains[p.chain][p.bucket].nodes[p.slot] == Some(Contents(chains, where)[key])
  {
    FoundOnChain(chains, where, hash, seed, p);
  }

  lemma FreeSlot<K, V>(b: Bucket<K, V>, hash: (nat, K) -> bv64, seed: nat)
    requires BucketOk(b, hash, seed) && EmptySlots(b.meta) != 0
    ensures FirstMarkedByteIndex(EmptySlots(b.meta)) < SLOTS && b.nodes[FirstMarkedByteIndex(EmptySlots(b.meta))].None?
  {
    hide Byte, EmptySlots, FirstMarkedByteIndex, Marked, MarksOnly;
    EmptySearch(b.meta, 0);
    FirstMarked(EmptySlots(b.meta));
    EmptySearch(b.meta, FirstMarkedByteIndex(EmptySlots(b.meta)));
  }

  lemma ContentsRemoved<K, V>(chains: Chains<K, V>, chains': Chains<K, V>, where: map<K, Pos>, hash: (nat, K) -> bv64, seed: nat, p: Pos)
    requires |chains| > 0 && Holds(chains, where, hash, seed) && DifferAt(chains, chains', p, None) && At(chains, p).Some?
    ensures Contents(chains', where - {At(chains, p).value.key}) == Contents(chains, where) - {At(chains, p).value.key}
  {
    hide Index, At;
    FoundOnChain(chains, where, hash, seed, p);
  }

  lemma ContentsSet<K, V>(chains: Chains<K, V>, chains': Chains<K, V>, where: map<K, Pos>, hash: (nat, K) -> bv64, seed: nat, p: Pos, e: Entry<K, V>)
    requires |chains| > 0 && Holds(chains, where, hash, seed) && DifferAt(chains, chains', p, Some(e))
    requires if At(chains, p).Some? then At(chains, p).value.key == e.key else e.key !in where
    ensures Contents(chains', where[e.key := p]) == Contents(chains, where)[e.key := e]
    ensures At(chains, p).Some? ==> where[e.key := p] == where
  {
    hide Index, At;
    if At(chains, p).Some? {
      FoundOnChain(chains, where, hash, seed, p);
    }
    forall k | k in where && k != e.key ensures where[k] != p {
    }
  }

  lemma RemoveStep<K, V>(t: Table<K, V>, where: map<K, Pos>, hash: (nat, K) -> bv64, p: Pos)
    requires TableOk(t, where, hash) && |t.chains| > 0 && SlotOf(t.chains, p) && At(t.chains, p).Some?
    ensures var key, chains' := At(t.chains, p).value.key, Write(t.chains, p, EMPTY_META_SLOT, None);
      && TableOk(Table(chains', AddSize(t.size, p.chain, -1), t.seed), where - {key}, hash)
      && |chains'| == |t.chains| && Contents(chains', where - {key}) == Contents(t.chains, where) - {key}
  {
    hide Buckets, Holds, At, Write, DifferAt, SlotOf, Contents;
    var chains' := Write(t.chains, p, EMPTY_META_SLOT, None);
    BucketsWrite(t.chains, p, EMPTY_META_SLOT, None, hash, t.seed);
    WriteDiffers(t.chains, p, EMPTY_META_SLOT, None);
    DifferLength(t.chains, chains', p, None);
    HoldsRemoved(t.chains, chains', where, hash, t.seed, p);
    ContentsRemoved(t.chains, chains', where, hash, t.seed, p);
    CountRemoved(where, At(t.chains, p).value.key);
  }

  lemma DifferLength<K, V>(chains: Chains<K, V>, chains': Chains<K, V>, p: Pos, o: Option<Entry<K, V>>)
    requires DifferAt(chains, chains', p, o)
    ensures |chains'| == |chains|
  {
  }

  lemma SwapStep<K, V>(t: Table<K, V>, where: map<K, Pos>, hash: (nat, K) -> bv64, p: Pos, e: Entry<K, V>)
    requires TableOk(t, where, hash) && |t.chains| > 0 && SlotOf(t.chains, p)
    requires At(t.chains, p).Some? && At(t.chains, p).value.key == e.key
    ensures var chains' := Swap(t.chains, p, e);
      && TableOk(t.(chains := chains'), where, hash)
      && |chains'| == |t.chains| && Contents(chains', where) == Contents(t.chains, where)[e.key := e]
  {
    hide Buckets, Holds, At, Swap, DifferAt, SlotOf, Contents;
    var chains' := Swap(t.chains, p, e);
    SwapDiffers(t.chains, p, e, hash, t.seed);
    DifferLength(t.chains, chains', p, Some(e));
    HoldsReplaced(t.chains, chains', where, hash, t.seed, p, e);
    ContentsSet(t.chains, chains', where, hash, t.seed, p, e);
  }

  lemma SwapDiffers<K, V>(chains: Chains<K, V>, p: Pos, e: Entry<K, V>, hash: (nat, K) -> bv64, seed: nat)
    requires Buckets(chains, hash, seed) && SlotOf(chains, p) && At(chains, p).Some? && At(chains, p).value.key == e.key
    ensures DifferAt(chains, Swap(chains, p, e), p, Some(e)) && Buckets(Swap(chains, p, e), hash, seed)
  {
    var b := chains[p.chain][p.bucket];
    assert BucketOk(b, hash, seed);
    assert BucketOk(Bucket(b.meta, b.nodes[p.slot := Some(e)]), hash, seed);
    hide BucketOk;
  }

  lemma InsertStep<K, V>(t: Table<K, V>, where: map<K, Pos>, hash: (nat, K) -> bv64, p: Pos, e: Entry<K, V>)
    requires TableOk(t, where, hash) && |t.chains| > 0 && SlotOf(t.chains, p) && At(t.chains, p).None? && e.key !in where
    requires p.chain == Index(hash(t.seed, e.key), |t.chains|)
    ensures var chains' := Write(t.chains, p, H2(hash(t.seed, e.key)), Some(e));
      && TableOk(Table(chains', AddSize(t.size, p.chain, 1), t.seed), where[e.key := p], hash)
      && |chains'| == |t.chains| && Contents(chains', where[e.key := p]) == Contents(t.chains, where)[e.key := e]
  {
    hide Buckets, Holds, At, Write, DifferAt, SlotOf, Contents, H2, Index;
    var h2 := H2(hash(t.seed, e.key));
    var chains' := Write(t.chains, p, h2, Some(e));
    BucketsWrite(t.chains, p, h2, Some(e), hash, t.seed);
    WriteDiffers(t.chains, p, h2, Some(e));
    DifferLength(t.chains, chains', p, Some(e));
    HoldsInserted(t.chains, chains', where, hash, t.seed, p, e);
    ContentsSet(t.chains, chains', where, hash, t.seed, p, e);
    CountInserted(where, e.key, p);
  }

  lemma ExtendStep<K, V>(t: Table<K, V>, where: map<K, Pos>, hash: (nat, K) -> bv64, x: nat, e: Entry<K, V>)
    requires TableOk(t, where, hash) && |t.chains| > 0 && e.key !in where && x == Index(hash(t.seed, e.key), |t.chains|)
    ensures var chains', p := Extend(t.chains, x, H2(hash(t.seed, e.key)), e), Pos(x, |t.chains[x]|, 0);
      && TableOk(Table(chains', AddSize(t.size, x, 1), t.seed), where[e.key := p], hash)
      && |chains'| == |t.chains| && Contents(chains', where[e.key := p]) == Contents(t.chains, where)[e.key := e]
  {
    hide Buckets, Holds, At, Extend, DifferAt, Contents, H2, Index;
    var h2, p := H2(hash(t.seed, e.key)), Pos(x, |t.chains[x]|, 0);
    var chains' := Extend(t.chains, x, h2, e);
    BucketsExtend(t.chains, x, e, hash, t.seed);
    ExtendDiffers(t.chains, x, h2, e);
    DifferLength(t.chains, chains', p, Some(e));
    HoldsInserted(t.chains, chains', where, hash, t.seed, p, e);
    ContentsSet(t.chains, chains', where, hash, t.seed, p, e);
    CountInserted(where, e.key, p);
  }

  // ---------- Copying ----------

  predicate Before(p: Pos, c: Pos) {
    p.chain < c.chain || (p.chain == c.chain && (p.bucket < c.bucket || (p.bucket == c.bucket && p.slot < c.slot)))
  }

  /** The destination holds exactly the entries that stand before the cursor in the source. */
  ghost predicate Copied<K, V>(source: Chains<K, V>, where: map<K, Pos>, dest: Chains<K, V>, dw: map<K, Pos>,
                               hash: (nat, K) -> bv64, seed: nat, cursor: Pos) {
    && Buckets(dest, hash, seed) && Holds(dest, dw, hash, seed)
    && (forall k :: k in dw ==> k in where && Before(where[k], cursor) && At(dest, dw[k]) == At(source, where[k]))
    && (forall k :: k in where && Before(where[k], cursor) ==> k in dw)
  }

  lemma CopiedBuckets<K, V>(source: Chains<K, V>, where: map<K, Pos>, dest: Chains<K, V>, dw: map<K, Pos>,
                            hash: (nat, K) -> bv64, seed: nat, cursor: Pos)
    requires Copied(source, where, dest, dw, hash, seed, cursor)
    ensures Buckets(dest, hash, seed) && |dest| > 0
  {
  }

  lemma CopiedNone<K, V>(source: Chains<K, V>, where: map<K, Pos>, dest: Chains<K, V>, hash: (nat, K) -> bv64, seed: nat)
    requires Buckets(dest, hash, seed) && Holds(dest, map[], hash, seed)
    ensures Copied(source, where, dest, map[], hash, seed, Pos(0, 0, 0))
  {
  }

  /** Moving the cursor over places where nothing is stored. */
  lemma CopiedMoves<K, V>(source: Chains<K, V>, where: map<K, Pos>, dest: Chains<K, V>, dw: map<K, Pos>,
                          hash: (nat, K) -> bv64, seed0: nat, seed: nat, cursor: Pos, next: Pos)
    requires Copied(source, where, dest, dw, hash, seed, cursor) && Holds(source, where, hash, seed0)
    requires forall p :: At(source, p).Some? ==> (Before(p, cursor) <==> Before(p, next))
    ensures Copied(source, where, dest, dw, hash, seed, next)
  {
    hide Buckets, At, Before, Index;
  }

  lemma CopiedGap<K, V>(source: Chains<K, V>, where: map<K, Pos>, dest: Chains<K, V>, dw: map<K, Pos>,
                        hash: (nat, K) -> bv64, seed0: nat, seed: nat, cursor: Pos)
    requires Copied(source, where, dest, dw, hash, seed, cursor) && Holds(source, where, hash, seed0)
    requires At(source, cursor).None?
    ensures Copied(source, where, dest, dw, hash, seed, cursor.(slot := cursor.slot + 1))
  {
    hide Copied, Holds, At;
    forall p | At(source, p).Some? ensures Before(p, cursor) <==> Before(p, cursor.(slot := cursor.slot + 1)) {
      assert p != cursor;
    }
    CopiedMoves(source, where, dest, dw, hash, seed0, seed, cursor, cursor.(slot := cursor.slot + 1));
  }

  lemma CopiedNextBucket<K, V>(source: Chains<K, V>, where: map<K, Pos>, dest: Chains<K, V>, dw: map<K, Pos>,
                               hash: (nat, K) -> bv64, seed0: nat, seed: nat, x: nat, b: nat)
    requires Copied(source, where, dest, dw, hash, seed, Pos(x, b, SLOTS)) && Holds(source, where, hash, seed0)
    requires Buckets(source, hash, seed0)
    ensures Copied(source, where, dest, dw, hash, seed, Pos(x, b + 1, 0))
  {
    hide Copied, Holds;
    forall p | At(source, p).Some? ensures Before(p, Pos(x, b, SLOTS)) <==> Before(p, Pos(x, b + 1, 0)) {
      assert BucketOk(source[p.chain][p.bucket], hash, seed0);
    }
    CopiedMoves(source, where, dest, dw, hash, seed0, seed, Pos(x, b, SLOTS), Pos(x, b + 1, 0));
  }

  lemma CopiedNextChain<K, V>(source: Chains<K, V>, where: map<K, Pos>, dest: Chains<K, V>, dw: map<K, Pos>,
                              hash: (nat, K) -> bv64, seed0: nat, seed: nat, x: nat)
    requires x < |source| && Copied(source, where, dest, dw, hash, seed, Pos(x, |source[x]|, 0)) && Holds(source, where, hash, seed0)
    ensures Copied(source, where, dest, dw, hash, seed, Pos(x + 1, 0, 0))
  {
    hide Copied, Holds;
    CopiedMoves(source, where, dest, dw, hash, seed0, seed, Pos(x, |source[x]|, 0), Pos(x + 1, 0, 0));
  }

  /** Copying the entry under the cursor. */
  lemma CopiedEntry<K, V>(source: Chains<K, V>, where: map<K, Pos>, dest: Chains<K, V>, dw: map<K, Pos>,
                          hash: (nat, K) -> bv64, seed0: nat, seed: nat, cursor: Pos, dest': Chains<K, V>, p: Pos)
    requires |source| > 0 && Copied(source, where, dest, dw, hash, seed, cursor) && Holds(source, where, hash, seed0)
    requires At(source, cursor).Some? && |dest| > 0
    requires var e := At(source, cursor).value;
      && At(dest, p).None? && p.chain == Index(hash(seed, e.key), |dest|)
      && DifferAt(dest, dest', p, Some(e)) && Buckets(dest', hash, seed)
    ensures At(source, cursor).value.key !in dw && |dest'| == |dest|
    ensures Copied(source, where, dest', dw[At(source, cursor).value.key := p], hash, seed, cursor.(slot := cursor.slot + 1))
  {
    hide Buckets, Index, At;
    var e := At(source, cursor).value;
    var next := cursor.(slot := cursor.slot + 1);
    assert HoldsAt(source, where, hash, seed0, cursor);
    assert e.key !in dw;
    HoldsInserted(dest, dest', dw, hash, seed, p, e);
    var dw' := dw[e.key := p];
    forall k | k in dw' ensures k in where && Before(where[k], next) && At(dest', dw'[k]) == At(source, where[k]) {
      assert k != e.key ==> dw[k] != p;
    }
    forall k | k in where && Before(where[k], next) ensures k in dw' {
      if where[k] == cursor {
        assert k == e.key;
      }
    }
  }

  lemma CopiedAll<K, V>(source: Chains<K, V>, where: map<K, Pos>, dest: Chains<K, V>, dw: map<K, Pos>,
                        hash: (nat, K) -> bv64, seed0: nat, seed: nat)
    requires Copied(source, where, dest, dw, hash, seed, Pos(|source|, 0, 0)) && Holds(source, where, hash, seed0)
    ensures Buckets(dest, hash, seed) && Holds(dest, dw, hash, seed)
    ensures Contents(dest, dw) == Contents(source, where)
  {
    hide BucketOk;
    forall k | k in where ensures k in dw {
      assert At(source, where[k]).Some?;
      assert Before(where[k], Pos(|source|, 0, 0));
    }
    assert dw.Keys == where.Keys;
  }

  function NewTable<K, V>(len: nat, seed: nat): Table<K, V> {
    var stripes := Max(MIN_COUNTER_LEN, Min(MAX_COUNTER_LEN, len / 1024));
    Table(seq(len, i => [Empty()]), seq(stripes, i => 0), seed)
  }

  lemma NewTableOk<K, V>(len: nat, seed: nat, hash: (nat, K) -> bv64)
    requires len > 0
    ensures var t := NewTable<K, V>(len, seed); TableOk(t, map[], hash) && |t.chains| == len
  {
    var t := NewTable<K, V>(len, seed);
    SumZeros(t.size);
    assert BucketOk(Empty<K, V>(), hash, seed);
  }

  lemma NonEmpty<K, V>(chains: Chains<K, V>, hash: (nat, K) -> bv64, seed: nat)
    requires Buckets(chains, hash, seed)
    ensures |chains| > 0 && forall x :: 0 <= x < |chains| ==> |chains[x]| > 0
  {
  }
}
