/**
  The count-min sketch: four four-bit counters per key, halved as a whole every time as
  many additions were made as the sample holds.
*/
module Sketch {
  import opened Arith
  import opened Nibbles

  // ---------- Where the counters of a key are ----------

  function Spread(h: bv64): bv64 {
    var a := h ^ (h >> 17);
    var b := a * 0xed5ad4bb;
    var c := b ^ (b >> 11);
    var d := c * 0xac4c1b51;
    d ^ (d >> 15)
  }

  function Rehash(h: bv64): bv64 {
    var a := h * 0x31848bab;
    a ^ (a >> 14)
  }

  datatype Counter = Counter(slot: nat, index: nat)

  /** The i-th byte group of the counter hash. */
  function Shifted(h: nat, i: nat): nat
    requires i < 4
  {
    if i == 0 then h else if i == 1 then h / 0x100 else if i == 2 then h / 0x1_0000 else h / 0x100_0000
  }

  function CounterAt(blockHash: nat, counterHash: nat, blockMask: nat, i: nat): (c: Counter)
    requires i < 4
    ensures c.index < 16
  {
    var h := Shifted(counterHash, i);
    Counter(8 * And(blockHash, blockMask) + h % 2 + 2 * i, (h / 2) % 16)
  }

  /** The four counters of a key are in bounds, on different words. */
  lemma CountersApart(blockHash: nat, counterHash: nat, len: nat, i: nat, j: nat)
    requires i < 4 && j < 4 && len >= 8 && len % 8 == 0
    ensures CounterAt(blockHash, counterHash, len / 8 - 1, i).slot < len
    ensures i != j ==> CounterAt(blockHash, counterHash, len / 8 - 1, i).slot != CounterAt(blockHash, counterHash, len / 8 - 1, j).slot
  {
    hide And;
    assert And(blockHash, len / 8 - 1) <= len / 8 - 1;
  }

  // ---------- What a table of words means ----------

  function Value(t: seq<Word>, c: Counter): nat
    requires c.slot < |t|
  {
    Nibble(t[c.slot], c.index)
  }

  /** The sum of all counters. */
  function Total(t: seq<Word>): nat {
    if t == [] then 0 else Total(t[..|t| - 1]) + NibbleSum(t[|t| - 1], 16)
  }

  lemma {:induction false} TotalUpdate(t: seq<Word>, i: nat, w: Word)
    requires i < |t|
    ensures Total(t[i := w]) == Total(t) - NibbleSum(t[i], 16) + NibbleSum(w, 16)
  {
    var u := t[i := w];
    if i == |t| - 1 {
      assert u[..|t| - 1] == t[..|t| - 1];
    } else {
      TotalUpdate(t[..|t| - 1], i, w);
      assert u[..|t| - 1] == t[..|t| - 1][i := w];
    }
  }

  lemma {:induction false} TotalZero(t: seq<Word>)
    requires forall i :: 0 <= i < |t| ==> t[i] == 0
    ensures Total(t) == 0
  {
    if t != [] {
      TotalZero(t[..|t| - 1]);
      SumZero(16);
    }
  }

  lemma {:induction false} SumZero(n: nat)
    ensures NibbleSum(0, n) == 0
  {
    if n > 0 {
      SumZero(n - 1);
    }
  }

  /** The table with one counter raised, unless it is full. */
  function Bumped(t: seq<Word>, c: Counter): (u: seq<Word>)
    requires c.slot < |t| && c.index < 16
    ensures |u| == |t|
  {
    if Value(t, c) < 15 then
      BumpFits(t[c.slot], c.index);
      t[c.slot := t[c.slot] + Pow16(c.index)]
    else t
  }

  lemma BumpFits(w: Word, j: nat)
    requires j < 16 && Nibble(w, j) < 15
    ensures w + Pow16(j) < WORD_LIMIT
  {
    MasksRepeat();
    IncrementFits(w, j, 16);
  }

  lemma BumpedValue(t: seq<Word>, c: Counter, d: Counter)
    requires c.slot < |t| && c.index < 16 && d.slot < |t|
    ensures Value(Bumped(t, c), d) == if d == c then Min(15, Value(t, d) + 1) else Value(t, d)
  {
    if Value(t, c) < 15 && d.slot == c.slot {
      NibbleIncrement(t[c.slot], c.index, d.index);
    }
  }

  lemma BumpedTotal(t: seq<Word>, c: Counter)
    requires c.slot < |t| && c.index < 16
    ensures Total(Bumped(t, c)) == Total(t) + if Value(t, c) < 15 then 1 else 0
  {
    hide Pow16, NibbleSum;
    if Value(t, c) < 15 {
      BumpFits(t[c.slot], c.index);
      TotalUpdate(t, c.slot, t[c.slot] + Pow16(c.index));
      SumIncrement(t[c.slot], c.index, 16);
    }
  }

  function Half(w: Word): Word {
    And(w / 2, RESET_MASK)
  }

  function Odd(w: Word): nat {
    OnesCount(And(w, ONE_MASK))
  }

  lemma HalfValue(w: Word, k: nat)
    requires k < 16
    ensures Nibble(Half(w), k) == Nibble(w, k) / 2
  {
    MasksRepeat();
    hide And, Nibble;
    HalveNibbles(w, 16, k);
  }

  lemma HalfSum(w: Word)
    ensures 2 * NibbleSum(Half(w), 16) + Odd(w) == NibbleSum(w, 16)
  {
    MasksRepeat();
    hide And, NibbleSum, OnesCount;
    HalveSum(w, 16);
  }

  function Halved(t: seq<Word>): (u: seq<Word>)
    ensures |u| == |t|
  {
    seq(|t|, i requires 0 <= i < |t| => Half(t[i]))
  }

  function Odds(t: seq<Word>): nat {
    if t == [] then 0 else Odds(t[..|t| - 1]) + Odd(t[|t| - 1])
  }

  /** Halving loses exactly the odd counters. */
  lemma {:induction false} HalvedTotal(t: seq<Word>)
    ensures 2 * Total(Halved(t)) + Odds(t) == Total(t)
  {
    if t != [] {
      var s, w := t[..|t| - 1], t[|t| - 1];
      HalvedTotal(s);
      assert Halved(t)[..|t| - 1] == Halved(s);
      HalfSum(w);
    }
  }

  lemma Pow2Of8(n: nat)
    requires IsPow2(n) && n >= 8
    ensures n % 8 == 0
  {
    var half := n / 2;
    var quarter := half / 2;
    assert IsPow2(half) && n == 2 * half && half > 1;
    assert IsPow2(quarter) && half == 2 * quarter && quarter > 1;
    assert quarter == 2 * (quarter / 2);
    ModUnique(n, 8, quarter / 2, 0);
  }

  function HalvedCounts<K>(m: map<K, nat>): map<K, nat> {
    map k | k in m :: m[k] / 2
  }

  lemma ValueBound(t: seq<Word>, c: Counter)
    requires c.slot < |t|
    ensures Value(t, c) <= 15
  {
  }

  /** Counters on four different words of the table. */
  ghost predicate Apart(t: seq<Word>, f: seq<Counter>) {
    && |f| == 4
    && (forall i :: 0 <= i < 4 ==> f[i].slot < |t| && f[i].index < 16)
    && (forall i, j :: 0 <= i < j < 4 ==> f[i].slot != f[j].slot)
  }

  lemma ApartUse(t: seq<Word>, f: seq<Counter>, i: nat)
    requires Apart(t, f) && i < 4
    ensures f[i].slot < |t|
  {
  }

  /** The table with four counters raised. */
  ghost function BumpedAll(t: seq<Word>, f: seq<Counter>): (u: seq<Word>)
    requires Apart(t, f)
    ensures |u| == |t|
  {
    Bumped(Bumped(Bumped(Bumped(t, f[0]), f[1]), f[2]), f[3])
  }

  /** Some counter is not full. */
  ghost predicate Room(t: seq<Word>, f: seq<Counter>)
    requires Apart(t, f)
  {
    Value(t, f[0]) < 15 || Value(t, f[1]) < 15 || Value(t, f[2]) < 15 || Value(t, f[3]) < 15
  }

  /** The size grows by one; when that fills the sample, all counters and counts are halved, and the size less the additions lost to rounding. */
  ghost predicate Aged<K>(t: seq<Word>, size: nat, ideal: map<K, nat>, sampleSize: nat, t': seq<Word>, size': nat, ideal': map<K, nat>) {
    if size + 1 == sampleSize
    then t' == Halved(t) && ideal' == HalvedCounts(ideal) && size' == (sampleSize - Odds(t) / 4) / 2
    else t' == t && ideal' == ideal && size' == size + 1
  }

  /** One more use of a key is an addition if one of its counters was not full. */
  ghost predicate Counted<K>(t: seq<Word>, four: seq<Counter>, size: nat, raised: map<K, nat>, sampleSize: nat,
                             t': seq<Word>, size': nat, ideal': map<K, nat>)
    requires Apart(t, four)
  {
    if Room(t, four) then Aged(BumpedAll(t, four), size, raised, sampleSize, t', size', ideal')
    else t' == BumpedAll(t, four) && size' == size && ideal' == raised
  }

  lemma BumpedAllValue(t: seq<Word>, f: seq<Counter>, d: Counter)
    requires Apart(t, f) && d.slot < |t|
    ensures Value(BumpedAll(t, f), d) == if d in f then Min(15, Value(t, d) + 1) else Value(t, d)
  {
    hide Value, Bumped;
    var t1 := Bumped(t, f[0]);
    var t2 := Bumped(t1, f[1]);
    var t3 := Bumped(t2, f[2]);
    BumpedValue(t, f[0], d);
    BumpedValue(t1, f[1], d);
    BumpedValue(t2, f[2], d);
    BumpedValue(t3, f[3], d);
    assert d in f <==> d == f[0] || d == f[1] || d == f[2] || d == f[3];
  }

  lemma BumpedAllTotal(t: seq<Word>, f: seq<Counter>)
    requires Apart(t, f)
    ensures Total(BumpedAll(t, f)) <= Total(t) + 4
    ensures !Room(t, f) ==> BumpedAll(t, f) == t
  {
    hide Value, Total;
    var t1 := Bumped(t, f[0]);
    var t2 := Bumped(t1, f[1]);
    var t3 := Bumped(t2, f[2]);
    BumpedTotal(t, f[0]);
    BumpedTotal(t1, f[1]);
    BumpedTotal(t2, f[2]);
    BumpedTotal(t3, f[3]);
  }

  // ---------- The sketch ----------

  class Sketch<K(==, !new)> {
    const hash: (nat, K) -> bv64
    var table: array<Word>
    var sampleSize: nat
    var blockMask: nat
    var size: nat
    var seed: nat
    var isInitialized: bool

    /** What exact counters of four bits, halved at every reset, would say. */
    ghost var ideal: map<K, nat>

    function BlockHash(k: K): nat
      reads `seed
    {
      Spread(hash(seed, k)) as nat
    }

    function CounterHash(k: K): nat
      reads `seed
    {
      Rehash(Spread(hash(seed, k))) as nat
    }

    function Of(k: K, i: nat): (c: Counter)
      requires i < 4
      reads `seed, `blockMask
      ensures c.index < 16
    {
      CounterAt(BlockHash(k), CounterHash(k), blockMask, i)
    }

    ghost predicate Shape()
      reads this
    {
      if isInitialized then
        table.Length >= 8 && table.Length % 8 == 0 && blockMask == table.Length / 8 - 1 && sampleSize >= 10
      else table.Length == 0 && ideal == map[]
    }

    /** No counter of a key says less than its count in m. */
    ghost predicate Covers(t: seq<Word>, m: map<K, nat>)
      reads `seed, `blockMask
    {
      forall k, i :: k in m && 0 <= i < 4 ==> CoversAt(t, m, k, i)
    }

    ghost predicate CoversAt(t: seq<Word>, m: map<K, nat>, k: K, i: nat)
      requires k in m && i < 4
      reads `seed, `blockMask
    {
      Of(k, i).slot < |t| && m[k] <= Value(t, Of(k, i))
    }

    ghost predicate Valid()
      reads this, table
    {
      && Shape() && Covers(table[..], ideal)
      && (isInitialized ==> Total(table[..]) <= 4 * size + 3 && size < sampleSize)
    }

    ghost function Ideal(k: K): nat
      reads `ideal
    {
      if k in ideal then ideal[k] else 0
    }

    constructor (hash: (nat, K) -> bv64)
      ensures Valid() && !isInitialized && ideal == map[] && fresh(table)
    {
      this.hash := hash;
      table := new Word[0];
      sampleSize, blockMask, size, seed, isInitialized, ideal := 0, 0, 0, 0, false, map[];
    }

    /** Makes room for a maximum size; a table that is too small is replaced by an empty one with a new seed. */
    method EnsureCapacity(maximumSize: nat)
      requires Valid() && maximumSize <= 0x1000_0000_0000_0000
      modifies this
      ensures Valid()
      ensures old(table.Length) >= maximumSize ==> ideal == old(ideal) && table == old(table) && size == old(size)
      ensures old(table.Length) < maximumSize ==>
        && isInitialized && ideal == map[] && size == 0 && fresh(table) && table.Length >= maximumSize && IsPow2(table.Length)
        && (table.Length == 8 || table.Length < 2 * maximumSize)
        && sampleSize == 10 * maximumSize && forall i :: 0 <= i < table.Length ==> table[i] == 0
    {
      if table.Length >= maximumSize {
        return;
      }
      isInitialized := true;
      var newSize := RoundUpPow2(maximumSize);
      assert IsPow2(8) by { assert IsPow2(1) && IsPow2(2) && IsPow2(4); }
      if newSize < 8 {
        newSize := 8;
      }
      assert newSize % 8 == 0 by { Pow2Of8(newSize); }
      table := new Word[newSize](_ => 0);
      sampleSize := 10;
      if maximumSize != 0 {
        sampleSize := 10 * maximumSize;
      }
      blockMask := table.Length / 8 - 1;
      size := 0;
      seed := seed + 1;
      ideal := map[];
      TotalZero(table[..]);
    }

    /** The estimate never falls below the ideal count, and fits four bits. */
    method Frequency(k: K) returns (frequency: nat)
      requires Valid()
      ensures Ideal(k) <= frequency
      ensures !isInitialized ==> frequency == 0
      ensures isInitialized ==> frequency <= 15
      ensures isInitialized ==> forall i :: 0 <= i < 4 ==> Of(k, i).slot < table.Length && frequency <= Value(table[..], Of(k, i))
      ensures isInitialized ==> exists i :: 0 <= i < 4 && Of(k, i).slot < table.Length && frequency == Value(table[..], Of(k, i))
    {
      hide BlockHash, CounterHash, And, Nibble, Covers, Pow16, Total;
      if !isInitialized {
        return 0;
      }
      frequency := 0xffff_ffff_ffff_ffff;
      var blockHash, counterHash := BlockHash(k), CounterHash(k);
      var block := And(blockHash, blockMask) * 8;
      assert Ideal(k) <= 15 by { OfIn(k, 0, 0); CoversOne(k, 0); }
      var i := 0;
      while i < 4
        invariant i <= 4 && Ideal(k) <= frequency
        invariant i == 0 ==> frequency == 0xffff_ffff_ffff_ffff
        invariant forall j :: 0 <= j < i ==> Of(k, j).slot < table.Length && frequency <= Value(table[..], Of(k, j))
        invariant i > 0 ==> exists j :: 0 <= j < i && Of(k, j).slot < table.Length && frequency == Value(table[..], Of(k, j))
      {
        var g := Shifted(counterHash, i);
        var index := (g / 2) % 16;
        var offset := g % 2;
        var slot := block + offset + 2 * i;
        assert Counter(slot, index) == Of(k, i) && slot < table.Length by {
          CountersApart(blockHash, counterHash, table.Length, i, i);
        }
        var count := (table[slot] / Pow16(index)) % 16;
        assert count == Value(table[..], Of(k, i)) by { NibbleRead(table[slot], index); }
        assert Ideal(k) <= count by { CoversOne(k, i); }
        frequency := Min(frequency, count);
        i := i + 1;
      }
    }

    lemma OfIn(k: K, i: nat, j: nat)
      requires Shape() && isInitialized && i < 4 && j < 4
      ensures Of(k, i).slot < table.Length && (i != j ==> Of(k, i).slot != Of(k, j).slot)
    {
      hide BlockHash, CounterHash, CounterAt;
      CountersApart(BlockHash(k), CounterHash(k), table.Length, i, j);
    }

    lemma FourApart(k: K)
      requires Shape() && isInitialized
      ensures Apart(table[..], Four(k))
    {
      hide Of;
      forall i, j | 0 <= i < 4 && 0 <= j < 4
        ensures Four(k)[i].slot < table.Length && (i != j ==> Four(k)[i].slot != Four(k)[j].slot)
      {
        OfIn(k, i, j);
      }
    }

    lemma CoversOne(k: K, i: nat)
      requires Valid() && isInitialized && i < 4 && Of(k, i).slot < table.Length
      ensures Ideal(k) <= Value(table[..], Of(k, i)) <= 15
    {
      if k in ideal {
        assert CoversAt(table[..], ideal, k, i);
      }
    }

    /** Adds one to a counter that is not full. */
    method IncrementAt(i: nat, j: nat) returns (added: bool)
      requires i < table.Length && j < 16
      modifies table
      ensures added <==> old(Value(table[..], Counter(i, j))) < 15
      ensures table[..] == Bumped(old(table[..]), Counter(i, j))
    {
      var mask := 15 * Pow16(j);
      MaskTest(table[i], j);
      if And(table[i], mask) != mask {
        BumpFits(table[i], j);
        table[i] := table[i] + Pow16(j);
        return true;
      }
      return false;
    }

    /** Halves every counter, and the size less the additions lost to rounding. */
    method Reset()
      requires Odds(table[..]) / 4 <= size
      modifies table, `size
      ensures table[..] == Halved(old(table[..]))
      ensures size == (old(size) - Odds(old(table[..])) / 4) / 2
    {
      var count, i := 0, 0;
      ghost var t := table[..];
      while i < table.Length
        invariant i <= table.Length && count == Odds(t[..i])
        invariant forall j :: 0 <= j < i ==> table[j] == Half(t[j])
        invariant forall j :: i <= j < table.Length ==> table[j] == t[j]
        invariant size == old(size)
      {
        assert t[..i + 1][..i] == t[..i];
        count := count + OnesCount(And(table[i], ONE_MASK));
        table[i] := And(table[i] / 2, RESET_MASK);
        i := i + 1;
      }
      assert t[..i] == t;
      size := (size - count / 4) / 2;
    }

    /** The four counters of a key. */
    ghost function Four(k: K): (f: seq<Counter>)
      reads `seed, `blockMask
      ensures |f| == 4
    {
      [Of(k, 0), Of(k, 1), Of(k, 2), Of(k, 3)]
    }

    ghost function Raised(k: K): map<K, nat>
      reads `ideal
    {
      ideal[k := Min(15, Ideal(k) + 1)]
    }

    lemma RaisedCovers(t: seq<Word>, k: K)
      requires Covers(t, ideal) && Apart(t, Four(k))
      ensures Covers(BumpedAll(t, Four(k)), Raised(k))
    {
      hide Value, Of, BumpedAll, Apart;
      forall x, i | x in Raised(k) && 0 <= i < 4 ensures CoversAt(BumpedAll(t, Four(k)), Raised(k), x, i) {
        assert x == k ==> Of(x, i) == Four(k)[i];
        assert Of(x, i).slot < |t| && (x in ideal ==> ideal[x] <= Value(t, Of(x, i))) by {
          if x in ideal { CoversUse(t, x, i); } else { ApartUse(t, Four(k), i); }
        }
        assert Value(t, Of(x, i)) <= 15 by { ValueBound(t, Of(x, i)); }
        BumpedAllValue(t, Four(k), Of(x, i));
      }
    }

    lemma CoversUse(t: seq<Word>, k: K, i: nat)
      requires Covers(t, ideal) && k in ideal && i < 4
      ensures CoversAt(t, ideal, k, i)
    {
    }

    lemma HalvedCovers(t: seq<Word>, m: map<K, nat>)
      requires Covers(t, m)
      ensures Covers(Halved(t), HalvedCounts(m))
    {
      forall k, i | k in HalvedCounts(m) && 0 <= i < 4 ensures CoversAt(Halved(t), HalvedCounts(m), k, i) {
        assert CoversAt(t, m, k, i);
        hide Nibble, Half, Of;
        HalfValue(t[Of(k, i).slot], Of(k, i).index);
      }
    }

    /** Counts one more use of a key; the addition that fills the sample halves everything. */
    method Increment(k: K)
      requires Valid()
      modifies this, table
      ensures Valid() && table == old(table) && isInitialized == old(isInitialized) && sampleSize == old(sampleSize) && seed == old(seed)
      ensures !isInitialized ==> ideal == old(ideal)
      ensures isInitialized ==>
        && Apart(old(table[..]), old(Four(k)))
        && Counted(old(table[..]), old(Four(k)), old(size), old(Raised(k)), sampleSize, table[..], size, ideal)
    {
      hide Covers, Total, BumpedAll, Apart, Room, Aged, Four, Raised;
      if !isInitialized {
        return;
      }
      ghost var t, four := table[..], Four(k);
      assert Apart(t, four) by { FourApart(k); }
      assert Covers(BumpedAll(t, four), Raised(k)) by { RaisedCovers(t, k); }
      assert Total(BumpedAll(t, four)) <= Total(t) + 4 && (!Room(t, four) ==> BumpedAll(t, four) == t) by { BumpedAllTotal(t, four); }
      ghost var more := Raised(k);
      var added := IncrementAll(k);
      ideal := more;
      if added {
        Grow();
      }
    }

    /** Counts an addition; the one that fills the sample ages the sketch. */
    method Grow()
      requires Shape() && isInitialized && Covers(table[..], ideal)
      requires Total(table[..]) <= 4 * (size + 1) + 3 && size < sampleSize
      modifies table, `size, `ideal
      ensures Valid()
      ensures Aged(old(table[..]), old(size), old(ideal), sampleSize, table[..], size, ideal)
    {
      hide Covers, Total, Halved, Odds, HalvedCounts;
      size := size + 1;
      if size == sampleSize {
        assert Odds(table[..]) / 4 <= size && Total(Halved(table[..])) <= 4 * ((size - Odds(table[..]) / 4) / 2) + 3 by {
          HalvedTotal(table[..]);
        }
        assert Covers(Halved(table[..]), HalvedCounts(ideal)) by { HalvedCovers(table[..], ideal); }
        Reset();
        ideal := HalvedCounts(ideal);
      }
    }

    /** Adds one to each of the four counters of a key, and says whether one of them was not full. */
    method IncrementAll(k: K) returns (added: bool)
      requires Shape() && isInitialized && Apart(table[..], Four(k))
      modifies table
      ensures table[..] == BumpedAll(old(table[..]), Four(k))
      ensures added <==> Room(old(table[..]), Four(k))
    {
      ghost var t, f := table[..], Four(k);
      hide BlockHash, CounterHash, And;
      var blockHash, counterHash := BlockHash(k), CounterHash(k);
      var block := And(blockHash, blockMask) * 8;
      var h0, h1, h2, h3 := counterHash, counterHash / 0x100, counterHash / 0x1_0000, counterHash / 0x100_0000;
      var index0, index1, index2, index3 := (h0 / 2) % 16, (h1 / 2) % 16, (h2 / 2) % 16, (h3 / 2) % 16;
      var slot0, slot1, slot2, slot3 := block + h0 % 2, block + h1 % 2 + 2, block + h2 % 2 + 4, block + h3 % 2 + 6;
      assert Counter(slot0, index0) == Of(k, 0) && Counter(slot1, index1) == Of(k, 1)
          && Counter(slot2, index2) == Of(k, 2) && Counter(slot3, index3) == Of(k, 3);
      hide Value, Bumped;
      assert f[0] == Counter(slot0, index0) && f[1] == Counter(slot1, index1) && f[2] == Counter(slot2, index2) && f[3] == Counter(slot3, index3);
      assert Apart(t, f);
      hide And, Covers, Total, Of, CounterAt, Shifted, Four, BlockHash, CounterHash;
      ghost var t1 := Bumped(t, f[0]);
      ghost var t2 := Bumped(t1, f[1]);
      ghost var t3 := Bumped(t2, f[2]);
      assert Value(t1, f[1]) == Value(t, f[1]) && Value(t2, f[2]) == Value(t, f[2]) && Value(t3, f[3]) == Value(t, f[3]) by {
        BumpedValue(t, f[0], f[1]);
        BumpedValue(t, f[0], f[2]);
        BumpedValue(t, f[0], f[3]);
        BumpedValue(t1, f[1], f[2]);
        BumpedValue(t1, f[1], f[3]);
        BumpedValue(t2, f[2], f[3]);
      }
      added := IncrementAt(slot0, index0);
      var more := IncrementAt(slot1, index1);
      added := more || added;
      more := IncrementAt(slot2, index2);
      added := more || added;
      more := IncrementAt(slot3, index3);
      added := more || added;
    }
  }
}