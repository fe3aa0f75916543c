/** Whatever was added is stored once, delivered at most once and in order, and never dropped by growth. */
module LossySafety {
  import opened Lossy
  import opened Options

  lemma InitOk(maxLen: nat)
    ensures Inv(New(maxLen))
  {
  }

  lemma Parts(s: State)
    requires Inv(s)
    ensures RingsOk(s.rings, s.adders) && AddersOk(s) && ArraysOk(s.rings, s.arrays, s.current) && DrainOk(s.drain, s.rings)
  {
  }

  lemma Whole(s: State)
    requires RingsOk(s.rings, s.adders) && AddersOk(s) && ArraysOk(s.rings, s.arrays, s.current) && DrainOk(s.drain, s.rings)
    ensures Inv(s)
  {
  }

  lemma AdderAt(s: State, a: nat)
    requires AddersOk(s) && a < |s.adders|
    ensures AdderOk(s.adders[a], a, s.rings, s.arrays, s.current, s.busy)
  {
  }

  lemma RingAt(rings: seq<Ring>, adders: seq<Adder>, r: nat)
    requires RingsOk(rings, adders) && r < |rings|
    ensures RingOk(rings[r], r, adders)
  {
  }

  /** Sixteen consecutive positions fall on sixteen different slots. */
  lemma SlotsApart(p: nat, q: nat)
    requires p < q < p + BUFFER_SIZE
    ensures p % BUFFER_SIZE != q % BUFFER_SIZE
  {
  }

  // ---------- Steps that only move an adder ----------

  /** Counters outside RPublish and spots are all that the rings know of an adder. */
  lemma RingsSeeSame(rings: seq<Ring>, adders: seq<Adder>, a: nat, me: Adder)
    requires RingsOk(rings, adders) && a < |adders| && me.spot == adders[a].spot
    requires !me.pc.RPublish? && !adders[a].pc.RPublish?
    ensures RingsOk(rings, adders[a := me])
  {
    var adders' := adders[a := me];
    forall r | 0 <= r < |rings| ensures RingOk(rings[r], r, adders') {
      RingSeesSame(rings[r], r, adders, a, me);
    }
  }

  lemma RingSeesSame(ring: Ring, r: nat, adders: seq<Adder>, a: nat, me: Adder)
    requires RingOk(ring, r, adders) && a < |adders| && me.spot == adders[a].spot
    requires !me.pc.RPublish? && !adders[a].pc.RPublish?
    ensures RingOk(ring, r, adders[a := me])
  {
    var adders' := adders[a := me];
    forall p | |ring.delivered| <= p < ring.tail ensures Awaited(ring, r, adders', p) {
      assert Awaited(ring, r, adders, p);
      assert Publishing(adders', ring.log[p], r, p) <==> Publishing(adders, ring.log[p], r, p);
    }
    forall p | 0 <= p < ring.tail ensures HasSpot(adders', ring.log[p], r, p) {
      assert HasSpot(adders, ring.log[p], r, p);
    }
  }

  lemma MoveOk(s: State, s': State, a: nat)
    requires Inv(s) && a < |s.adders| && |s'.adders| == |s.adders|
    requires s' == s.(adders := s.adders[a := s'.adders[a]], busy := s'.busy)
    requires s'.adders[a].spot == s.adders[a].spot && !s'.adders[a].pc.RPublish? && !s.adders[a].pc.RPublish?
    requires AdderOk(s'.adders[a], a, s.rings, s.arrays, s.current, s'.busy)
    requires s'.busy == s.busy || s.busy == None || HoldsBusy(s.adders[a].pc)
    ensures Inv(s')
  {
    RingsSeeSame(s.rings, s.adders, a, s'.adders[a]);
    AddersMoved(s, s', a);
  }

  lemma AddersMoved(s: State, s': State, a: nat)
    requires AddersOk(s) && a < |s.adders| && |s'.adders| == |s.adders|
    requires s' == s.(adders := s.adders[a := s'.adders[a]], busy := s'.busy)
    requires AdderOk(s'.adders[a], a, s.rings, s.arrays, s.current, s'.busy)
    requires s'.busy == s.busy || s.busy == None || HoldsBusy(s.adders[a].pc)
    ensures AddersOk(s')
  {
    assert AdderOk(s.adders[a], a, s.rings, s.arrays, s.current, s.busy);
    forall b | 0 <= b < |s'.adders| ensures AdderOk(s'.adders[b], b, s'.rings, s'.arrays, s'.current, s'.busy) {
      if b != a {
        assert AdderOk(s.adders[b], b, s.rings, s.arrays, s.current, s.busy);
      }
    }
  }

  lemma PlaceOk(s: State, bs: nat, j: nat)
    requires ArraysOk(s.rings, s.arrays, s.current)
    ensures Place(s, bs, j).Some? ==> Place(s, bs, j).value < |s.rings|
  {
  }

  lemma LookOk(s: State, a: nat, j: nat)
    requires Inv(s) && a < |s.adders| && Looking(s.adders[a].pc)
    ensures Inv(LookStep(s, a, j))
  {
    hide Inv, RingsOk, AddersOk, ArraysOk, DrainOk;
    Parts(s);
    AdderAt(s, a);
    var pc := s.adders[a].pc;
    if pc.ABuffer? {
      PlaceOk(s, pc.bs, j);
    } else if pc.EBuffer? {
      PlaceOk(s, pc.bs, j);
    }
    MoveOk(s, LookStep(s, a, j), a);
  }

  lemma BusyOk(s: State, a: nat, j: nat)
    requires Inv(s) && a < |s.adders|
    requires var pc := s.adders[a].pc; pc.BBusy? || pc.BCas? || pc.BLoad? || pc.BCheck? || pc.BFree?
    ensures Inv(AttachStep(s, a, j))
  {
    hide Inv, RingsOk, AddersOk, DrainOk, ArraysOk;
    Parts(s);
    AdderAt(s, a);
    if s.adders[a].pc.BCheck? {
      CurrentIn(s);
    }
    MoveOk(s, AttachStep(s, a, j), a);
  }

  lemma GrowMoveOk(s: State, a: nat)
    requires Inv(s) && a < |s.adders|
    requires var pc := s.adders[a].pc; pc.FStale? || pc.FBusy? || pc.FCas? || pc.FFree?
    ensures Inv(GrowStep(s, a))
  {
    hide Inv, RingsOk, AddersOk, ArraysOk, DrainOk;
    Parts(s);
    AdderAt(s, a);
    MoveOk(s, GrowStep(s, a), a);
  }

  lemma CurrentIn(s: State)
    requires ArraysOk(s.rings, s.arrays, s.current) && s.current.Some?
    ensures s.current.value < |s.arrays|
  {
  }

  lemma CopyMoveOk(s: State, a: nat)
    requires Inv(s) && a < |s.adders|
    requires var pc := s.adders[a].pc; pc.FCheck? || (pc.FCopy? && pc.bs < |s.arrays| && |pc.copy| < |s.arrays[pc.bs]|)
    ensures Inv(GrowStep(s, a))
  {
    hide Inv, RingsOk, AddersOk, ArraysOk, DrainOk;
    Parts(s);
    AdderAt(s, a);
    if s.current.Some? {
      CurrentIn(s);
    }
    MoveOk(s, GrowStep(s, a), a);
  }

  lemma InitMoveOk(s: State, a: nat)
    requires Inv(s) && a < |s.adders|
    requires var pc := s.adders[a].pc; pc.IBusy? || pc.ISame? || pc.ICas? || pc.ICheck? || pc.IFree? || pc.ADone?
    ensures Inv(InitStep(s, a))
  {
    hide Inv, InitStep;
    if s.adders[a].pc.IBusy? || s.adders[a].pc.ISame? || s.adders[a].pc.ADone? {
      InitLookOk(s, a);
    } else {
      InitBusyOk(s, a);
    }
  }

  lemma InitLookOk(s: State, a: nat)
    requires Inv(s) && a < |s.adders| && (s.adders[a].pc.IBusy? || s.adders[a].pc.ISame? || s.adders[a].pc.ADone?)
    ensures Inv(InitStep(s, a))
  {
    hide Inv, RingsOk, AddersOk, ArraysOk, DrainOk;
    Parts(s);
    AdderAt(s, a);
    MoveOk(s, InitStep(s, a), a);
  }

  lemma InitBusyOk(s: State, a: nat)
    requires Inv(s) && a < |s.adders| && (s.adders[a].pc.ICas? || s.adders[a].pc.ICheck? || s.adders[a].pc.IFree?)
    ensures Inv(InitStep(s, a))
  {
    hide Inv, RingsOk, AddersOk, ArraysOk, DrainOk;
    Parts(s);
    AdderAt(s, a);
    MoveOk(s, InitStep(s, a), a);
  }

  lemma RingMoveOk(s: State, a: nat)
    requires Inv(s) && a < |s.adders|
    requires var pc := s.adders[a].pc; pc.RHead? || pc.RTail? || (pc.RCas? && (pc.r >= |s.rings| || s.rings[pc.r].tail != pc.t))
    ensures Inv(RingStep(s, a))
  {
    hide Inv, RingsOk, AddersOk, ArraysOk, DrainOk;
    Parts(s);
    AdderAt(s, a);
    MoveOk(s, RingStep(s, a), a);
  }

  // ---------- Reserving and publishing ----------

  lemma ReserveRing(ring: Ring, r: nat, adders: seq<Adder>, a: nat, ring': Ring)
    requires RingOk(ring, r, adders) && a < |adders| && adders[a].spot == None && !adders[a].pc.RPublish?
    requires ring.tail < ring.head + BUFFER_SIZE
    requires ring' == ring.(tail := ring.tail + 1, log := ring.log + [a])
    ensures RingOk(ring', r, adders[a := Adder(RPublish(r, ring.tail), Some(Spot(r, ring.tail)))])
  {
    var adders' := adders[a := Adder(RPublish(r, ring.tail), Some(Spot(r, ring.tail)))];
    forall p | 0 <= p < ring.tail ensures ring.log[p] != a {
      assert HasSpot(adders, ring.log[p], r, p);
    }
    forall p | |ring'.delivered| <= p < ring'.tail ensures Awaited(ring', r, adders', p) {
      if p < ring.tail {
        assert Awaited(ring, r, adders, p);
      }
    }
    forall p | 0 <= p < ring'.tail ensures HasSpot(adders', ring'.log[p], r, p) {
      if p < ring.tail {
        assert HasSpot(adders, ring.log[p], r, p);
      }
    }
  }

  /** A ring in which the adder has no part does not notice it. */
  lemma OtherRing(ring: Ring, r: nat, adders: seq<Adder>, a: nat, me: Adder)
    requires RingOk(ring, r, adders) && a < |adders|
    requires forall p :: 0 <= p < ring.tail ==> ring.log[p] != a
    ensures RingOk(ring, r, adders[a := me])
  {
    var adders' := adders[a := me];
    forall p | |ring.delivered| <= p < ring.tail ensures Awaited(ring, r, adders', p) {
      assert Awaited(ring, r, adders, p);
    }
    forall p | 0 <= p < ring.tail ensures HasSpot(adders', ring.log[p], r, p) {
      assert HasSpot(adders, ring.log[p], r, p);
    }
  }

  lemma NotInRing(ring: Ring, r: nat, adders: seq<Adder>, a: nat)
    requires RingOk(ring, r, adders) && a < |adders| && (adders[a].spot.Some? ==> adders[a].spot.value.ring != r)
    ensures forall p :: 0 <= p < ring.tail ==> ring.log[p] != a
  {
    forall p | 0 <= p < ring.tail ensures ring.log[p] != a {
      assert HasSpot(adders, ring.log[p], r, p);
    }
  }

  /** One ring and its adder change; the others stay. */
  lemma RingsChanged(rings: seq<Ring>, adders: seq<Adder>, r: nat, ring': Ring, a: nat, me: Adder)
    requires RingsOk(rings, adders) && r < |rings| && a < |adders|
    requires RingOk(ring', r, adders[a := me])
    requires adders[a].spot.Some? ==> adders[a].spot.value.ring == r
    ensures RingsOk(rings[r := ring'], adders[a := me])
  {
    var rings' := rings[r := ring'];
    forall q | 0 <= q < |rings'| ensures RingOk(rings'[q], q, adders[a := me]) {
      if q != r {
        RingAt(rings, adders, q);
        NotInRing(rings[q], q, adders, a);
        OtherRing(rings[q], q, adders, a, me);
      }
    }
  }

  /** The rings only grow: logs are extended and heads advance, places stay. */
  ghost predicate RingsGrow(rings: seq<Ring>, rings': seq<Ring>) {
    && |rings| <= |rings'|
    && (forall r :: 0 <= r < |rings| ==> RingGrows(rings[r], rings'[r]))
  }

  predicate RingGrows(ring: Ring, ring': Ring) {
    ring.log <= ring'.log && ring.head <= ring'.head && ring.place == ring'.place
  }

  /** What other adders know survives when the rings grow and the arrays do not lose anything they rely on. */
  lemma AddersGrow(s: State, s': State, a: nat)
    requires AddersOk(s) && |s'.adders| == |s.adders| && a < |s.adders| && s'.adders == s.adders[a := s'.adders[a]]
    requires RingsGrow(s.rings, s'.rings) && s'.busy == s.busy
    requires s'.arrays == s.arrays && s'.current == s.current
    requires AdderOk(s'.adders[a], a, s'.rings, s'.arrays, s'.current, s'.busy)
    ensures AddersOk(s')
  {
    forall b | 0 <= b < |s'.adders| ensures AdderOk(s'.adders[b], b, s'.rings, s'.arrays, s'.current, s'.busy) {
      if b != a {
        AdderGrows(s.adders[b], b, s.rings, s'.rings, s.arrays, s.current, s.busy);
      }
    }
  }

  lemma AdderGrows(me: Adder, b: nat, rings: seq<Ring>, rings': seq<Ring>, arrays: seq<seq<Option<nat>>>, current: Option<nat>, busy: Option<nat>)
    requires AdderOk(me, b, rings, arrays, current, busy) && RingsGrow(rings, rings')
    ensures AdderOk(me, b, rings', arrays, current, busy)
  {
    if me.spot.Some? {
      assert RingGrows(rings[me.spot.value.ring], rings'[me.spot.value.ring]);
    }
    if InRing(me.pc) {
      assert RingGrows(rings[me.pc.r], rings'[me.pc.r]);
    }
  }

  lemma ArraysGrow(rings: seq<Ring>, rings': seq<Ring>, arrays: seq<seq<Option<nat>>>, current: Option<nat>)
    requires ArraysOk(rings, arrays, current) && RingsGrow(rings, rings') && |rings'| == |rings|
    ensures ArraysOk(rings', arrays, current)
  {
    forall r | 0 <= r < |rings| ensures rings'[r].place == rings[r].place {
      assert RingGrows(rings[r], rings'[r]);
    }
  }

  lemma OneRingGrows(rings: seq<Ring>, r: nat, ring': Ring)
    requires r < |rings| && RingGrows(rings[r], ring')
    ensures RingsGrow(rings, rings[r := ring'])
  {
  }

  lemma DrainSeesSame(d: DrainPc, rings: seq<Ring>, r: nat, ring': Ring)
    requires DrainOk(d, rings) && r < |rings|
    requires ring'.head == rings[r].head && ring'.delivered == rings[r].delivered && ring'.tail >= rings[r].tail && |ring'.slots| == |rings[r].slots|
    requires d.DClear? && d.r == r ==> ring'.slots[d.h % BUFFER_SIZE] == rings[r].slots[d.h % BUFFER_SIZE]
    ensures DrainOk(d, rings[r := ring'])
  {
  }

  lemma ReserveOk(s: State, a: nat)
    requires Inv(s) && a < |s.adders| && s.adders[a].pc.RCas? && s.adders[a].pc.r < |s.rings| && s.rings[s.adders[a].pc.r].tail == s.adders[a].pc.t
    ensures Inv(RingStep(s, a))
  {
    hide Inv, RingsOk, AddersOk, ArraysOk, DrainOk, RingsGrow;
    Parts(s);
    AdderAt(s, a);
    var s' := RingStep(s, a);
    var pc := s.adders[a].pc;
    var r := pc.r;
    RingAt(s.rings, s.adders, r);
    ReserveRing(s.rings[r], r, s.adders, a, s'.rings[r]);
    RingsChanged(s.rings, s.adders, r, s'.rings[r], a, s'.adders[a]);
    OneRingGrows(s.rings, r, s'.rings[r]);
    AddersGrow(s, s', a);
    ArraysGrow(s.rings, s'.rings, s.arrays, s.current);
    DrainSeesSame(s.drain, s.rings, r, s'.rings[r]);
    Whole(s');
  }

  lemma PublishRing(ring: Ring, r: nat, adders: seq<Adder>, a: nat, t: nat, ring': Ring)
    requires RingOk(ring, r, adders) && a < |adders| && adders[a].pc == RPublish(r, t) && adders[a].spot == Some(Spot(r, t))
    requires t < |ring.log| && ring.log[t] == a
    requires ring' == ring.(slots := ring.slots[t % BUFFER_SIZE := Some(a)])
    ensures |ring.delivered| <= t ==> RingOk(ring', r, adders[a := Adder(ADone(Success), Some(Spot(r, t)))])
  {
    var adders' := adders[a := Adder(ADone(Success), Some(Spot(r, t)))];
    if |ring.delivered| <= t {
      forall p | |ring'.delivered| <= p < ring'.tail ensures Awaited(ring', r, adders', p) {
        assert Awaited(ring, r, adders, p);
        if p < t {
          SlotsApart(p, t);
        } else if t < p {
          SlotsApart(t, p);
        }
        if p != t {
          OneSpot(ring, r, adders, a, t, p);
        }
      }
      forall p | ring'.tail <= p < |ring'.delivered| + BUFFER_SIZE ensures ring'.slots[p % BUFFER_SIZE] == None {
        SlotsApart(t, p);
      }
      forall p | 0 <= p < ring'.tail ensures HasSpot(adders', ring'.log[p], r, p) {
        assert HasSpot(adders, ring.log[p], r, p);
      }
    }
  }

  lemma OneSpot(ring: Ring, r: nat, adders: seq<Adder>, a: nat, t: nat, p: nat)
    requires RingOk(ring, r, adders) && a < |adders| && adders[a].spot == Some(Spot(r, t)) && p < |ring.log| && p != t
    ensures ring.log[p] != a
  {
    assert HasSpot(adders, ring.log[p], r, p);
  }

  /** An element that is not published yet has not been delivered. */
  lemma Undelivered(s: State, a: nat)
    requires RingsOk(s.rings, s.adders) && AddersOk(s) && a < |s.adders| && s.adders[a].pc.RPublish?
    ensures s.adders[a].pc.r < |s.rings| && |s.rings[s.adders[a].pc.r].delivered| <= s.adders[a].pc.t
  {
    var pc := s.adders[a].pc;
    AdderAt(s, a);
    RingAt(s.rings, s.adders, pc.r);
    assert Publishing(s.adders, s.rings[pc.r].log[pc.t], pc.r, pc.t);
  }

  lemma PublishOk(s: State, a: nat)
    requires Inv(s) && a < |s.adders| && s.adders[a].pc.RPublish?
    ensures Inv(RingStep(s, a))
  {
    hide Inv, RingsOk, AddersOk, ArraysOk, DrainOk, RingsGrow;
    Parts(s);
    AdderAt(s, a);
    Undelivered(s, a);
    var s' := RingStep(s, a);
    var pc := s.adders[a].pc;
    var r := pc.r;
    RingAt(s.rings, s.adders, r);
    PublishRing(s.rings[r], r, s.adders, a, pc.t, s'.rings[r]);
    RingsChanged(s.rings, s.adders, r, s'.rings[r], a, s'.adders[a]);
    OneRingGrows(s.rings, r, s'.rings[r]);
    AddersGrow(s, s', a);
    ArraysGrow(s.rings, s'.rings, s.arrays, s.current);
    ClearedElsewhere(s, a);
    DrainSeesSame(s.drain, s.rings, r, s'.rings[r]);
    Whole(s');
  }

  /** The slot the drainer is about to clear is not the one an adder is about to fill. */
  lemma ClearedElsewhere(s: State, a: nat)
    requires RingsOk(s.rings, s.adders) && AddersOk(s) && DrainOk(s.drain, s.rings) && a < |s.adders| && s.adders[a].pc.RPublish?
    ensures s.drain.DClear? && s.drain.r == s.adders[a].pc.r ==> s.drain.h % BUFFER_SIZE != s.adders[a].pc.t % BUFFER_SIZE
  {
    var pc := s.adders[a].pc;
    Undelivered(s, a);
    AdderAt(s, a);
    RingAt(s.rings, s.adders, pc.r);
    if s.drain.DClear? && s.drain.r == pc.r {
      assert Awaited(s.rings[pc.r], pc.r, s.adders, pc.t);
      assert Awaited(s.rings[pc.r], pc.r, s.adders, s.drain.h);
      if s.drain.h < pc.t {
        SlotsApart(s.drain.h, pc.t);
      }
    }
  }

  // ---------- New rings and arrays ----------

  lemma NewRingOk(r: nat, adders: seq<Adder>, a: nat, place: nat, me: Adder)
    requires a < |adders| && me.spot == Some(Spot(r, 0)) && !me.pc.RPublish?
    ensures RingOk(NewRing(a, place), r, adders[a := me])
  {
    var ring := NewRing(a, place);
    assert forall p :: 1 <= p < 16 ==> ring.slots[p % 16] == None;
  }

  lemma RingsAdded(rings: seq<Ring>, adders: seq<Adder>, a: nat, place: nat, me: Adder)
    requires RingsOk(rings, adders) && a < |adders| && adders[a].spot == None
    requires me.spot == Some(Spot(|rings|, 0)) && !me.pc.RPublish?
    ensures RingsOk(rings + [NewRing(a, place)], adders[a := me])
  {
    var rings' := rings + [NewRing(a, place)];
    forall q | 0 <= q < |rings'| ensures RingOk(rings'[q], q, adders[a := me]) {
      if q < |rings| {
        RingAt(rings, adders, q);
        NotInRing(rings[q], q, adders, a);
        OtherRing(rings[q], q, adders, a, me);
      } else {
        NewRingOk(|rings|, adders, a, place, me);
      }
    }
  }

  lemma DrainSeesMore(d: DrainPc, rings: seq<Ring>, ring: Ring)
    requires DrainOk(d, rings) && ring.delivered == [] && ring.head == 0
    ensures DrainOk(d, rings + [ring])
  {
  }

  lemma AttachArrays(rings: seq<Ring>, arrays: seq<seq<Option<nat>>>, b: nat, k: nat, ring: Ring)
    requires ArraysOk(rings, arrays, Some(b)) && b < |arrays| && k < |arrays[b]| && arrays[b][k] == None && ring.place == k
    ensures ArraysOk(rings + [ring], arrays[b := arrays[b][k := Some(|rings|)]], Some(b))
  {
    var rings', arrays' := rings + [ring], arrays[b := arrays[b][k := Some(|rings|)]];
    forall r | 0 <= r < |rings'| ensures Shows(arrays', b, rings'[r].place, r) {
      if r < |rings| {
        assert Shows(arrays, b, rings[r].place, r);
      }
    }
  }

  lemma AttachOk(s: State, a: nat, j: nat)
    requires Inv(s) && a < |s.adders| && s.adders[a].pc.BAttach?
    ensures Inv(AttachStep(s, a, j))
  {
    hide Inv, RingsOk, AddersOk, ArraysOk, DrainOk;
    Parts(s);
    AdderAt(s, a);
    var s' := AttachStep(s, a, j);
    var pc := s.adders[a].pc;
    RingsAdded(s.rings, s.adders, a, pc.j, s'.adders[a]);
    AttachArrays(s.rings, s.arrays, pc.bs, pc.j, NewRing(a, pc.j));
    DrainSeesMore(s.drain, s.rings, NewRing(a, pc.j));
    BusyAlone(s, s', a);
    Whole(s');
  }

  /** While a holds the spin lock no other adder relies on the arrays. */
  lemma BusyAlone(s: State, s': State, a: nat)
    requires AddersOk(s) && a < |s.adders| && |s'.adders| == |s.adders| && s'.adders == s.adders[a := s'.adders[a]]
    requires HoldsBusy(s.adders[a].pc) && s'.busy == s.busy
    requires s'.rings == s.rings || exists ring :: s'.rings == s.rings + [ring]
    requires AdderOk(s'.adders[a], a, s'.rings, s'.arrays, s'.current, s'.busy)
    ensures AddersOk(s')
  {
    assert AdderOk(s.adders[a], a, s.rings, s.arrays, s.current, s.busy);
    forall b | 0 <= b < |s'.adders| ensures AdderOk(s'.adders[b], b, s'.rings, s'.arrays, s'.current, s'.busy) {
      if b != a {
        assert AdderOk(s.adders[b], b, s.rings, s.arrays, s.current, s.busy);
      }
    }
  }

  lemma StoreOk(s: State, a: nat)
    requires Inv(s) && a < |s.adders| && s.adders[a].pc.IStore?
    ensures Inv(InitStep(s, a))
  {
    hide Inv, RingsOk, AddersOk, DrainOk;
    Parts(s);
    AdderAt(s, a);
    var s' := InitStep(s, a);
    RingsAdded(s.rings, s.adders, a, 0, s'.adders[a]);
    DrainSeesMore(s.drain, s.rings, NewRing(a, 0));
    BusyAlone(s, s', a);
    Whole(s');
  }

  /** The doubled array shows every ring at its old place. */
  lemma GrownArrays(rings: seq<Ring>, arrays: seq<seq<Option<nat>>>, b: nat)
    requires ArraysOk(rings, arrays, Some(b)) && b < |arrays|
    ensures ArraysOk(rings, arrays + [arrays[b] + seq(|arrays[b]|, i => None)], Some(|arrays|))
  {
    var wide := arrays[b] + seq(|arrays[b]|, i => None);
    var arrays' := arrays + [wide];
    forall r | 0 <= r < |rings| ensures Shows(arrays', |arrays|, rings[r].place, r) {
      assert Shows(arrays, b, rings[r].place, r);
    }
    forall c, j | 0 <= c < |arrays'| && 0 <= j < |arrays'[c]| && arrays'[c][j].Some?
      ensures arrays'[c][j].value < |rings| && rings[arrays'[c][j].value].place == j
    {
      if c == |arrays| {
        assert arrays[b][j] == wide[j];
      } else {
        assert arrays[c][j] == arrays'[c][j];
      }
    }
  }

  lemma GrownOk(s: State, a: nat)
    requires Inv(s) && a < |s.adders| && s.adders[a].pc.FCopy?
    requires s.adders[a].pc.bs < |s.arrays| && |s.adders[a].pc.copy| >= |s.arrays[s.adders[a].pc.bs]|
    ensures Inv(GrowStep(s, a))
  {
    hide Inv, RingsOk, AddersOk, ArraysOk, DrainOk;
    Parts(s);
    AdderAt(s, a);
    var s' := GrowStep(s, a);
    var pc := s.adders[a].pc;
    assert pc.copy == s.arrays[pc.bs];
    RingsSeeSame(s.rings, s.adders, a, s'.adders[a]);
    GrownArrays(s.rings, s.arrays, pc.bs);
    BusyAlone(s, s', a);
    Whole(s');
  }

  lemma AdderStepOk(s: State, a: nat, j: nat)
    requires Inv(s) && a < |s.adders|
    ensures Inv(AdderStep(s, a, j))
  {
    AdderInRange(s, a);
    hide Inv, RingStep, LookStep, AttachStep, GrowStep, InitStep;
    var pc := s.adders[a].pc;
    if InRing(pc) {
      if pc.RPublish? {
        PublishOk(s, a);
      } else if pc.RCas? && pc.r < |s.rings| && s.rings[pc.r].tail == pc.t {
        ReserveOk(s, a);
      } else {
        RingMoveOk(s, a);
      }
    } else if Looking(pc) {
      LookOk(s, a, j);
    } else if Attaching(pc) {
      if pc.BAttach? { AttachOk(s, a, j); } else { BusyOk(s, a, j); }
    } else if Growing(pc) {
      if pc.FCopy? && |pc.copy| >= |s.arrays[pc.bs]| {
        GrownOk(s, a);
      } else if pc.FCheck? || pc.FCopy? {
        CopyMoveOk(s, a);
      } else {
        GrowMoveOk(s, a);
      }
    } else if pc.IStore? {
      StoreOk(s, a);
    } else {
      InitMoveOk(s, a);
    }
  }

  lemma AdderInRange(s: State, a: nat)
    requires Inv(s) && a < |s.adders|
    ensures s.adders[a].pc.FCopy? ==> s.adders[a].pc.bs < |s.arrays|
  {
    assert AdderOk(s.adders[a], a, s.rings, s.arrays, s.current, s.busy);
  }

  // ---------- Draining ----------

  /** The drainer moves without touching a ring. */
  lemma DrainMoved(s: State, d: DrainPc)
    requires Inv(s) && DrainOk(d, s.rings)
    ensures Inv(s.(drain := d))
  {
    hide RingsOk, ArraysOk, DrainOk, AdderOk;
  }

  lemma DrainMoveOk(s: State)
    requires Inv(s) && !s.drain.DClear? && !s.drain.DStore?
    ensures Inv(DrainStep(s))
  {
    var s' := DrainStep(s);
    if s.drain.DPlace? || s.drain.DHead? || s.drain.DTail? || s.drain.DLoad? || s.drain.DIdle? {
      DrainNext(s);
    } else {
      DrainLook(s);
    }
    DrainMoved(s, s'.drain);
  }

  lemma DrainNext(s: State)
    requires RingsOk(s.rings, s.adders) && ArraysOk(s.rings, s.arrays, s.current) && DrainOk(s.drain, s.rings)
    requires s.drain.DPlace? || s.drain.DHead? || s.drain.DTail? || s.drain.DLoad? || s.drain.DIdle?
    ensures DrainStep(s) == s.(drain := DrainStep(s).drain) && DrainOk(DrainStep(s).drain, s.rings)
  {
    if s.drain.DTail? {
      RingAt(s.rings, s.adders, s.drain.r);
    }
  }

  lemma DrainLook(s: State)
    requires RingsOk(s.rings, s.adders) && DrainOk(s.drain, s.rings) && s.drain.DLook?
    ensures DrainStep(s) == s.(drain := DrainStep(s).drain) && DrainOk(DrainStep(s).drain, s.rings)
  {
    RingAt(s.rings, s.adders, s.drain.r);
  }

  /** The drainer takes the oldest undelivered element. */
  lemma TakeRing(ring: Ring, r: nat, adders: seq<Adder>, n: nat, ring': Ring)
    requires RingOk(ring, r, adders) && |ring.delivered| < ring.tail && ring.slots[|ring.delivered| % BUFFER_SIZE] == Some(n)
    requires ring' == ring.(slots := ring.slots[|ring.delivered| % BUFFER_SIZE := None], delivered := ring.delivered + [n])
    ensures RingOk(ring', r, adders)
  {
    hide HasSpot, Publishing;
    var d := |ring.delivered|;
    TakenFirst(ring, r, adders, n);
    TakenSlots(ring.slots, d, ring'.slots);
    assert forall p :: d + 1 <= p < ring'.tail ==> Awaited(ring', r, adders, p) by {
      forall p | d + 1 <= p < ring'.tail ensures Awaited(ring', r, adders, p) {
        assert Awaited(ring, r, adders, p);
      }
    }
    assert forall p :: ring'.tail <= p < d + 1 + BUFFER_SIZE ==> ring'.slots[p % BUFFER_SIZE] == None by {
      forall p | ring'.tail <= p < d + 1 + BUFFER_SIZE ensures ring'.slots[p % BUFFER_SIZE] == None {
        assert p < d + BUFFER_SIZE ==> ring.slots[p % BUFFER_SIZE] == None;
      }
    }
    hide Awaited;
    assert ring'.delivered == ring'.log[..d + 1];
  }

  lemma TakenFirst(ring: Ring, r: nat, adders: seq<Adder>, n: nat)
    requires RingOk(ring, r, adders) && |ring.delivered| < ring.tail && ring.slots[|ring.delivered| % BUFFER_SIZE] == Some(n)
    ensures ring.log[|ring.delivered|] == n && !Publishing(adders, n, r, |ring.delivered|)
  {
    assert Awaited(ring, r, adders, |ring.delivered|);
  }

  /** Clearing the slot of position d touches none of the next fifteen, and is what position d + 16 will find. */
  lemma TakenSlots(slots: seq<Option<nat>>, d: nat, slots': seq<Option<nat>>)
    requires |slots| == BUFFER_SIZE && slots' == slots[d % BUFFER_SIZE := None]
    ensures forall p :: d < p < d + BUFFER_SIZE ==> slots'[p % BUFFER_SIZE] == slots[p % BUFFER_SIZE]
    ensures slots'[(d + BUFFER_SIZE) % BUFFER_SIZE] == None
  {
    forall p | d < p < d + BUFFER_SIZE ensures slots'[p % BUFFER_SIZE] == slots[p % BUFFER_SIZE] {
      SlotsApart(d, p);
    }
  }

  lemma RingsTouched(rings: seq<Ring>, adders: seq<Adder>, r: nat, ring': Ring)
    requires RingsOk(rings, adders) && r < |rings| && RingOk(ring', r, adders)
    ensures RingsOk(rings[r := ring'], adders)
  {
    hide RingOk;
  }

  lemma AddersSee(s: State, s': State)
    requires AddersOk(s) && RingsGrow(s.rings, s'.rings) && s' == s.(rings := s'.rings, drain := s'.drain)
    ensures AddersOk(s')
  {
    forall b | 0 <= b < |s'.adders| ensures AdderOk(s'.adders[b], b, s'.rings, s'.arrays, s'.current, s'.busy) {
      AdderGrows(s.adders[b], b, s.rings, s'.rings, s.arrays, s.current, s.busy);
    }
  }

  lemma ClearOk(s: State)
    requires Inv(s) && s.drain.DClear?
    ensures Inv(DrainStep(s))
  {
    hide Inv, RingsOk, AddersOk, ArraysOk, RingsGrow;
    Parts(s);
    var s' := DrainStep(s);
    var r := s.drain.r;
    RingAt(s.rings, s.adders, r);
    TakeRing(s.rings[r], r, s.adders, s.drain.n, s'.rings[r]);
    RingsTouched(s.rings, s.adders, r, s'.rings[r]);
    OneRingGrows(s.rings, r, s'.rings[r]);
    AddersSee(s, s');
    ArraysGrow(s.rings, s'.rings, s.arrays, s.current);
    Whole(s');
  }

  lemma HeadRing(ring: Ring, r: nat, adders: seq<Adder>)
    requires RingOk(ring, r, adders)
    ensures RingOk(ring.(head := |ring.delivered|), r, adders)
  {
    var ring' := ring.(head := |ring.delivered|);
    forall p | |ring.delivered| <= p < ring.tail ensures Awaited(ring', r, adders, p) {
      assert Awaited(ring, r, adders, p);
    }
  }

  lemma HeadOk(s: State)
    requires Inv(s) && s.drain.DStore?
    ensures Inv(DrainStep(s))
  {
    hide Inv, RingsOk, AddersOk, ArraysOk, RingsGrow;
    Parts(s);
    var s' := DrainStep(s);
    var r := s.drain.r;
    RingAt(s.rings, s.adders, r);
    HeadRing(s.rings[r], r, s.adders);
    RingsTouched(s.rings, s.adders, r, s'.rings[r]);
    OneRingGrows(s.rings, r, s'.rings[r]);
    AddersSee(s, s');
    ArraysGrow(s.rings, s'.rings, s.arrays, s.current);
    Whole(s');
  }

  // ---------- Every run ----------

  lemma BeginOk(s: State)
    requires Inv(s)
    ensures Inv(Step(s, Begin))
  {
    hide Inv, RingsOk, ArraysOk, DrainOk;
    Parts(s);
    var s' := Step(s, Begin);
    AddersLonger(s, s');
    RingsLongerAdders(s.rings, s.adders, Adder(ALoad, None));
    Whole(s');
  }

  lemma AddersLonger(s: State, s': State)
    requires AddersOk(s) && s' == s.(adders := s.adders + [Adder(ALoad, None)])
    ensures AddersOk(s')
  {
    forall b | 0 <= b < |s'.adders| ensures AdderOk(s'.adders[b], b, s'.rings, s'.arrays, s'.current, s'.busy) {
      assert b < |s.adders| ==> AdderOk(s.adders[b], b, s.rings, s.arrays, s.current, s.busy);
    }
  }

  lemma RingsLongerAdders(rings: seq<Ring>, adders: seq<Adder>, me: Adder)
    requires RingsOk(rings, adders) && me.spot == None && !me.pc.RPublish?
    ensures RingsOk(rings, adders + [me])
  {
    var adders' := adders + [me];
    forall r | 0 <= r < |rings| ensures RingOk(rings[r], r, adders') {
      RingAt(rings, adders, r);
      RingLongerAdders(rings[r], r, adders, me);
    }
  }

  lemma RingLongerAdders(ring: Ring, r: nat, adders: seq<Adder>, me: Adder)
    requires RingOk(ring, r, adders) && me.spot == None && !me.pc.RPublish?
    ensures RingOk(ring, r, adders + [me])
  {
    var adders' := adders + [me];
    forall p | 0 <= p < ring.tail ensures HasSpot(adders', ring.log[p], r, p) {
      assert HasSpot(adders, ring.log[p], r, p);
    }
    forall p | |ring.delivered| <= p < ring.tail ensures Awaited(ring, r, adders', p) {
      assert Awaited(ring, r, adders, p);
      assert HasSpot(adders, ring.log[p], r, p);
    }
    forall p | 0 <= p < |ring.delivered| ensures !Publishing(adders', ring.log[p], r, p) {
      assert HasSpot(adders, ring.log[p], r, p) && !Publishing(adders, ring.log[p], r, p);
    }
  }

  /** Every step of every adder and of the drainer keeps the invariant. */
  lemma StepOk(s: State, x: Action)
    requires Inv(s)
    ensures Inv(Step(s, x))
  {
    hide RingsOk, AddersOk, ArraysOk, AdderStep, DrainStep;
    match x
    case Begin => BeginOk(s);
    case GoAdder(a, j) => if a < |s.adders| { AdderStepOk(s, a, j); }
    case BeginDrain => if s.drain.DIdle? { DrainMoved(s, DLoad); }
    case GoDrain =>
      if s.drain.DClear? { ClearOk(s); } else if s.drain.DStore? { HeadOk(s); } else { DrainMoveOk(s); }
  }

  lemma {:induction false} RunOk(s: State, actions: seq<Action>)
    requires Inv(s)
    ensures Inv(Run(s, actions))
    decreases |actions|
  {
    hide Inv, Step;
    if actions != [] {
      StepOk(s, actions[0]);
      RunOk(Step(s, actions[0]), actions[1..]);
    }
  }

  // ---------- Theorems ----------

  /** The element of adder a is at position p of ring r. */
  predicate StoredAt(s: State, a: nat, r: nat, p: nat) {
    r < |s.rings| && p < |s.rings[r].log| && s.rings[r].log[p] == a
  }

  /**
    Over every interleaving: an add that succeeded stored its element at exactly one position of
    exactly one ring, one that failed or found a full ring stored it nowhere.
  */
  lemma StoredOnce(maxLen: nat, actions: seq<Action>, a: nat)
    ensures var s := Run(New(maxLen), actions);
      a < |s.adders| && s.adders[a].pc.ADone? ==>
        && (s.adders[a].pc.result == Success ==> exists r, p :: StoredAt(s, a, r, p))
        && (s.adders[a].pc.result != Success ==> forall r, p :: !StoredAt(s, a, r, p))
        && (forall r, p, r', p' :: StoredAt(s, a, r, p) && StoredAt(s, a, r', p') ==> r == r' && p == p')
  {
    var s := Run(New(maxLen), actions);
    InitOk(maxLen);
    RunOk(New(maxLen), actions);
    if a < |s.adders| && s.adders[a].pc.ADone? {
      AdderAt(s, a);
      if s.adders[a].pc.result == Success {
        assert StoredAt(s, a, s.adders[a].spot.value.ring, s.adders[a].spot.value.pos);
      }
      forall r: nat, p: nat | StoredAt(s, a, r, p) ensures s.adders[a].spot == Some(Spot(r, p)) {
        RingAt(s.rings, s.adders, r);
        assert HasSpot(s.adders, s.rings[r].log[p], r, p);
      }
    }
  }

  predicate DeliveredAt(s: State, r: nat, i: nat) {
    r < |s.rings| && i < |s.rings[r].delivered|
  }

  /** Each ring delivers in the order of the reservations, holds no more than sixteen elements, and no element is delivered twice. */
  lemma DeliveredInOrder(maxLen: nat, actions: seq<Action>, r: nat, i: nat, r': nat, i': nat)
    ensures var s := Run(New(maxLen), actions);
      && (r < |s.rings| ==> s.rings[r].delivered <= s.rings[r].log && s.rings[r].tail <= s.rings[r].head + BUFFER_SIZE
                            && s.rings[r].tail == |s.rings[r].log|)
      && (DeliveredAt(s, r, i) && DeliveredAt(s, r', i') && s.rings[r].delivered[i] == s.rings[r'].delivered[i'] ==>
            r == r' && i == i')
  {
    var s := Run(New(maxLen), actions);
    InitOk(maxLen);
    RunOk(New(maxLen), actions);
    if r < |s.rings| {
      RingAt(s.rings, s.adders, r);
      if r' < |s.rings| {
        RingAt(s.rings, s.adders, r');
        if i < |s.rings[r].delivered| && i' < |s.rings[r'].delivered| {
          assert HasSpot(s.adders, s.rings[r].log[i], r, i);
          assert HasSpot(s.adders, s.rings[r'].log[i'], r', i');
        }
      }
    }
  }

  /** Growth drops nothing: an element that was added and not yet delivered lies in a slot of a ring of the current array. */
  lemma NothingDropped(maxLen: nat, actions: seq<Action>, a: nat)
    ensures var s := Run(New(maxLen), actions);
      a < |s.adders| && s.adders[a].pc == ADone(Success) ==>
        && s.adders[a].spot.Some?
        && var r, p := s.adders[a].spot.value.ring, s.adders[a].spot.value.pos;
           StoredAt(s, a, r, p) && s.current.Some? && Shows(s.arrays, s.current.value, s.rings[r].place, r)
           && (p < |s.rings[r].delivered| || (|s.rings[r].slots| == BUFFER_SIZE && s.rings[r].slots[p % BUFFER_SIZE] == Some(a)))
  {
    var s := Run(New(maxLen), actions);
    InitOk(maxLen);
    RunOk(New(maxLen), actions);
    if a < |s.adders| && s.adders[a].pc == ADone(Success) {
      AdderAt(s, a);
      var r, p := s.adders[a].spot.value.ring, s.adders[a].spot.value.pos;
      RingAt(s.rings, s.adders, r);
      if p >= |s.rings[r].delivered| {
        assert Awaited(s.rings[r], r, s.adders, p);
      }
    }
  }
}
