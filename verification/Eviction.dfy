/**
  Who has to go: the order of eviction from the main space, on plain lists. Entries of weight zero,
  cursors and links do not occur here; the policy's loop is proved to follow this plan.
*/
module Eviction {
  import opened Nodes
  import opened Options

  /** The minimum popularity for randomized admission. */
  const ADMIT_HASHDOS_THRESHOLD: nat := 6

  /** The frequencies of the sketch, and the random coin tossed at each turn. */
  datatype Judge = Judge(frequency: Node -> nat, coins: nat -> bool)

  predicate Admits(judge: Judge, candidate: Node, victim: Node, turn: nat) {
    || judge.frequency(candidate) > judge.frequency(victim)
    || (judge.frequency(candidate) >= ADMIT_HASHDOS_THRESHOLD && judge.coins(turn))
  }

  // ---------- Lists ----------

  /** The entries with weight, in order. */
  function Heavy(l: seq<Node>): seq<Node> {
    if l == [] then [] else Heavy(l[..|l| - 1]) + if l[|l| - 1].weight != 0 then [l[|l| - 1]] else []
  }

  /** The list without the nodes in the set, the others in order. */
  ghost function Rest(l: seq<Node>, gone: set<Node>): (r: seq<Node>)
    ensures |r| <= |l|
  {
    if l == [] then [] else
      var last := |l| - 1;
      Rest(l[..last], gone) + if l[last] in gone then [] else [l[last]]
  }

  lemma {:induction false} RestAll(l: seq<Node>)
    ensures Rest(l, {}) == l
  {
    if l != [] {
      RestAll(l[..|l| - 1]);
    }
  }

  lemma {:induction false} RestIn(l: seq<Node>, gone: set<Node>, n: Node)
    ensures n in Rest(l, gone) <==> n in l && n !in gone
  {
    if l != [] {
      RestIn(l[..|l| - 1], gone, n);
    }
  }

  lemma {:induction false} RestSame(l: seq<Node>, gone: set<Node>, n: Node)
    requires n !in Rest(l, gone)
    ensures Rest(l, gone + {n}) == Rest(l, gone)
  {
    if l != [] {
      RestSame(l[..|l| - 1], gone, n);
      assert l[|l| - 1] == n ==> n in gone;
    }
  }

  lemma {:induction false} RestLess(l: seq<Node>, gone: set<Node>, p: nat)
    requires p < |Rest(l, gone)| && NoDup(Rest(l, gone))
    ensures Rest(l, gone + {Rest(l, gone)[p]}) == Without(Rest(l, gone), p)
  {
    var r, last := Rest(l, gone), |l| - 1;
    var front := Rest(l[..last], gone);
    assert forall k :: 0 <= k < |front| ==> front[k] == r[k];
    if p < |front| {
      RestLess(l[..last], gone, p);
      assert l[last] !in gone ==> r[|r| - 1] == l[last] && r[p] != l[last];
    } else {
      RestSame(l[..last], gone, r[p]);
    }
  }

  /** Dropping one of several different nodes. */
  lemma RestWithout(l: seq<Node>, p: nat)
    requires p < |l| && NoDup(l)
    ensures Rest(l, {l[p]}) == Without(l, p)
  {
    RestAll(l);
    RestLess(l, {}, p);
    assert {} + {l[p]} == {l[p]};
  }

  lemma RestOthers(l: seq<Node>, n: Node)
    requires n !in l
    ensures Rest(l, {n}) == l
  {
    RestAll(l);
    RestSame(l, {}, n);
    assert {} + {n} == {n};
  }

  lemma {:induction false} RestShorter(l: seq<Node>, n: Node)
    requires n in l
    ensures |Rest(l, {n})| < |l|
  {
    if l[|l| - 1] != n {
      RestShorter(l[..|l| - 1], n);
    }
  }

  lemma {:induction false} RestRest(l: seq<Node>, a: set<Node>, b: set<Node>)
    ensures Rest(Rest(l, a), b) == Rest(l, a + b)
  {
    if l != [] {
      var last := |l| - 1;
      RestRest(l[..last], a, b);
      if l[last] in a {
        assert Rest(l, a) == Rest(l[..last], a);
      } else {
        var r := Rest(l, a);
        assert r[..|r| - 1] == Rest(l[..last], a) && r[|r| - 1] == l[last];
      }
    }
  }

  lemma {:induction false} RestConcat(a: seq<Node>, b: seq<Node>, gone: set<Node>)
    ensures Rest(a + b, gone) == Rest(a, gone) + Rest(b, gone)
  {
    if b == [] {
      assert a + b == a;
    } else {
      var last := |b| - 1;
      assert (a + b)[..|a + b| - 1] == a + b[..last];
      RestConcat(a, b[..last], gone);
    }
  }

  lemma {:induction false} HeavyConcat(a: seq<Node>, b: seq<Node>)
    ensures Heavy(a + b) == Heavy(a) + Heavy(b)
  {
    if b == [] {
      assert a + b == a;
    } else {
      assert (a + b)[..|a + b| - 1] == a + b[..|b| - 1];
      HeavyConcat(a, b[..|b| - 1]);
    }
  }

  lemma {:induction false} HeavyRest(l: seq<Node>, gone: set<Node>)
    ensures Heavy(Rest(l, gone)) == Rest(Heavy(l), gone)
  {
    if l != [] {
      var last := |l| - 1;
      HeavyRest(l[..last], gone);
      HeavyConcat(Rest(l[..last], gone), if l[last] in gone then [] else [l[last]]);
      RestConcat(Heavy(l[..last]), if l[last].weight != 0 then [l[last]] else [], gone);
    }
  }

  lemma {:induction false} HeavyIn(l: seq<Node>, n: Node)
    ensures n in Heavy(l) <==> n in l && n.weight != 0
  {
    if l != [] {
      HeavyIn(l[..|l| - 1], n);
    }
  }

  lemma {:induction false} HeavyNoDup(l: seq<Node>)
    requires NoDup(l)
    ensures NoDup(Heavy(l))
  {
    if l != [] {
      HeavyNoDup(l[..|l| - 1]);
      HeavyIn(l[..|l| - 1], l[|l| - 1]);
    }
  }

  lemma {:induction false} NoneHeavy(l: seq<Node>)
    requires forall k :: 0 <= k < |l| ==> l[k].weight == 0
    ensures Heavy(l) == []
  {
    if l != [] {
      NoneHeavy(l[..|l| - 1]);
    }
  }

  // ---------- The plan ----------

  /**
    What there is to choose from: the victims of probation, the candidates that came from the window into
    probation, those still in the window, and what is left when neither are: protected, then window.
  */
  datatype Scene = Scene(victims: seq<Node>, newcomers: seq<Node>, window: seq<Node>, rest: seq<Node>)

  /** Who is evicted, and what there is to choose from then. */
  datatype Turn = Turn(node: Node, scene: Scene)

  ghost function Gone1(s: Scene, n: Node, newcomers: seq<Node>, window: seq<Node>): Turn {
    Turn(n, Scene(Rest(s.victims, {n}), newcomers, window, Rest(s.rest, {n})))
  }

  function Candidates(s: Scene): seq<Node> {
    s.newcomers + s.window
  }

  /** The first candidate leaves the list of candidates. */
  ghost function VictimOut(s: Scene): Turn
    requires s.victims != []
  {
    Gone1(s, s.victims[0], s.newcomers, s.window)
  }

  ghost function VictimBeaten(s: Scene): Turn
    requires s.victims != [] && Candidates(s) != []
  {
    Gone1(s, s.victims[0], if s.newcomers != [] then s.newcomers[1..] else [], if s.newcomers != [] then s.window else s.window[1..])
  }

  ghost function CandidateOut(s: Scene): Turn
    requires Candidates(s) != []
  {
    Gone1(s, Candidates(s)[0], if s.newcomers != [] then s.newcomers[1..] else [], if s.newcomers != [] then s.window else s.window[1..])
  }

  /** Who is next to go. */
  ghost function Pick(s: Scene, alive: set<Node>, maximum: nat, judge: Judge, turn: nat): Option<Turn> {
    var candidates := Candidates(s);
    if s.victims == [] && candidates == [] then
      if s.rest == [] then None else Some(Gone1(s, s.rest[0], [], []))
    else if s.victims == [] then Some(CandidateOut(s))
    else if candidates == [] then Some(VictimOut(s))
    else if s.victims[0] == candidates[0] then Some(Gone1(s, s.victims[0], [], s.window))
    else if s.victims[0] !in alive then Some(VictimOut(s))
    else if candidates[0] !in alive || candidates[0].weight > maximum then Some(CandidateOut(s))
    else if Admits(judge, candidates[0], s.victims[0], turn) then Some(VictimBeaten(s))
    else Some(CandidateOut(s))
  }

  ghost function Length(s: Scene): nat {
    |s.victims| + |s.newcomers| + |s.window| + |s.rest|
  }

  lemma PickShorter(s: Scene, alive: set<Node>, maximum: nat, judge: Judge, turn: nat)
    ensures var p := Pick(s, alive, maximum, judge, turn); p.Some? ==> Length(p.value.scene) < Length(s)
  {
    hide Rest;
    if s.victims != [] {
      RestShorter(s.victims, s.victims[0]);
    }
    if s.rest != [] {
      RestShorter(s.rest, s.rest[0]);
    }
  }

  /** Whom an eviction round takes from the main space, in order, when the total is `size`. */
  ghost function Plan(s: Scene, alive: set<Node>, maximum: nat, judge: Judge, size: nat, turn: nat): seq<Node>
    decreases Length(s)
  {
    var p := Pick(s, alive, maximum, judge, turn);
    if size <= maximum || p.None? then []
    else
      PickShorter(s, alive, maximum, judge, turn);
      [p.value.node] + Plan(p.value.scene, alive, maximum, judge, Minus(size, p.value.node.weight), turn + 1)
  }

  /** What there is to choose from after the first j evictions. */
  ghost function SceneAt(s: Scene, alive: set<Node>, maximum: nat, judge: Judge, size: nat, turn: nat, j: nat): Scene
    requires j <= |Plan(s, alive, maximum, judge, size, turn)|
    decreases j
  {
    if j == 0 then s
    else
      var p := Pick(s, alive, maximum, judge, turn);
      SceneAt(p.value.scene, alive, maximum, judge, Minus(size, p.value.node.weight), turn + 1, j - 1)
  }

  lemma {:induction false} TurnAt(s: Scene, alive: set<Node>, maximum: nat, judge: Judge, size: nat, turn: nat, j: nat)
    requires j < |Plan(s, alive, maximum, judge, size, turn)|
    ensures var p := Pick(SceneAt(s, alive, maximum, judge, size, turn, j), alive, maximum, judge, turn + j);
      && p.Some? && p.value.node == Plan(s, alive, maximum, judge, size, turn)[j]
      && p.value.scene == SceneAt(s, alive, maximum, judge, size, turn, j + 1)
    decreases j
  {
    hide Pick;
    if j > 0 {
      var p := Pick(s, alive, maximum, judge, turn);
      TurnAt(p.value.scene, alive, maximum, judge, Minus(size, p.value.node.weight), turn + 1, j - 1);
    }
  }

  ghost function First(plan: seq<Node>, j: nat): set<Node>
    requires j <= |plan|
  {
    set n | n in plan[..j]
  }

  /** The victims at any turn are those of the beginning but for what has been evicted. */
  lemma {:induction false} VictimsLeft(s: Scene, alive: set<Node>, maximum: nat, judge: Judge, size: nat, turn: nat, j: nat)
    requires j <= |Plan(s, alive, maximum, judge, size, turn)|
    ensures var plan := Plan(s, alive, maximum, judge, size, turn);
      SceneAt(s, alive, maximum, judge, size, turn, j).victims == Rest(s.victims, First(plan, j))
      && SceneAt(s, alive, maximum, judge, size, turn, j).rest == Rest(s.rest, First(plan, j))
    decreases j
  {
    hide Rest;
    var plan := Plan(s, alive, maximum, judge, size, turn);
    if j == 0 {
      assert First(plan, 0) == {};
      RestAll(s.victims);
      RestAll(s.rest);
    } else {
      var p := Pick(s, alive, maximum, judge, turn);
      var n, next := p.value.node, p.value.scene;
      VictimsLeft(next, alive, maximum, judge, Minus(size, n.weight), turn + 1, j - 1);
      var later := Plan(next, alive, maximum, judge, Minus(size, n.weight), turn + 1);
      assert plan == [n] + later && plan[..j] == [n] + later[..j - 1];
      assert First(plan, j) == {n} + First(later, j - 1);
      OnceLess(s, alive, maximum, judge, turn);
      RestRest(s.victims, {n}, First(later, j - 1));
      RestRest(s.rest, {n}, First(later, j - 1));
    }
  }

  lemma OnceLess(s: Scene, alive: set<Node>, maximum: nat, judge: Judge, turn: nat)
    ensures var p := Pick(s, alive, maximum, judge, turn);
      p.Some? ==> p.value.scene.victims == Rest(s.victims, {p.value.node}) && p.value.scene.rest == Rest(s.rest, {p.value.node})
  {
    hide Rest;
  }

  // ---------- What the plan guarantees ----------

  /**
    Retired entries first: as long as the oldest entry of probation that is left and weighs something is not alive,
    it is the one to go. So an entry that is alive goes only if that one is alive, or is itself.
  */
  lemma RetiredFirst(s: Scene, alive: set<Node>, maximum: nat, judge: Judge, size: nat, j: nat)
    requires j < |Plan(s, alive, maximum, judge, size, 0)|
    ensures var plan := Plan(s, alive, maximum, judge, size, 0);
      var left := Rest(s.victims, First(plan, j));
      left != [] && left[0] !in alive ==> plan[j] == left[0]
  {
    hide Rest, Plan, SceneAt;
    TurnAt(s, alive, maximum, judge, size, 0, j);
    VictimsLeft(s, alive, maximum, judge, size, 0, j);
  }

  /** At each turn the candidates are the last ones of those at the beginning: they are looked at in order, each once. */
  lemma {:induction false} CandidatesInOrder(s: Scene, alive: set<Node>, maximum: nat, judge: Judge, size: nat, turn: nat, j: nat)
    returns (k: nat)
    requires j <= |Plan(s, alive, maximum, judge, size, turn)|
    ensures k <= |Candidates(s)| && Candidates(SceneAt(s, alive, maximum, judge, size, turn, j)) == Candidates(s)[k..]
    decreases j
  {
    hide Rest;
    if j == 0 {
      k := 0;
    } else {
      var p := Pick(s, alive, maximum, judge, turn);
      var next := p.value.scene;
      var m := OneOn(s, alive, maximum, judge, turn);
      k := CandidatesInOrder(next, alive, maximum, judge, Minus(size, p.value.node.weight), turn + 1, j - 1);
      k := m + k;
    }
  }

  lemma OneOn(s: Scene, alive: set<Node>, maximum: nat, judge: Judge, turn: nat) returns (m: nat)
    ensures var p := Pick(s, alive, maximum, judge, turn);
      p.Some? ==> m <= |Candidates(s)| && Candidates(p.value.scene) == Candidates(s)[m..]
  {
    hide Rest, Admits, Candidates, VictimOut, VictimBeaten, CandidateOut;
    Passed(s);
    var p := Pick(s, alive, maximum, judge, turn);
    m := if p.Some? then |Candidates(s)| - |Candidates(p.value.scene)| else 0;
  }

  /** What each kind of turn leaves of the candidates. */
  lemma Passed(s: Scene)
    ensures Candidates(s)[0..] == Candidates(s) && Candidates(s)[|Candidates(s)|..] == []
    ensures s.victims != [] ==> Candidates(VictimOut(s).scene) == Candidates(s)
    ensures s.victims != [] && Candidates(s) != [] ==> Candidates(VictimBeaten(s).scene) == Candidates(s)[1..]
    ensures Candidates(s) != [] ==> Candidates(CandidateOut(s).scene) == Candidates(s)[1..]
    ensures forall n :: Candidates(Gone1(s, n, [], []).scene) == []
    ensures forall n :: Candidates(Gone1(s, n, [], s.window).scene) == s.window
    ensures |s.newcomers| <= |Candidates(s)| && Candidates(s)[|s.newcomers|..] == s.window
  {
    hide Rest;
  }

  /**
    Between a victim and a candidate that are both there and are not the same: the victim goes if it is retired, or if the
    candidate is alive, fits into the cache, and is admitted in its place; otherwise the candidate goes.
  */
  lemma FairTurn(s: Scene, alive: set<Node>, maximum: nat, judge: Judge, size: nat, j: nat)
    requires j < |Plan(s, alive, maximum, judge, size, 0)|
    ensures var plan := Plan(s, alive, maximum, judge, size, 0);
      var left, candidates := Rest(s.victims, First(plan, j)), Candidates(SceneAt(s, alive, maximum, judge, size, 0, j));
      left != [] && candidates != [] && left[0] != candidates[0] ==>
        plan[j] == if left[0] !in alive
                      || (candidates[0] in alive && candidates[0].weight <= maximum && Admits(judge, candidates[0], left[0], j))
                   then left[0] else candidates[0]
  {
    hide Rest, Plan, SceneAt;
    TurnAt(s, alive, maximum, judge, size, 0, j);
    VictimsLeft(s, alive, maximum, judge, size, 0, j);
  }

  /** The protected entries, and those the window keeps, are touched only when no victim and no candidate is left, and then in order. */
  lemma ProtectedLast(s: Scene, alive: set<Node>, maximum: nat, judge: Judge, size: nat, j: nat)
    requires j < |Plan(s, alive, maximum, judge, size, 0)|
    ensures var plan := Plan(s, alive, maximum, judge, size, 0);
      var n, at := plan[j], SceneAt(s, alive, maximum, judge, size, 0, j);
      || n in Rest(s.victims, First(plan, j))
      || n in Candidates(at)
      || (Rest(s.victims, First(plan, j)) == [] && Candidates(at) == []
          && Rest(s.rest, First(plan, j)) != [] && n == Rest(s.rest, First(plan, j))[0])
  {
    hide Rest, Plan, SceneAt;
    TurnAt(s, alive, maximum, judge, size, 0, j);
    VictimsLeft(s, alive, maximum, judge, size, 0, j);
  }

  /** The plan ends when the rest fits, or when nobody is left. */
  lemma {:induction false} PlanEnds(s: Scene, alive: set<Node>, maximum: nat, judge: Judge, size: nat, turn: nat)
    ensures var plan := Plan(s, alive, maximum, judge, size, turn);
      var last := SceneAt(s, alive, maximum, judge, size, turn, |plan|);
      SizeAfter(size, plan) <= maximum || (last.victims == [] && Candidates(last) == [] && last.rest == [])
    decreases Length(s)
  {
    var p := Pick(s, alive, maximum, judge, turn);
    NobodyLeft(s, alive, maximum, judge, turn);
    hide Pick, Minus;
    if size > maximum && p.Some? {
      var next, less := p.value.scene, Minus(size, p.value.node.weight);
      PickShorter(s, alive, maximum, judge, turn);
      PlanEnds(next, alive, maximum, judge, less, turn + 1);
      assert Plan(s, alive, maximum, judge, size, turn)[1..] == Plan(next, alive, maximum, judge, less, turn + 1);
    }
  }

  lemma NobodyLeft(s: Scene, alive: set<Node>, maximum: nat, judge: Judge, turn: nat)
    ensures Pick(s, alive, maximum, judge, turn).None? <==> s.victims == [] && Candidates(s) == [] && s.rest == []
  {
  }

  function SizeAfter(size: nat, plan: seq<Node>): nat
    decreases |plan|
  {
    if plan == [] then size else SizeAfter(Minus(size, plan[0].weight), plan[1..])
  }
}
