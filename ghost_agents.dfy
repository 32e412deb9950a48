/**
 * Ghost behaviour: a ghost samples its move from a distribution over its
 * legal actions. The random ghost weighs every legal action equally; the
 * directional ghost favours the actions that bring it closest to Pacman
 * (or, when scared, farthest from him).
 */
module GhostAgents {
  import opened Game
  import opened Options

  /** util.Counter over actions: a missing key reads 0. */
  type Counter = map<Direction, real>

  function Get(c: Counter, d: Direction): real
  {
    if d in c then c[d] else 0.0
  }

  /** totalCount: the sum of the values (every key is one of the five directions). */
  function Total(c: Counter): real
  {
    Get(c, North) + Get(c, South) + Get(c, East) + Get(c, West) + Get(c, Stop)
  }

  /** Counter.normalize: divide every value by the total, unless the total is 0. */
  function Normalize(c: Counter): (n: Counter)
    ensures n.Keys == c.Keys
    ensures Total(c) == 0.0 ==> n == c
    ensures forall d :: d in c ==> n[d] * Total(c) == (if Total(c) == 0.0 then 0.0 else c[d])
  {
    var t := Total(c);
    if t == 0.0 then c else map d | d in c :: c[d] / t
  }

  /** A normalised counter with a non-zero total sums to 1. */
  lemma NormalizeSumsToOne(c: Counter)
    requires Total(c) != 0.0
    ensures Total(Normalize(c)) == 1.0
  {
    var t := Total(c);
    var n := Normalize(c);
    forall d ensures Get(n, d) == Get(c, d) / t {
    }
    DivideSum(Get(c, North), Get(c, South), Get(c, East), Get(c, West), Get(c, Stop), t);
  }

  lemma DivideSum(a: real, b: real, c: real, d: real, e: real, t: real)
    requires t != 0.0 && a + b + c + d + e == t
    ensures a / t + b / t + c / t + d / t + e / t == 1.0
  {
    assert a / t + b / t + c / t + d / t + e / t == (a + b + c + d + e) / t;
  }

  /** Normalising a counter that already sums to 1 changes nothing. */
  lemma NormalizeOfUnit(c: Counter)
    requires Total(c) == 1.0
    ensures Normalize(c) == c
  {
  }

  // ---------------------------------------------------------------
  // GhostAgent.getAction
  // ---------------------------------------------------------------

  /**
   * getAction: STOP for an empty distribution, otherwise the action that
   * util.sample draws, given here as `pick`.
   */
  function GetAction(dist: Counter, pick: Direction): (a: Direction)
    requires |dist| > 0 ==> pick in dist
    ensures |dist| == 0 ==> a == Stop
    ensures |dist| > 0 ==> a in dist
  {
    if |dist| == 0 then Stop else pick
  }

  // ---------------------------------------------------------------
  // RandomGhost
  // ---------------------------------------------------------------

  /** Weight 1 for every legal action (dist[a] = 1.0). */
  function Ones(legal: seq<Direction>): (c: Counter)
    ensures forall a :: a in c <==> a in legal
  {
    map a | a in legal :: 1.0
  }

  /** RandomGhost.getDistribution. */
  method RandomDistribution(legal: seq<Direction>) returns (dist: Counter)
    ensures dist == Normalize(Ones(legal))
  {
    dist := map[];
    for i := 0 to |legal|
      invariant dist == Ones(legal[..i])
    {
      dist := dist[legal[i] := 1.0];
      assert legal[..i + 1] == legal[..i] + [legal[i]];
    }
    assert legal[..|legal|] == legal;
    dist := Normalize(dist);
  }

  /**
   * The random ghost's distribution: exactly the legal actions, all with
   * the same weight, summing to 1 (empty when there is no legal action).
   */
  lemma RandomIsUniform(legal: seq<Direction>)
    ensures forall a :: a in Normalize(Ones(legal)) <==> a in legal
    ensures forall a, b :: a in legal && b in legal ==> Normalize(Ones(legal))[a] == Normalize(Ones(legal))[b]
    ensures legal != [] ==> Total(Normalize(Ones(legal))) == 1.0
    ensures legal == [] ==> GetAction(Normalize(Ones(legal)), Stop) == Stop
  {
    var c := Ones(legal);
    if legal != [] {
      forall d ensures Get(c, d) == if d in legal then 1.0 else 0.0 {
      }
      var a := legal[0];
      assert a.North? || a.South? || a.East? || a.West? || a.Stop?;
      assert Total(c) >= 1.0;
      NormalizeSumsToOne(c);
    } else {
      assert c == map[];
    }
  }

  // ---------------------------------------------------------------
  // DirectionalGhost
  // ---------------------------------------------------------------

  /** A scared ghost moves at half speed. */
  function Speed(scared: bool): real
  {
    if scared then 0.5 else 1.0
  }

  /** The Manhattan distance to Pacman after each legal action at the given speed. */
  function Distances(pos: (real, real), pacmanPos: (real, real), legal: seq<Direction>, speed: real): (ds: seq<real>)
    ensures |ds| == |legal|
    ensures forall i :: 0 <= i < |legal| ==>
      ds[i] == ManhattanReal((pos.0 + DirectionToVector(legal[i], speed).0,
                              pos.1 + DirectionToVector(legal[i], speed).1), pacmanPos)
  {
    seq(|legal|, i requires 0 <= i < |legal| =>
      var v := DirectionToVector(legal[i], speed);
      ManhattanReal((pos.0 + v.0, pos.1 + v.1), pacmanPos))
  }

  function Max(s: seq<real>): (m: real)
    requires |s| > 0
    ensures m in s && forall i :: 0 <= i < |s| ==> s[i] <= m
  {
    if |s| == 1 then s[0]
    else
      var m := Max(s[..|s| - 1]);
      assert forall x :: x in s[..|s| - 1] ==> x in s;
      if s[|s| - 1] > m then s[|s| - 1] else m
  }

  function Min(s: seq<real>): (m: real)
    requires |s| > 0
    ensures m in s && forall i :: 0 <= i < |s| ==> m <= s[i]
  {
    if |s| == 1 then s[0]
    else
      var m := Min(s[..|s| - 1]);
      assert forall x :: x in s[..|s| - 1] ==> x in s;
      if s[|s| - 1] < m then s[|s| - 1] else m
  }

  /** The positions among the first n whose distance equals best, in increasing order. */
  function BestIndices(ds: seq<real>, best: real, n: nat): (idx: seq<nat>)
    requires n <= |ds|
    ensures forall k :: 0 <= k < |idx| ==> idx[k] < n && ds[idx[k]] == best
    ensures forall k, l :: 0 <= k < l < |idx| ==> idx[k] < idx[l]
    ensures forall i :: 0 <= i < n && ds[i] == best ==> i in idx
  {
    if n == 0 then []
    else BestIndices(ds, best, n - 1) + (if ds[n - 1] == best then [n - 1] else [])
  }

  /** The comprehension over zip(legalActions, distances) keeping the best-scoring actions. */
  function BestActions(legal: seq<Direction>, ds: seq<real>, best: real): (r: seq<Direction>)
    requires |ds| == |legal|
    ensures |r| == |BestIndices(ds, best, |ds|)|
    ensures forall k :: 0 <= k < |r| ==> r[k] == legal[BestIndices(ds, best, |ds|)[k]]
  {
    var idx := BestIndices(ds, best, |ds|);
    seq(|idx|, k requires 0 <= k < |idx| => legal[idx[k]])
  }

  /** The best score: the largest distance when scared, the smallest otherwise. */
  function BestScore(ds: seq<real>, scared: bool): real
    requires |ds| > 0
  {
    if scared then Max(ds) else Min(ds)
  }

  /** The best actions of a ghost at pos with the given legal actions. */
  function BestActionsOf(pos: (real, real), pacmanPos: (real, real), legal: seq<Direction>, scared: bool): seq<Direction>
    requires |legal| > 0
  {
    var ds := Distances(pos, pacmanPos, legal, Speed(scared));
    BestActions(legal, ds, BestScore(ds, scared))
  }

  predicate Distinct(s: seq<Direction>)
  {
    forall i, j :: 0 <= i < j < |s| ==> s[i] != s[j]
  }

  /**
   * bestActions is non-empty, contains only legal actions, and has no
   * repeats when the legal actions have none; with BestIndices it is the
   * order-preserving subsequence of the actions whose distance is the best
   * score.
   */
  lemma BestActionsShape(pos: (real, real), pacmanPos: (real, real), legal: seq<Direction>, scared: bool)
    requires |legal| > 0
    ensures |BestActionsOf(pos, pacmanPos, legal, scared)| > 0
    ensures forall a :: a in BestActionsOf(pos, pacmanPos, legal, scared) ==> a in legal
    ensures Distinct(legal) ==> Distinct(BestActionsOf(pos, pacmanPos, legal, scared))
  {
    var ds := Distances(pos, pacmanPos, legal, Speed(scared));
    BestScoreExtreme(ds, scared);
    BestActionsOfScore(legal, ds, BestScore(ds, scared));
  }

  /** The actions whose distance is a score that occurs: at least one, all legal, no repeats added. */
  lemma BestActionsOfScore(legal: seq<Direction>, ds: seq<real>, score: real)
    requires |ds| == |legal| && score in ds
    ensures |BestActions(legal, ds, score)| > 0
    ensures forall a :: a in BestActions(legal, ds, score) ==> a in legal
    ensures Distinct(legal) ==> Distinct(BestActions(legal, ds, score))
  {
    var idx := BestIndices(ds, score, |ds|);
    var best := BestActions(legal, ds, score);
    var i :| 0 <= i < |ds| && ds[i] == score;
    assert i in idx;
    forall a | a in best ensures a in legal {
      var k :| 0 <= k < |best| && best[k] == a;
      assert legal[idx[k]] == a;
    }
    if Distinct(legal) {
      forall k, l | 0 <= k < l < |best| ensures best[k] != best[l] {
        assert idx[k] < idx[l];
      }
    }
  }

  /** The best score is the largest distance when scared and the smallest otherwise. */
  lemma BestScoreExtreme(ds: seq<real>, scared: bool)
    requires |ds| > 0
    ensures BestScore(ds, scared) in ds
    ensures forall i :: 0 <= i < |ds| ==> if scared then ds[i] <= BestScore(ds, scared) else BestScore(ds, scared) <= ds[i]
  {
  }

  /** The number of occurrences of d in s. */
  function Count(s: seq<Direction>, d: Direction): nat
  {
    if s == [] then 0 else Count(s[..|s| - 1], d) + (if s[|s| - 1] == d then 1 else 0)
  }

  /** The chance of taking a best action: prob_scaredFlee when scared, prob_attack otherwise. */
  function ChooseProb(scared: bool, probAttack: real, probScaredFlee: real): real
  {
    if scared then probScaredFlee else probAttack
  }

  /**
   * The counter the two loops of getDistribution build before normalising:
   * chooseProb / |best| on every best action, plus (1 - chooseProb) / |legal|
   * added once for every occurrence of an action in the legal list.
   */
  function Weights(legal: seq<Direction>, best: seq<Direction>, chooseProb: real): Counter
    requires |legal| > 0 && |best| > 0
  {
    map a | a in legal || a in best ::
      (if a in best then chooseProb / |best| as real else 0.0)
      + Times((1.0 - chooseProb) / |legal| as real, Count(legal, a))
  }

  /** DirectionalGhost.getDistribution; None when there is no legal action (min/max of an empty list). */
  method DirectionalDistribution(pos: (real, real), pacmanPos: (real, real), legal: seq<Direction>,
                                 scaredTimer: int, probAttack: real, probScaredFlee: real)
    returns (r: Option<Counter>)
    ensures r.None? <==> legal == []
    ensures r.Some? ==> r.value == Normalize(Weights(legal, BestActionsOf(pos, pacmanPos, legal, scaredTimer > 0),
                                                     ChooseProb(scaredTimer > 0, probAttack, probScaredFlee)))
  {
    if legal == [] {
      return None;
    }
    var isScared := scaredTimer > 0;
    var speed := Speed(isScared);
    var distances := Distances(pos, pacmanPos, legal, speed);
    var bestScore := BestScore(distances, isScared);
    var chooseProb := ChooseProb(isScared, probAttack, probScaredFlee);
    var bestActions := BestActions(legal, distances, bestScore);
    BestActionsShape(pos, pacmanPos, legal, isScared);
    var bestCount := |bestActions|;
    var dist := AssignBest(bestActions, chooseProb / bestCount as real);
    var remainProb := (1.0 - chooseProb) / |legal| as real;
    ghost var dist0 := dist;
    dist := SpreadRemaining(dist, legal, remainProb);
    SpreadOverBest(dist0, legal, bestActions, chooseProb);
    r := Some(Normalize(dist));
  }

  /** Spreading the remaining probability over the best actions' counter gives the weights. */
  lemma SpreadOverBest(dist0: Counter, legal: seq<Direction>, best: seq<Direction>, chooseProb: real)
    requires |legal| > 0 && |best| > 0
    requires forall a :: a in dist0 <==> a in best
    requires forall a :: a in dist0 ==> dist0[a] == chooseProb / |best| as real
    ensures AddEach(dist0, legal, (1.0 - chooseProb) / |legal| as real) == Weights(legal, best, chooseProb)
  {
    var rp := (1.0 - chooseProb) / |legal| as real;
    var dist := AddEach(dist0, legal, rp);
    var w := Weights(legal, best, chooseProb);
    AddEachKeys(dist0, legal, rp);
    forall a | a in dist ensures a in w && dist[a] == w[a] {
      AddEachCounts(dist0, legal, rp, a);
    }
    assert dist.Keys == w.Keys;
  }

  /** The first loop: dist[a] = chooseProb / bestCount for every best action. */
  method AssignBest(bestActions: seq<Direction>, p: real) returns (dist: Counter)
    ensures forall a :: a in dist <==> a in bestActions
    ensures forall a :: a in dist ==> dist[a] == p
  {
    dist := map[];
    for i := 0 to |bestActions|
      invariant forall a :: a in dist <==> a in bestActions[..i]
      invariant forall a :: a in dist ==> dist[a] == p
    {
      assert bestActions[..i + 1] == bestActions[..i] + [bestActions[i]];
      dist := dist[bestActions[i] := p];
    }
    assert bestActions[..|bestActions|] == bestActions;
  }

  lemma MulSucc(x: real, c: nat)
    ensures x * (c + 1) as real == x * c as real + x
  {
  }

  /** dist[a] += r for every a of s in turn, a missing key reading 0. */
  function AddEach(c: Counter, s: seq<Direction>, r: real): Counter
  {
    if s == [] then c
    else
      var prev := AddEach(c, s[..|s| - 1], r);
      prev[s[|s| - 1] := Get(prev, s[|s| - 1]) + r]
  }

  /** Adding r per occurrence adds r times the number of occurrences, and the keys gain those of s. */
  lemma {:induction false} AddEachKeys(c: Counter, s: seq<Direction>, r: real)
    ensures forall a :: a in AddEach(c, s, r) <==> a in c || a in s
  {
    if s != [] {
      AddEachKeys(c, s[..|s| - 1], r);
      assert s == s[..|s| - 1] + [s[|s| - 1]];
    }
  }

  /** r added n times. */
  function Times(r: real, n: nat): real
  {
    if n == 0 then 0.0 else Times(r, n - 1) + r
  }

  lemma {:induction false} AddEachCounts(c: Counter, s: seq<Direction>, r: real, a: Direction)
    ensures Get(AddEach(c, s, r), a) == Get(c, a) + Times(r, Count(s, a))
  {
    if s != [] {
      var init := s[..|s| - 1];
      var x := s[|s| - 1];
      AddEachCounts(c, init, r, a);
      CountSnoc(init, x, a);
      assert s == init + [x];
    }
  }

  lemma {:induction false} TimesIsProduct(r: real, n: nat)
    ensures Times(r, n) == r * n as real
  {
    if n > 0 {
      TimesIsProduct(r, n - 1);
      MulSucc(r, n - 1);
    }
  }

  /** The second loop: dist[a] += (1 - chooseProb) / |legal| for every legal action. */
  method SpreadRemaining(dist0: Counter, legal: seq<Direction>, remainProb: real) returns (dist: Counter)
    ensures dist == AddEach(dist0, legal, remainProb)
  {
    dist := dist0;
    for i := 0 to |legal|
      invariant dist == AddEach(dist0, legal[..i], remainProb)
    {
      assert legal[..i + 1][..i] == legal[..i];
      dist := dist[legal[i] := Get(dist, legal[i]) + remainProb];
    }
    assert legal[..|legal|] == legal;
  }

  lemma CountSnoc(s: seq<Direction>, x: Direction, d: Direction)
    ensures Count(s + [x], d) == Count(s, d) + (if x == d then 1 else 0)
  {
    assert (s + [x])[..|s|] == s;
  }

  // ---------------------------------------------------------------
  // The weights sum to 1
  // ---------------------------------------------------------------

  function In(s: seq<Direction>, d: Direction): nat
  {
    if d in s then 1 else 0
  }

  lemma {:induction false} CountOfDistinct(s: seq<Direction>, d: Direction)
    requires Distinct(s)
    ensures Count(s, d) == In(s, d)
  {
    if s != [] {
      var p := s[..|s| - 1];
      assert Distinct(p);
      CountOfDistinct(p, d);
      assert s == p + [s[|s| - 1]];
      assert s[|s| - 1] !in p;
    }
  }

  /** A list of distinct actions has as many elements as directions it contains. */
  lemma {:induction false} InSum(s: seq<Direction>)
    requires Distinct(s)
    ensures In(s, North) + In(s, South) + In(s, East) + In(s, West) + In(s, Stop) == |s|
  {
    if s != [] {
      var p := s[..|s| - 1];
      var x := s[|s| - 1];
      assert Distinct(p);
      InSum(p);
      assert s == p + [x];
      assert x !in p;
      forall d ensures In(s, d) == In(p, d) + (if d == x then 1 else 0) {
        assert d in s <==> d in p || d == x;
      }
      assert x.North? || x.South? || x.East? || x.West? || x.Stop?;
    }
  }

  lemma {:induction false} TimesAdditive(r: real, m: nat, n: nat)
    ensures Times(r, m) + Times(r, n) == Times(r, m + n)
    decreases n
  {
    if n > 0 {
      TimesAdditive(r, m, n - 1);
    }
  }

  /** Adding r once for each direction a distinct list holds adds r |s| times. */
  lemma TimesInSum(r: real, s: seq<Direction>)
    requires Distinct(s)
    ensures Times(r, In(s, North)) + Times(r, In(s, South)) + Times(r, In(s, East))
            + Times(r, In(s, West)) + Times(r, In(s, Stop)) == Times(r, |s|)
  {
    InSum(s);
    TimesAdditive(r, In(s, North), In(s, South));
    TimesAdditive(r, In(s, North) + In(s, South), In(s, East));
    TimesAdditive(r, In(s, North) + In(s, South) + In(s, East), In(s, West));
    TimesAdditive(r, In(s, North) + In(s, South) + In(s, East) + In(s, West), In(s, Stop));
  }

  /** With distinct legal actions, a weighs chooseProb/|best| if it is best, plus (1-chooseProb)/|legal| if it is legal. */
  lemma WeightsOfDistinct(legal: seq<Direction>, best: seq<Direction>, chooseProb: real, a: Direction)
    requires |legal| > 0 && |best| > 0 && Distinct(legal)
    requires forall b :: b in best ==> b in legal
    ensures (a in Weights(legal, best, chooseProb)) <==> a in legal
    ensures Get(Weights(legal, best, chooseProb), a)
      == Times(chooseProb / |best| as real, In(best, a)) + Times((1.0 - chooseProb) / |legal| as real, In(legal, a))
  {
    CountOfDistinct(legal, a);
  }

  lemma TimesIn(r: real, s: seq<Direction>, a: Direction)
    ensures Times(r, In(s, a)) == if a in s then r else 0.0
  {
    if a in s {
      assert Times(r, 1) == Times(r, 0) + r;
    }
  }

  /** With distinct legal and best actions, the weights sum to 1. */
  lemma WeightsTotal(legal: seq<Direction>, best: seq<Direction>, chooseProb: real)
    requires |legal| > 0 && |best| > 0 && Distinct(legal) && Distinct(best)
    requires forall b :: b in best ==> b in legal
    ensures Total(Weights(legal, best, chooseProb)) == 1.0
  {
    var k := chooseProb / |best| as real;
    var rp := (1.0 - chooseProb) / |legal| as real;
    WeightsOfDistinct(legal, best, chooseProb, North);
    WeightsOfDistinct(legal, best, chooseProb, South);
    WeightsOfDistinct(legal, best, chooseProb, East);
    WeightsOfDistinct(legal, best, chooseProb, West);
    WeightsOfDistinct(legal, best, chooseProb, Stop);
    TimesInSum(k, best);
    TimesInSum(rp, legal);
    assert Total(Weights(legal, best, chooseProb)) == Times(k, |best|) + Times(rp, |legal|);
    TimesOfShare(chooseProb, |best|);
    TimesOfShare(1.0 - chooseProb, |legal|);
  }

  /** n shares of x / n make x. */
  lemma TimesOfShare(x: real, n: nat)
    requires n > 0
    ensures Times(x / n as real, n) == x
  {
    TimesIsProduct(x / n as real, n);
  }



  /**
   * With distinct legal actions every best action weighs
   * chooseProb/|best| + (1-chooseProb)/|legal|, every other legal action
   * (1-chooseProb)/|legal|, and the weights sum to 1, so normalising
   * leaves them as they are.
   */
  lemma WeightsShape(legal: seq<Direction>, best: seq<Direction>, chooseProb: real)
    requires |legal| > 0 && |best| > 0 && Distinct(legal) && Distinct(best)
    requires forall b :: b in best ==> b in legal
    ensures forall a :: a in Weights(legal, best, chooseProb) <==> a in legal
    ensures forall a :: a in best ==>
      Weights(legal, best, chooseProb)[a] == chooseProb / |best| as real + (1.0 - chooseProb) / |legal| as real
    ensures forall a :: a in legal && a !in best ==>
      Weights(legal, best, chooseProb)[a] == (1.0 - chooseProb) / |legal| as real
    ensures Total(Weights(legal, best, chooseProb)) == 1.0
    ensures Normalize(Weights(legal, best, chooseProb)) == Weights(legal, best, chooseProb)
  {
    forall a ensures (a in Weights(legal, best, chooseProb) <==> a in legal)
      && Get(Weights(legal, best, chooseProb), a)
         == (if a in best then chooseProb / |best| as real else 0.0)
            + (if a in legal then (1.0 - chooseProb) / |legal| as real else 0.0)
    {
      WeightsOfDistinct(legal, best, chooseProb, a);
      TimesIn(chooseProb / |best| as real, best, a);
      TimesIn((1.0 - chooseProb) / |legal| as real, legal, a);
    }
    WeightsTotal(legal, best, chooseProb);
    NormalizeOfUnit(Weights(legal, best, chooseProb));
  }

  /** The directional ghost's weights: the shape above for its own best actions. */
  lemma DirectionalSumsToOne(pos: (real, real), pacmanPos: (real, real), legal: seq<Direction>,
                             scared: bool, chooseProb: real)
    requires |legal| > 0 && Distinct(legal)
    ensures var best := BestActionsOf(pos, pacmanPos, legal, scared);
      && |best| > 0 && (forall a :: a in best ==> a in legal)
      && Total(Weights(legal, best, chooseProb)) == 1.0
      && Normalize(Weights(legal, best, chooseProb)) == Weights(legal, best, chooseProb)
  {
    BestActionsShape(pos, pacmanPos, legal, scared);
    WeightsShape(legal, BestActionsOf(pos, pacmanPos, legal, scared), chooseProb);
  }
}
