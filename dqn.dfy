/**
 * The bookkeeping of the DQN trainer around its network: the global step
 * and how it is recovered from a checkpoint's file name, the Bellman
 * target, the selection of the Q-value of the action taken, and the
 * mean-squared-error loss. The network itself is a function given as a
 * parameter; the optimiser's result is an input.
 */
module Dqn {
  import opened Options

  /** Four values, one per action (North, East, South, West). */
  type ActionValues = q: seq<real> | |q| == 4 witness [0.0, 0.0, 0.0, 0.0]

  /** The network parameters (the state dict); their structure is not modelled. */
  type Weights = seq<real>

  /** One state's stacked feature matrices, flattened. */
  type Observation = seq<real>

  /** The forward pass as a function of the parameters. */
  type Forward = (Weights, Observation) -> ActionValues

  /** One row of a replay batch: state, action vector, terminal flag, next state, reward. */
  datatype Transition = Transition(s: Observation, a: ActionValues, t: real, n: Observation, r: real)

  // ---------------------------------------------------------------
  // The checkpoint file name: str.split('_') and int()
  // ---------------------------------------------------------------

  /** The fields joined back with '_' between them. */
  function Join(fields: seq<string>): string
    requires |fields| >= 1
  {
    if |fields| == 1 then fields[0]
    else Join(fields[..|fields| - 1]) + "_" + fields[|fields| - 1]
  }

  /** str.split('_'): the '_'-free fields that join back to s (one field when s has no '_'). */
  function Split(s: string): (fields: seq<string>)
    ensures |fields| >= 1
    ensures forall i :: 0 <= i < |fields| ==> '_' !in fields[i]
    ensures Join(fields) == s
  {
    if s == [] then [""]
    else
      var init := Split(s[..|s| - 1]);
      var c := s[|s| - 1];
      assert s == s[..|s| - 1] + [c];
      if c == '_' then
        JoinNewField(init);
        init + [""]
      else
        JoinExtendLast(init, c);
        init[..|init| - 1] + [init[|init| - 1] + [c]]
  }

  /** Starting a new, empty field appends the separator. */
  lemma JoinNewField(fields: seq<string>)
    requires |fields| >= 1
    ensures Join(fields + [""]) == Join(fields) + "_"
  {
    assert (fields + [""])[..|fields|] == fields;
  }

  /** Extending the last field by c appends c. */
  lemma JoinExtendLast(fields: seq<string>, c: char)
    requires |fields| >= 1
    ensures Join(fields[..|fields| - 1] + [fields[|fields| - 1] + [c]]) == Join(fields) + [c]
  {
    var k := |fields| - 1;
    var r := fields[..k] + [fields[k] + [c]];
    assert r[..k] == fields[..k];
    if k > 0 {
      assert Join(fields) == Join(fields[..k]) + "_" + fields[k];
    }
  }

  /** Appending '_' and a '_'-free text adds exactly that text as the last field. */
  lemma {:induction false} SplitAppend(s: string, t: string)
    requires '_' !in t
    ensures Split(s + "_" + t) == Split(s) + [t]
    decreases |t|
  {
    if t == [] {
      assert s + "_" + t == s + ['_'];
      SplitLast(s, '_');
    } else {
      var t' := t[..|t| - 1];
      var c := t[|t| - 1];
      assert s + "_" + t == (s + "_" + t') + [c];
      SplitAppend(s, t');
      SplitLast(s + "_" + t', c);
      var init := Split(s) + [t'];
      assert init[..|init| - 1] == Split(s);
      assert t' + [c] == t;
    }
  }

  /** One more character either starts a new field ('_') or extends the last one. */
  lemma SplitLast(u: string, c: char)
    ensures c == '_' ==> Split(u + [c]) == Split(u) + [""]
    ensures c != '_' ==> Split(u + [c]) == Split(u)[..|Split(u)| - 1] + [Split(u)[|Split(u)| - 1] + [c]]
  {
    assert (u + [c])[..|u|] == u;
  }

  /** Python's str.isspace on ASCII. */
  predicate IsSpace(c: char)
  {
    c == ' ' || c == '\t' || c == '\n' || c == '\r' || c == '\U{B}' || c == '\U{C}'
  }

  predicate IsDigit(c: char)
  {
    '0' <= c <= '9'
  }

  /** str.strip(): s without its leading and trailing whitespace. */
  function Strip(s: string): (t: string)
    ensures |t| <= |s|
    ensures t == [] || (!IsSpace(t[0]) && !IsSpace(t[|t| - 1]))
    ensures (forall i :: 0 <= i < |s| ==> !IsSpace(s[i])) ==> t == s
    decreases |s|
  {
    if s != [] && IsSpace(s[0]) then Strip(s[1..])
    else if s != [] && IsSpace(s[|s| - 1]) then Strip(s[..|s| - 1])
    else s
  }

  /** The value of a string of decimal digits. */
  function DigitsValue(d: string): (n: nat)
    requires forall i :: 0 <= i < |d| ==> IsDigit(d[i])
  {
    if d == [] then 0
    else
      var last := d[|d| - 1];
      assert IsDigit(last);
      DigitsValue(d[..|d| - 1]) * 10 + (last as int - '0' as int)
  }

  /** A non-empty run of decimal digits, or None. */
  function ParseDigits(d: string): (r: Option<nat>)
    ensures r.Some? <==> d != [] && forall i :: 0 <= i < |d| ==> IsDigit(d[i])
  {
    if d != [] && forall i :: 0 <= i < |d| ==> IsDigit(d[i]) then Some(DigitsValue(d)) else None
  }

  /** int(s): optional surrounding whitespace, an optional sign, then decimal digits; None for ValueError. */
  function ParseInt(s: string): (r: Option<int>)
    ensures Strip(s) == [] ==> r.None?
    ensures r.Some? && r.value < 0 ==> Strip(s)[0] == '-'
  {
    var t := Strip(s);
    if t != [] && (t[0] == '+' || t[0] == '-') then
      var m := ParseDigits(t[1..]);
      if m.None? then None else Some(if t[0] == '-' then -(m.value as int) else m.value)
    else
      match ParseDigits(t)
      case None => None
      case Some(v) => Some(v)
  }

  /** str(n) for a natural number: its decimal digits, no leading zero. */
  function NatToString(n: nat): (s: string)
    ensures s != [] && forall i :: 0 <= i < |s| ==> IsDigit(s[i])
  {
    if n < 10 then [('0' as int + n) as char]
    else NatToString(n / 10) + [('0' as int + n % 10) as char]
  }

  lemma {:induction false} DigitsOfNat(n: nat)
    ensures DigitsValue(NatToString(n)) == n
  {
    if n >= 10 {
      DigitsOfNat(n / 10);
      var s := NatToString(n);
      assert s[..|s| - 1] == NatToString(n / 10);
    }
  }

  /** int(str(n)) == n. */
  lemma ParseNatToString(n: nat)
    ensures ParseInt(NatToString(n)) == Some(n)
  {
    DigitsOfNat(n);
    var s := NatToString(n);
    assert forall i :: 0 <= i < |s| ==> !IsSpace(s[i]);
  }

  /** The step encoded in a checkpoint path: int of the second-to-last '_' field, None on an error. */
  function StepFromPath(path: string): (step: Option<int>)
    ensures '_' !in path ==> step.None?
  {
    var fields := Split(path);
    if |fields| < 2 then None else ParseInt(fields[|fields| - 2])
  }

  /** A path ending in _<step>_<suffix> gives back that step, whatever comes before. */
  lemma StepOfCheckpointName(prefix: string, step: nat, suffix: string)
    requires '_' !in suffix
    ensures StepFromPath(prefix + "_" + NatToString(step) + "_" + suffix) == Some(step)
  {
    var s := NatToString(step);
    assert '_' !in s by {
      assert forall i :: 0 <= i < |s| ==> IsDigit(s[i]);
    }
    SplitAppend(prefix, s);
    SplitAppend(prefix + "_" + s, suffix);
    ParseNatToString(step);
  }

  /** The file name the trainer writes, model-smallGrid_10000_100, resumes at step 10000. */
  lemma ExampleCheckpointName()
    ensures StepFromPath("model-smallGrid_10000_100") == Some(10000)
  {
    TenThousandDigits();
    StepOfCheckpointName("model-smallGrid", 10000, "100");
    CheckpointNameSpelling();
  }

  lemma CheckpointNameSpelling()
    ensures "model-smallGrid" + "_" + "10000" + "_" + "100" == "model-smallGrid_10000_100"
  {
  }

  lemma TenThousandDigits()
    ensures NatToString(10000) == "10000"
  {
    assert NatToString(1) == "1";
    assert NatToString(10) == "10";
    assert NatToString(100) == "100";
    assert NatToString(1000) == "1000";
  }

  // ---------------------------------------------------------------
  // Loading
  // ---------------------------------------------------------------

  datatype Checkpoint = Checkpoint(weights: Weights, step: int)

  /**
   * The state __init__ ends in. `fileExists` is os.path.exists and
   * `loaded` the state dict torch.load produced (None when loading
   * raised). The parameters are replaced before the step is parsed, so
   * a file name without a usable step keeps the loaded parameters and
   * starts at step 0.
   */
  function Load(initial: Weights, loadFile: Option<string>, fileExists: bool, loaded: Option<Weights>): (c: Checkpoint)
    ensures loadFile.None? || !fileExists || loaded.None? ==> c == Checkpoint(initial, 0)
    ensures loadFile.Some? && fileExists && loaded.Some? ==> c.weights == loaded.value
    ensures loadFile.Some? && fileExists && loaded.Some? ==>
      c.step == (if StepFromPath(loadFile.value).Some? then StepFromPath(loadFile.value).value else 0)
  {
    if loadFile.None? || !fileExists || loaded.None? then Checkpoint(initial, 0)
    else
      match StepFromPath(loadFile.value)
      case Some(step) => Checkpoint(loaded.value, step)
      case None => Checkpoint(loaded.value, 0)
  }

  /** Loading a well-named checkpoint resumes at the step in its name. */
  lemma ResumeFromCheckpoint(initial: Weights, prefix: string, step: nat, suffix: string, loaded: Weights)
    requires '_' !in suffix
    ensures Load(initial, Some(prefix + "_" + NatToString(step) + "_" + suffix), true, Some(loaded))
      == Checkpoint(loaded, step)
  {
    StepOfCheckpointName(prefix, step, suffix);
  }

  /** A loaded file whose name has no '_' keeps the loaded parameters but restarts at step 0. */
  lemma UnnamedCheckpointRestarts(initial: Weights, path: string, loaded: Weights)
    requires '_' !in path
    ensures Load(initial, Some(path), true, Some(loaded)) == Checkpoint(loaded, 0)
  {
  }

  /**
   * A second-to-last field that int() rejects: the exception is caught
   * after the parameters were replaced, so the loaded parameters are kept
   * and the step stays 0.
   */
  lemma NonNumericStepRestarts(initial: Weights, prefix: string, field: string, suffix: string, loaded: Weights)
    requires '_' !in field && '_' !in suffix && ParseInt(field).None?
    ensures StepFromPath(prefix + "_" + field + "_" + suffix).None?
    ensures Load(initial, Some(prefix + "_" + field + "_" + suffix), true, Some(loaded)) == Checkpoint(loaded, 0)
  {
    SplitAppend(prefix, field);
    SplitAppend(prefix + "_" + field, suffix);
  }

  /** 'model_abc_100' loads its parameters and starts at step 0. */
  lemma ExampleNonNumericStep(initial: Weights, loaded: Weights)
    ensures Load(initial, Some("model_abc_100"), true, Some(loaded)) == Checkpoint(loaded, 0)
  {
    AbcIsNotInt();
    NonNumericStepRestarts(initial, "model", "abc", "100", loaded);
    NonNumericNameSpelling();
  }

  lemma AbcIsNotInt()
    ensures ParseInt("abc").None?
  {
    assert Strip("abc") == "abc";
    assert !IsDigit("abc"[0]);
  }

  lemma NonNumericNameSpelling()
    ensures "model" + "_" + "abc" + "_" + "100" == "model_abc_100"
  {
  }

  // ---------------------------------------------------------------
  // The training arithmetic
  // ---------------------------------------------------------------

  /** torch.max over the action dimension. */
  function MaxQ(q: seq<real>): (m: real)
    requires |q| > 0
    ensures m in q
    ensures forall i :: 0 <= i < |q| ==> q[i] <= m
  {
    if |q| == 1 then q[0]
    else
      var m := MaxQ(q[..|q| - 1]);
      assert forall x :: x in q[..|q| - 1] ==> x in q;
      if q[|q| - 1] > m then q[|q| - 1] else m
  }

  /** The Bellman target r + (1 - t) * discount * max(qNext). */
  function Target(r: real, t: real, discount: real, qNext: ActionValues): (y: real)
    ensures t == 1.0 ==> y == r
    ensures t == 0.0 ==> y == r + discount * MaxQ(qNext)
    ensures t == 0.0 && discount >= 0.0 ==> forall i :: 0 <= i < 4 ==> y >= r + discount * qNext[i]
  {
    r + (1.0 - t) * discount * MaxQ(qNext)
  }

  /** torch.sum(q * a, dim=1) for one row. */
  function Dot(q: seq<real>, a: seq<real>): real
    requires |q| == |a|
  {
    if q == [] then 0.0 else Dot(q[..|q| - 1], a[..|a| - 1]) + q[|q| - 1] * a[|a| - 1]
  }

  /** The one-hot vector of length n with its 1 at index k. */
  function OneHot(n: nat, k: nat): (a: seq<real>)
    requires k < n
    ensures |a| == n && a[k] == 1.0
    ensures forall i :: 0 <= i < n && i != k ==> a[i] == 0.0
  {
    seq(n, i => if i == k then 1.0 else 0.0)
  }

  /** Against a one-hot action vector, the sum of products picks the Q-value of that action. */
  lemma {:induction false} OneHotSelects(q: seq<real>, k: nat)
    requires k < |q|
    ensures Dot(q, OneHot(|q|, k)) == q[k]
  {
    var n := |q|;
    var a := OneHot(n, k);
    if k < n - 1 {
      var a' := OneHot(n - 1, k);
      assert a[..n - 1] == a';
      OneHotSelects(q[..n - 1], k);
    } else {
      ZeroDot(q[..n - 1], a[..n - 1]);
    }
  }

  lemma {:induction false} ZeroDot(q: seq<real>, a: seq<real>)
    requires |q| == |a|
    requires forall i :: 0 <= i < |a| ==> a[i] == 0.0
    ensures Dot(q, a) == 0.0
  {
    if q != [] {
      ZeroDot(q[..|q| - 1], a[..|a| - 1]);
    }
  }

  /** The predicted Q-value of the action taken, row by row. */
  function Predictions(batch: seq<Transition>, forward: Forward, w: Weights): (p: seq<real>)
    ensures |p| == |batch|
    ensures forall i :: 0 <= i < |batch| ==> p[i] == Dot(forward(w, batch[i].s), batch[i].a)
  {
    seq(|batch|, i requires 0 <= i < |batch| => Dot(forward(w, batch[i].s), batch[i].a))
  }

  /** The targets yj, row by row, from the same network on the next states. */
  function Targets(batch: seq<Transition>, forward: Forward, w: Weights, discount: real): (y: seq<real>)
    ensures |y| == |batch|
    ensures forall i :: 0 <= i < |batch| ==> y[i] == Target(batch[i].r, batch[i].t, discount, forward(w, batch[i].n))
  {
    seq(|batch|, i requires 0 <= i < |batch| => Target(batch[i].r, batch[i].t, discount, forward(w, batch[i].n)))
  }

  /** The sum of squared differences. */
  function SumSquares(p: seq<real>, y: seq<real>): real
    requires |p| == |y|
  {
    if p == [] then 0.0
    else
      var n := |p| - 1;
      SumSquares(p[..n], y[..n]) + Square(p[n] - y[n])
  }

  function Square(d: real): real
  {
    d * d
  }

  /** A square is non-negative, and positive exactly when its root is not zero. */
  lemma SquarePositive(d: real)
    ensures Square(d) >= 0.0
    ensures Square(d) > 0.0 <==> d != 0.0
  {
    if d > 0.0 {
      calc {
        Square(d);
        d * d;
      >
        0.0;
      }
    } else if d < 0.0 {
      calc {
        Square(d);
        d * d;
        (-d) * (-d);
      >
        0.0;
      }
    } else {
      calc {
        Square(d);
        0.0 * 0.0;
        0.0;
      }
    }
  }

  /** The sum of squared differences is positive exactly when some row differs. */
  lemma {:induction false} SumSquaresPositive(p: seq<real>, y: seq<real>)
    requires |p| == |y|
    ensures SumSquares(p, y) >= 0.0
    ensures SumSquares(p, y) > 0.0 <==> exists i :: 0 <= i < |p| && p[i] != y[i]
  {
    if p != [] {
      var n := |p| - 1;
      var rest := SumSquares(p[..n], y[..n]);
      var sq := Square(p[n] - y[n]);
      SumSquaresPositive(p[..n], y[..n]);
      SquarePositive(p[n] - y[n]);
      assert SumSquares(p, y) == rest + sq;
      if exists i :: 0 <= i < |p| && p[i] != y[i] {
        var i :| 0 <= i < |p| && p[i] != y[i];
        if i < n {
          assert p[..n][i] != y[..n][i];
          assert rest > 0.0;
        } else {
          assert i == n;
        }
      } else {
        assert forall i :: 0 <= i < n ==> p[..n][i] == y[..n][i];
        assert rest == 0.0;
        assert p[n] - y[n] == 0.0;
        assert sq == 0.0;
      }
    }
  }

  /** The sum of squared differences is non-negative, and zero exactly when the rows agree. */
  lemma SumSquaresVanishes(p: seq<real>, y: seq<real>)
    requires |p| == |y|
    ensures SumSquares(p, y) >= 0.0
    ensures SumSquares(p, y) == 0.0 <==> forall i :: 0 <= i < |p| ==> p[i] == y[i]
  {
    SumSquaresPositive(p, y);
  }

  /** nn.MSELoss (mean reduction); None for an empty batch, whose mean is undefined. */
  function Mse(p: seq<real>, y: seq<real>): (loss: Option<real>)
    requires |p| == |y|
    ensures loss.None? <==> p == []
  {
    if p == [] then None else Some(SumSquares(p, y) / |p| as real)
  }

  /** The loss is non-negative, and zero exactly when every prediction equals its target. */
  lemma MseVanishes(p: seq<real>, y: seq<real>)
    requires |p| == |y| && p != []
    ensures Mse(p, y).value >= 0.0
    ensures Mse(p, y).value == 0.0 <==> forall i :: 0 <= i < |p| ==> p[i] == y[i]
  {
    SumSquaresVanishes(p, y);
    var s := SumSquares(p, y);
    var n := |p| as real;
    assert s / n * n == s;
  }

  /** Terminal rows whose prediction is exactly their reward give zero loss. */
  lemma TerminalRewardsFitExactly(batch: seq<Transition>, forward: Forward, w: Weights, discount: real)
    requires batch != []
    requires forall i :: 0 <= i < |batch| ==> batch[i].t == 1.0 && Dot(forward(w, batch[i].s), batch[i].a) == batch[i].r
    ensures Mse(Predictions(batch, forward, w), Targets(batch, forward, w, discount)) == Some(0.0)
  {
    MseVanishes(Predictions(batch, forward, w), Targets(batch, forward, w, discount));
  }

  // ---------------------------------------------------------------
  // The trainer
  // ---------------------------------------------------------------

  class DQN {
    var weights: Weights
    var globalStep: int
    const discount: real

    /**
     * __init__: the initial parameters and step 0, then the checkpoint
     * fallbacks of Load.
     */
    constructor (initial: Weights, discount: real, loadFile: Option<string>, fileExists: bool, loaded: Option<Weights>)
      ensures this.discount == discount
      ensures Checkpoint(weights, globalStep) == Load(initial, loadFile, fileExists, loaded)
    {
      this.discount := discount;
      weights := initial;
      globalStep := 0;
      if loadFile.Some? && fileExists && loaded.Some? {
        weights := loaded.value;
        var step := StepFromPath(loadFile.value);
        if step.Some? {
          globalStep := step.value;
        }
      }
    }

    /**
     * train_step: the loss of the current parameters on the batch, the
     * optimiser's new parameters (`updated`), and one more step, which is
     * returned.
     */
    method TrainStep(batch: seq<Transition>, forward: Forward, updated: Weights) returns (step: int, loss: Option<real>)
      modifies this
      ensures globalStep == old(globalStep) + 1 && step == globalStep
      ensures weights == updated
      ensures loss == Mse(Predictions(batch, forward, old(weights)), Targets(batch, forward, old(weights), discount))
    {
      var yj := Targets(batch, forward, weights, discount);
      var qPred := Predictions(batch, forward, weights);
      loss := Mse(qPred, yj);
      weights := updated;
      globalStep := globalStep + 1;
      step := globalStep;
    }

    /** save_ckpt: the parameters written out, the trainer left as it was. */
    method SaveCkpt(filename: string) returns (saved: Weights)
      ensures saved == weights
    {
      saved := weights;
    }
  }

  /** Training k times from a fresh trainer reaches step k. */
  method TrainFromScratch(initial: Weights, discount: real, batches: seq<seq<Transition>>, forward: Forward,
                          updates: seq<Weights>) returns (step: int)
    requires |updates| == |batches|
    ensures step == |batches|
  {
    var net := new DQN(initial, discount, None, false, None);
    step := 0;
    for i := 0 to |batches|
      invariant net.globalStep == i && step == i
    {
      var loss;
      step, loss := net.TrainStep(batches[i], forward, updates[i]);
    }
  }
}
