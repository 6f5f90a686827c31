/** Bidder health: a moving average that racing handlers load and store separately. */
module Throttle {
  import opened Options
  import opened RealArith

  /** `deltaValue` and `bulkValue` for a configured window. */
  datatype Config = Config(enabled: bool, simulateOnly: bool, window: int)

  function Window(c: Config): (w: int)
    ensures w >= 1
  {
    if c.window <= 0 then 1000 else c.window
  }

  function Delta(c: Config): real {
    1.0 / Window(c) as real
  }

  function Bulk(c: Config): real {
    1.0 - Delta(c)
  }

  /** A window that is not positive stands for a thousand. */
  lemma WindowIs(c: Config)
    ensures c.window > 0 ==> Window(c) == c.window
    ensures c.window <= 0 ==> Window(c) == 1000
  {
  }

  lemma ConfigBounds(c: Config)
    ensures 0.0 < Delta(c) <= 1.0 && 0.0 <= Bulk(c) < 1.0
    ensures Delta(c) * Window(c) as real == 1.0 && Delta(c) == 1.0 - Bulk(c)
  {
  }

  /** The new health computed from a loaded one. */
  function Updated(c: Config, loaded: real, success: bool): real {
    if success then Bulk(c) * loaded else Bulk(c) * loaded + Delta(c)
  }

  // ---- racing checks

  /** A health check that has loaded and not yet stored. */
  datatype Check = Check(loaded: real, success: bool)

  /** `failures` and `successes` count stores. */
  datatype State = State(health: real, checks: map<nat, Check>, failures: nat, successes: nat)

  datatype Action = Load(id: nat, success: bool) | Store(id: nat)

  function Next(c: Config, s: State, a: Action): State {
    match a
    case Load(id, success) =>
      if !c.enabled || id in s.checks then s else s.(checks := s.checks[id := Check(s.health, success)])
    case Store(id) =>
      if id !in s.checks then s
      else
        var k := s.checks[id];
        s.(health := Updated(c, k.loaded, k.success), checks := s.checks - {id},
           failures := s.failures + (if k.success then 0 else 1),
           successes := s.successes + (if k.success then 1 else 0))
  }

  function Init(health: real): State {
    State(health, map[], 0, 0)
  }

  function Run(c: Config, h0: real, actions: seq<Action>): State {
    if actions == [] then Init(h0) else Next(c, Run(c, h0, actions[..|actions| - 1]), actions[|actions| - 1])
  }

  function Pow(b: real, n: nat): real {
    if n == 0 then 1.0 else b * Pow(b, n - 1)
  }

  lemma Shrink(b: real, p: real)
    requires 0.0 <= b <= 1.0 && 0.0 <= p
    ensures 0.0 <= b * p <= p
  {
    assert (1.0 - b) * p >= 0.0;
  }

  lemma {:induction false} PowBounds(b: real, n: nat)
    requires 0.0 <= b <= 1.0
    ensures 0.0 <= Pow(b, n) <= 1.0
  {
    if n > 0 {
      PowBounds(b, n - 1);
      Shrink(b, Pow(b, n - 1));
    }
  }

  lemma {:induction false} Bernoulli(d: real, n: nat)
    requires 0.0 <= d <= 1.0
    ensures Pow(1.0 - d, n) >= 1.0 - n as real * d
  {
    if n > 0 {
      Bernoulli(d, n - 1);
      BernoulliStep(d, (n - 1) as real, Pow(1.0 - d, n - 1));
      assert (n - 1) as real + 1.0 == n as real;
    }
  }

  lemma BernoulliStep(d: real, m: real, p: real)
    requires 0.0 <= d <= 1.0 && 0.0 <= m && p >= 1.0 - m * d
    ensures (1.0 - d) * p >= 1.0 - (m + 1.0) * d
  {
    MulNonNegative(m, d);
    BernoulliLinear(d, m * d, p);
    assert (m + 1.0) * d == m * d + d;
  }

  lemma BernoulliLinear(d: real, x: real, p: real)
    requires 0.0 <= d <= 1.0 && 0.0 <= x && p >= 1.0 - x
    ensures (1.0 - d) * p >= 1.0 - d - x
  {
    MulNonNegative(d, x);
    MulNonNegative(1.0 - d, p - (1.0 - x));
  }

  /** What `n` checks of one kind in a row, without any race, would lead to. */
  function AllFailures(c: Config, h0: real, n: nat): real {
    1.0 - (1.0 - h0) * Pow(Bulk(c), n)
  }

  function AllSuccesses(c: Config, h0: real, n: nat): real {
    h0 * Pow(Bulk(c), n)
  }

  ghost predicate Within(c: Config, h0: real, s: State, h: real) {
    AllSuccesses(c, h0, s.successes) <= h <= AllFailures(c, h0, s.failures)
  }

  ghost predicate Inv(c: Config, h0: real, s: State) {
    Within(c, h0, s, s.health) && forall id :: id in s.checks ==> Within(c, h0, s, s.checks[id].loaded)
  }

  lemma EnvelopeBounds(c: Config, h0: real, n: nat)
    requires 0.0 <= h0 <= 1.0
    ensures 0.0 <= AllSuccesses(c, h0, n) && AllFailures(c, h0, n) <= 1.0
    ensures AllSuccesses(c, h0, n + 1) == Bulk(c) * AllSuccesses(c, h0, n) <= AllSuccesses(c, h0, n)
    ensures AllFailures(c, h0, n + 1) == Bulk(c) * AllFailures(c, h0, n) + Delta(c) >= AllFailures(c, h0, n)
  {
    ConfigBounds(c);
    PowBounds(Bulk(c), n);
    var b, p := Bulk(c), Pow(Bulk(c), n);
    assert Pow(b, n + 1) == b * p;
    assert 0.0 <= b * p <= p;
    assert h0 * (b * p) == b * (h0 * p);
    assert (1.0 - h0) * (b * p) == b * ((1.0 - h0) * p);
    assert (1.0 - h0) * (b * p) <= (1.0 - h0) * p;
    assert h0 * (b * p) <= h0 * p;
  }

  /** Averaging with 0: the result keeps its order, goes down, and by no more than the weight of 0. */
  lemma BlendDown(b: real, lo: real, x: real, bLo: real, bX: real)
    requires 0.0 <= b <= 1.0 && 0.0 <= lo <= x && bLo == b * lo && bX == b * x
    ensures bLo <= bX <= x && (x <= 1.0 ==> x - (1.0 - b) <= bX)
  {
    MulNonNegative(b, x - lo);
    assert b * (x - lo) == bX - bLo;
    MulNonNegative(1.0 - b, x);
    assert (1.0 - b) * x == x - bX;
    if x <= 1.0 {
      MulNonNegative(1.0 - b, 1.0 - x);
      assert (1.0 - b) * (1.0 - x) == (1.0 - b) - (x - bX);
    }
  }

  /** Averaging with 1: the same seen from above. */
  lemma BlendUp(b: real, x: real, hi: real, bX: real, bHi: real)
    requires 0.0 <= b <= 1.0 && x <= hi <= 1.0 && bX == b * x + (1.0 - b) && bHi == b * hi + (1.0 - b)
    ensures x <= bX <= bHi && (0.0 <= x ==> bX <= x + (1.0 - b))
  {
    assert b * (1.0 - x) == 1.0 - bX && b * (1.0 - hi) == 1.0 - bHi;
    BlendDown(b, 1.0 - hi, 1.0 - x, 1.0 - bHi, 1.0 - bX);
  }

  lemma SuccessWithin(c: Config, h0: real, n: nat, x: real, hi: real)
    requires 0.0 <= h0 <= 1.0 && AllSuccesses(c, h0, n) <= x <= hi <= 1.0
    ensures AllSuccesses(c, h0, n + 1) <= Updated(c, x, true) <= hi
  {
    hide AllSuccesses, AllFailures, Delta, Bulk;
    ConfigBounds(c);
    EnvelopeBounds(c, h0, n);
    BlendDown(Bulk(c), AllSuccesses(c, h0, n), x, AllSuccesses(c, h0, n + 1), Updated(c, x, true));
  }

  lemma FailureWithin(c: Config, h0: real, n: nat, lo: real, x: real)
    requires 0.0 <= h0 <= 1.0 && 0.0 <= lo <= x <= AllFailures(c, h0, n)
    ensures lo <= Updated(c, x, false) <= AllFailures(c, h0, n + 1)
  {
    hide AllSuccesses, AllFailures, Delta, Bulk;
    ConfigBounds(c);
    EnvelopeBounds(c, h0, n);
    BlendUp(Bulk(c), x, AllFailures(c, h0, n), Updated(c, x, false), AllFailures(c, h0, n + 1));
  }

  /** One store, from a value in the envelope, lands in the envelope with one more store counted. */
  lemma StoreWithin(c: Config, h0: real, s: State, k: Check)
    requires 0.0 <= h0 <= 1.0 && Within(c, h0, s, k.loaded)
    ensures var s' := s.(failures := s.failures + (if k.success then 0 else 1),
                         successes := s.successes + (if k.success then 1 else 0));
            Within(c, h0, s', Updated(c, k.loaded, k.success))
  {
    hide AllFailures, AllSuccesses, Updated;
    EnvelopeBounds(c, h0, s.failures);
    EnvelopeBounds(c, h0, s.successes);
    if k.success {
      SuccessWithin(c, h0, s.successes, k.loaded, AllFailures(c, h0, s.failures));
    } else {
      FailureWithin(c, h0, s.failures, AllSuccesses(c, h0, s.successes), k.loaded);
    }
  }

  lemma WithinGrows(c: Config, h0: real, s: State, s': State, h: real)
    requires 0.0 <= h0 <= 1.0 && Within(c, h0, s, h)
    requires s.failures <= s'.failures <= s.failures + 1 && s.successes <= s'.successes <= s.successes + 1
    ensures Within(c, h0, s', h)
  {
    hide AllFailures, AllSuccesses;
    EnvelopeBounds(c, h0, s.failures);
    EnvelopeBounds(c, h0, s.successes);
  }

  lemma NextInv(c: Config, h0: real, s: State, a: Action)
    requires 0.0 <= h0 <= 1.0 && Inv(c, h0, s)
    ensures Inv(c, h0, Next(c, s, a))
  {
    hide Within, Updated;
    var s' := Next(c, s, a);
    if a.Store? && a.id in s.checks {
      StoreWithin(c, h0, s, s.checks[a.id]);
      SameCounts(c, h0, s.(failures := s'.failures, successes := s'.successes), s', s'.health);
      forall id | id in s'.checks
        ensures Within(c, h0, s', s'.checks[id].loaded)
      {
        WithinGrows(c, h0, s, s', s.checks[id].loaded);
      }
    } else {
      forall id | id in s'.checks
        ensures Within(c, h0, s', s'.checks[id].loaded)
      {
        SameCounts(c, h0, s, s', s'.checks[id].loaded);
      }
      SameCounts(c, h0, s, s', s.health);
    }
  }

  lemma SameCounts(c: Config, h0: real, s: State, s': State, h: real)
    requires Within(c, h0, s, h) && s'.failures == s.failures && s'.successes == s.successes
    ensures Within(c, h0, s', h)
  {
  }

  /**
   * However loads and stores interleave, the health stays between what its successful checks alone
   * and what its failed checks alone would have made of the starting value.
   */
  lemma {:induction false} RunWithin(c: Config, h0: real, actions: seq<Action>)
    requires 0.0 <= h0 <= 1.0
    ensures Inv(c, h0, Run(c, h0, actions))
  {
    if actions == [] {
      assert 1.0 - (1.0 - h0) * 1.0 == h0;
    } else {
      RunWithin(c, h0, actions[..|actions| - 1]);
      NextInv(c, h0, Run(c, h0, actions[..|actions| - 1]), actions[|actions| - 1]);
    }
  }

  /** With throttling off nothing is recorded. */
  lemma {:induction false} DisabledIsStill(c: Config, h0: real, actions: seq<Action>)
    requires !c.enabled
    ensures Run(c, h0, actions) == Init(h0)
  {
    if actions != [] {
      DisabledIsStill(c, h0, actions[..|actions| - 1]);
    }
  }

  /** A bidder that starts healthy: health is a probability, and at most 1 - (1 - 1/w)^f. */
  lemma HealthBounded(c: Config, actions: seq<Action>)
    ensures var s := Run(c, 0.0, actions);
            && 0.0 <= s.health <= 1.0 - Pow(Bulk(c), s.failures) <= 1.0
            && s.health <= s.failures as real * Delta(c)
  {
    hide AllFailures, AllSuccesses, Run, Delta;
    var s := Run(c, 0.0, actions);
    RunWithin(c, 0.0, actions);
    ConfigBounds(c);
    PowBounds(Bulk(c), s.failures);
    Bernoulli(Delta(c), s.failures);
    EnvelopeFromZero(c, s.failures);
    EnvelopeFromZero(c, s.successes);
  }

  lemma EnvelopeFromZero(c: Config, n: nat)
    ensures AllSuccesses(c, 0.0, n) == 0.0 && AllFailures(c, 0.0, n) == 1.0 - Pow(Bulk(c), n)
  {
  }

  // ---- the decision

  /** `shouldRequest` with the random draw as an argument. */
  predicate ShouldRequest(c: Config, health: real, draw: real) {
    if !c.enabled || health < 0.2 then true
    else if draw < RejectionProbability(health) then c.simulateOnly
    else true
  }

  function RejectionProbability(health: real): real {
    ((health - 0.2) / 0.8) * 0.9
  }

  /** Fewer than a fifth of a window of failures cannot throttle anything, in any interleaving. */
  lemma NoEarlyThrottle(c: Config, actions: seq<Action>, draw: real)
    requires 5 * Run(c, 0.0, actions).failures < Window(c)
    ensures ShouldRequest(c, Run(c, 0.0, actions).health, draw)
  {
    hide Delta, Window, Run;
    var f, w, d := Run(c, 0.0, actions).failures as real, Window(c) as real, Delta(c);
    HealthBounded(c, actions);
    ConfigBounds(c);
    MulStrict(d, 5.0 * f, w);
    assert d * (5.0 * f) == 5.0 * (f * d);
  }

  /** In every run the chance of a rejection is at most nine tenths. */
  lemma RejectionCapped(c: Config, actions: seq<Action>)
    ensures RejectionProbability(Run(c, 0.0, actions).health) <= 0.9
  {
    HealthBounded(c, actions);
  }

  /**
   * A request is held back if and only if throttling is on and not simulated, the health is at least
   * 0.2 and the draw falls below the ramp that leads linearly from (0.2, 0) to (1, 0.9).
   */
  lemma HeldBackExactly(c: Config, health: real, draw: real)
    ensures !ShouldRequest(c, health, draw) <==>
            c.enabled && !c.simulateOnly && health >= 0.2 && 8.0 * draw < 9.0 * (health - 0.2)
  {
  }

  /** The ramp: nothing at 0.2, nine tenths at 1, and in between in proportion. */
  lemma RampIsLinear(h: real, k: real)
    ensures RejectionProbability(0.2) == 0.0 && RejectionProbability(1.0) == 0.9
    ensures RejectionProbability(k) - RejectionProbability(h) == 1.125 * (k - h)
    ensures h < k <==> RejectionProbability(h) < RejectionProbability(k)
  {
  }

  // ---- enough failures in a row

  /** One undisturbed failed check after the other. */
  function FailuresInRow(n: nat): seq<Action> {
    if n == 0 then [] else FailuresInRow(n - 1) + [Load(0, false), Store(0)]
  }

  lemma {:induction false} RowHealth(c: Config, n: nat)
    requires c.enabled
    ensures Run(c, 0.0, FailuresInRow(n)) == State(1.0 - Pow(Bulk(c), n), map[], n, 0)
  {
    hide Bulk, Delta;
    if n > 0 {
      RowHealth(c, n - 1);
      var front, s := FailuresInRow(n - 1), Run(c, 0.0, FailuresInRow(n - 1));
      var one := front + [Load(0, false)];
      assert FailuresInRow(n)[..|front| + 1] == one && one[..|front|] == front;
      var s1 := Next(c, s, Load(0, false));
      assert Run(c, 0.0, one) == s1;
      assert s1.checks[0] == Check(s.health, false) && s1.checks - {0} == map[];
      ConfigBounds(c);
      FailedBlend(Bulk(c), Delta(c), Pow(Bulk(c), n - 1));
    }
  }

  lemma FailedBlend(b: real, d: real, p: real)
    requires d == 1.0 - b
    ensures b * (1.0 - p) + d == 1.0 - b * p
  {
  }

  lemma {:induction false} PowFalls(d: real, n: nat)
    requires 0.0 <= d <= 1.0
    ensures 0.0 <= Pow(1.0 - d, n) && Pow(1.0 - d, n) * (1.0 + n as real * d) <= 1.0
  {
    if n > 0 {
      PowFalls(d, n - 1);
      PowBounds(1.0 - d, n - 1);
      PowBounds(1.0 - d, n);
      var p, x := Pow(1.0 - d, n - 1), (n - 1) as real * d;
      MulNonNegative((n - 1) as real, d);
      FallsStep(d, x, p);
      assert n as real * d == x + d;
    }
  }

  lemma FallsStep(d: real, x: real, p: real)
    requires 0.0 <= d <= 1.0 && 0.0 <= x && 0.0 <= p && p * (1.0 + x) <= 1.0
    ensures ((1.0 - d) * p) * (1.0 + (x + d)) <= 1.0
  {
    MulNonNegative(d, x);
    MulNonNegative(d, d);
    var less := d * x + d * d;
    assert (1.0 - d) * (1.0 + (x + d)) == (1.0 + x) - less;
    MulNonNegative(p, less);
    FallsProduct(1.0 - d, p, 1.0 + (x + d), (1.0 + x) - less);
    assert p * ((1.0 + x) - less) == p * (1.0 + x) - p * less;
  }

  lemma FallsProduct(b: real, p: real, y: real, z: real)
    requires b * y == z
    ensures (b * p) * y == p * z
  {
  }

  /** A window of failures in a row makes an enforcing throttle reject every draw below a third. */
  lemma FailuresThrottle(c: Config, draw: real)
    requires c.enabled && !c.simulateOnly && draw < 0.3375
    ensures Run(c, 0.0, FailuresInRow(Window(c))).health >= 0.5
    ensures !ShouldRequest(c, Run(c, 0.0, FailuresInRow(Window(c))).health, draw)
  {
    hide Run, FailuresInRow, Bulk, Delta, Window;
    var w := Window(c);
    RowHealth(c, w);
    ConfigBounds(c);
    PowFalls(Delta(c), w);
    HalfLeft(Pow(Bulk(c), w), w as real * Delta(c));
    assert 1.0 - Delta(c) == Bulk(c);
  }

  lemma HalfLeft(p: real, x: real)
    requires 0.0 <= p && x == 1.0 && p * (1.0 + x) <= 1.0
    ensures p <= 0.5
  {
  }

  // ---- what a race can do to a single step

  /** A check that nothing overtook moves the health by at most delta, in the direction it reports. */
  lemma UndisturbedStep(c: Config, s: State, id: nat)
    requires id in s.checks && s.checks[id].loaded == s.health && 0.0 <= s.health <= 1.0
    ensures var h := Next(c, s, Store(id)).health;
            if s.checks[id].success then s.health - Delta(c) <= h <= s.health
            else s.health <= h <= s.health + Delta(c)
  {
    hide Delta, Bulk;
    ConfigBounds(c);
    var h := Next(c, s, Store(id)).health;
    if s.checks[id].success {
      BlendDown(Bulk(c), s.health, s.health, h, h);
    } else {
      BlendUp(Bulk(c), s.health, s.health, h, h);
    }
  }

  /**
   * An overtaken check can go against the direction it reports. In every run, storing a success
   * raises the health if and only if it had dropped below the decayed loaded value meanwhile, and
   * storing a failure lowers it if and only if it had climbed above the raised loaded value; in both
   * cases the health that was loaded is no longer the one that is replaced.
   */
  lemma WrongWayExactly(c: Config, actions: seq<Action>, id: nat)
    requires id in Run(c, 0.0, actions).checks
    ensures var s := Run(c, 0.0, actions);
            var k, h := s.checks[id], Next(c, s, Store(id)).health;
            && (k.success ==> (h > s.health <==> s.health < Bulk(c) * k.loaded))
            && (k.success && h > s.health ==> s.health < k.loaded)
            && (!k.success ==> (h < s.health <==> s.health > Bulk(c) * k.loaded + Delta(c)))
            && (!k.success && h < s.health ==> s.health > k.loaded)
  {
    hide Bulk, Delta, Run;
    var s := Run(c, 0.0, actions);
    ConfigBounds(c);
    HealthLoaded(c, actions, id);
    var x, y := s.checks[id].loaded, Bulk(c) * s.checks[id].loaded;
    BlendDown(Bulk(c), x, x, y, y);
    BlendUp(Bulk(c), x, x, y + Delta(c), y + Delta(c));
  }

  lemma HealthLoaded(c: Config, actions: seq<Action>, id: nat)
    requires id in Run(c, 0.0, actions).checks
    ensures 0.0 <= Run(c, 0.0, actions).checks[id].loaded <= 1.0
  {
    hide Run, Bulk;
    var s := Run(c, 0.0, actions);
    RunWithin(c, 0.0, actions);
    ConfigBounds(c);
    EnvelopeFromZero(c, s.failures);
    EnvelopeFromZero(c, s.successes);
    PowBounds(Bulk(c), s.failures);
  }

  /** The last check that `actions` store from state `s` on, if they store any. */
  function LastStored(c: Config, s: State, actions: seq<Action>): Option<Check> {
    if actions == [] then None
    else
      var front, a := actions[..|actions| - 1], actions[|actions| - 1];
      var s' := RunFrom(c, s, front);
      if a.Store? && a.id in s'.checks then Some(s'.checks[a.id]) else LastStored(c, s, front)
  }

  function RunFrom(c: Config, s: State, actions: seq<Action>): State {
    if actions == [] then s else Next(c, RunFrom(c, s, actions[..|actions| - 1]), actions[|actions| - 1])
  }

  lemma {:induction false} HealthIsLastStored(c: Config, s: State, actions: seq<Action>)
    ensures var k := LastStored(c, s, actions);
            RunFrom(c, s, actions).health == if k.None? then s.health else Updated(c, k.value.loaded, k.value.success)
  {
    hide Updated;
    if actions != [] {
      HealthIsLastStored(c, s, actions[..|actions| - 1]);
    }
  }

  /** 1/(w - 1): what one failure adds to the health, before the decay. */
  function Step(c: Config): real
    requires Window(c) > 1
  {
    1.0 / (Window(c) - 1) as real
  }

  /**
   * Which stores make a check go the wrong way: of those between its load and its store only the last
   * counts. A success then raises the health if and only if that one was a success that had loaded
   * less, or a failure that had loaded less by more than 1/(w - 1); the mirror image holds for a failure.
   */
  lemma WrongWayBy(c: Config, s: State, id: nat, success: bool, between: seq<Action>)
    requires c.enabled && Window(c) > 1 && id !in s.checks && 0.0 <= s.health <= 1.0
    requires var s' := RunFrom(c, Next(c, s, Load(id, success)), between);
             id in s'.checks && s'.checks[id] == Check(s.health, success)
    ensures var s' := RunFrom(c, Next(c, s, Load(id, success)), between);
            var h, last := Next(c, s', Store(id)).health, LastStored(c, Next(c, s, Load(id, success)), between);
            && (success ==>
                  (h > s'.health <==> (last.Some? && last.value.loaded < s.health - if last.value.success then 0.0 else Step(c))))
            && (!success ==>
                  (h < s'.health <==> (last.Some? && last.value.loaded > s.health + if last.value.success then Step(c) else 0.0)))
  {
    hide RunFrom, LastStored, Updated, Step, Window;
    var s1 := Next(c, s, Load(id, success));
    var last := LastStored(c, s1, between);
    HealthIsLastStored(c, s1, between);
    if last.Some? {
      OvertakenBy(c, s.health, last.value.loaded, success, last.value.success);
    } else {
      OwnDirection(c, s.health, success);
    }
  }

  lemma OwnDirection(c: Config, x: real, success: bool)
    requires 0.0 <= x <= 1.0
    ensures success ==> Updated(c, x, success) <= x
    ensures !success ==> x <= Updated(c, x, success)
  {
    hide Delta, Bulk;
    ConfigBounds(c);
    if success {
      BlendDown(Bulk(c), x, x, Bulk(c) * x, Bulk(c) * x);
    } else {
      BlendUp(Bulk(c), x, x, Bulk(c) * x + Delta(c), Bulk(c) * x + Delta(c));
    }
  }

  /** The values that two checks store, compared by what they loaded. */
  lemma OvertakenBy(c: Config, x: real, y: real, success: bool, other: bool)
    requires Window(c) > 1
    ensures success ==> (Updated(c, x, success) > Updated(c, y, other) <==> y < x - if other then 0.0 else Step(c))
    ensures !success ==> (Updated(c, x, success) < Updated(c, y, other) <==> y > x + if other then Step(c) else 0.0)
  {
    hide Delta, Bulk, Step, Window;
    BulkPositive(c);
    var b, e, d := Bulk(c), Step(c), Delta(c);
    Spread(b, x, e, d);
    Spread(b, y, e, d);
    var p, q := b * x, b * y;
    ScaledLess(b, x, y, p, q);
    ScaledLess(b, y, x, q, p);
    ScaledLess(b, y + e, x, q + d, p);
    ScaledLess(b, x + e, y, p + d, q);
    assert Updated(c, x, success) == p + if success then 0.0 else d;
    assert Updated(c, y, other) == q + if other then 0.0 else d;
  }

  lemma Spread(b: real, x: real, e: real, d: real)
    requires b * e == d
    ensures b * (x + e) == b * x + d
  {
  }

  lemma BulkPositive(c: Config)
    requires Window(c) > 1
    ensures Bulk(c) > 0.0 && Bulk(c) * Step(c) == Delta(c)
  {
    hide Window;
    var w := Window(c) as real;
    var d, e := 1.0 / w, 1.0 / (w - 1.0);
    assert d * w == 1.0 && e * (w - 1.0) == 1.0;
    assert (1.0 - d) * w == w - 1.0;
    RatioOfWindows(w, d, e);
  }

  lemma RatioOfWindows(w: real, d: real, e: real)
    requires w > 1.0 && d * w == 1.0 && e * (w - 1.0) == 1.0
    ensures 0.0 < 1.0 - d && (1.0 - d) * e == d
  {
    var b := 1.0 - d;
    assert b * w == w - 1.0;
    assert (b * e) * w == e * (b * w) == 1.0;
    assert w * (b * e - d) == 0.0;
  }

  lemma ScaledLess(b: real, x: real, y: real, p: real, q: real)
    requires b > 0.0 && p == b * x && q == b * y
    ensures p < q <==> x < y
  {
    var d := y - x;
    assert q - p == b * d;
    if d > 0.0 {
      assert b * d > 0.0;
    } else {
      MulNonNegative(b, -d);
      assert b * -d == -(b * d);
    }
  }

  /** It happens: after one failure, three successes overtake a fourth, which then raises 1/16 to 1/4. */
  lemma StaleSuccessRaisesHealth(c: Config) returns (actions: seq<Action>)
    requires c == Config(true, false, 2)
    ensures var s := Run(c, 0.0, actions);
            s.health == 0.0625 && 0 in s.checks && s.checks[0].success && Next(c, s, Store(0)).health == 0.25
  {
    hide Run, Bulk, Delta;
    HalfWindow(c);
    actions := [];
    var s := Init(0.0);
    RunNothing(c, 0.0);
    s, actions := Then(c, s, actions, Load(0, false));
    s, actions := Then(c, s, actions, Store(0));
    assert s.checks == map[];
    s, actions := Then(c, s, actions, Load(0, true));
    s, actions := HalveOnce(c, s, actions);
    s, actions := HalveOnce(c, s, actions);
    s, actions := HalveOnce(c, s, actions);
  }

  lemma HalfWindow(c: Config)
    requires c.window == 2
    ensures Bulk(c) == 0.5 && Delta(c) == 0.5
  {
  }

  lemma RunNothing(c: Config, h0: real)
    ensures Run(c, h0, []) == Init(h0)
  {
  }

  lemma Then(c: Config, s: State, actions: seq<Action>, a: Action) returns (s': State, actions': seq<Action>)
    requires s == Run(c, 0.0, actions)
    ensures s' == Next(c, s, a) == Run(c, 0.0, actions') && actions' == actions + [a]
  {
    s', actions' := Next(c, s, a), actions + [a];
    assert actions'[..|actions|] == actions;
  }

  /** A second handler loads and stores a success while the first one is held up. */
  lemma HalveOnce(c: Config, s: State, actions: seq<Action>) returns (s': State, actions': seq<Action>)
    requires s == Run(c, 0.0, actions) && c.enabled && Bulk(c) == 0.5 && s.checks == map[0 := Check(0.5, true)]
    ensures s' == Run(c, 0.0, actions') && s'.health == 0.5 * s.health && s'.checks == s.checks
  {
    hide Run, Bulk;
    s', actions' := Then(c, s, actions, Load(1, true));
    s', actions' := Then(c, s', actions', Store(1));
    assert s'.checks == s.checks;
  }

  // ---- the shared cell

  class BidderAdapter {
    const config: Config
    var health: real

    constructor (config: Config)
      ensures this.config == config && health == 0.0
    {
      this.config := config;
      health := 0.0;
    }

    /** Left alone, one check is a load followed by its store. */
    method LogHealthCheck(success: bool)
      modifies this
      ensures health == Next(config, Next(config, Init(old(health)), Load(0, success)), Store(0)).health
    {
      if !config.enabled {
        return;
      }
      var loaded := health;
      var newVal;
      if success {
        newVal := Bulk(config) * loaded;
      } else {
        newVal := Bulk(config) * loaded + Delta(config);
      }
      health := newVal;
    }
  }
}
