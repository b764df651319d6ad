/** The two cost models of a raw-syscall storm, the single-stream one and the N-thread one built on it,
    and the alarm-window scan over the latter. Costs are exact reals. */
module StormModel {
  import opened PyText

  datatype Strategy = CurrentRetTrace | SvcRewrite | UserNotif | SeccompOff

  datatype Params = Params(
    seccompDispatchNs: real, rawSvcBaseNs: real, ptraceRoundtripNs: real, svcHookNs: real, userNotifRoundtripNs: real)

  predicate NonNegative(p: Params) {
    p.seccompDispatchNs >= 0.0 && p.rawSvcBaseNs >= 0.0 && p.ptraceRoundtripNs >= 0.0 &&
    p.svcHookNs >= 0.0 && p.userNotifRoundtripNs >= 0.0
  }

  datatype Result<+T> = Ok(value: T) | ValueError

  function Or(o: Option<int>, default: int): int {
    match o case None => default case Some(v) => v
  }

  // --- the single-stream model -------------------------------------------------------------

  predicate CountsAreValid(n: int, trapCount: int, absorbed: int, pathTrap: int, enforceTrapLeN: bool) {
    && n >= 0
    && trapCount >= 0
    && (enforceTrapLeN ==> trapCount <= n)
    && absorbed >= 0 && pathTrap >= 0
    && absorbed + pathTrap <= n
  }

  function EstimateStormNs(strategy: Strategy, n: int, trapCount: int, p: Params,
                           absorbed: Option<int>, pathTrap: Option<int>): Result<real> {
    if strategy == UserNotif then
      var pt, ab := Or(pathTrap, trapCount), Or(absorbed, 0);
      if !CountsAreValid(n, trapCount, ab, pt, true) then ValueError
      else Ok(n as real * p.seccompDispatchNs + ab as real * p.userNotifRoundtripNs + pt as real * p.ptraceRoundtripNs)
    else if !CountsAreValid(n, trapCount, 0, 0, strategy == CurrentRetTrace) then ValueError
    else
      match strategy
      case CurrentRetTrace => Ok(n as real * p.seccompDispatchNs + trapCount as real * p.ptraceRoundtripNs)
      case SvcRewrite => Ok(n as real * (p.seccompDispatchNs + p.svcHookNs))
      case _ => Ok(n as real * p.rawSvcBaseNs)
  }

  predicate IsUsable(seconds: real, thresholdS: real) {
    seconds < thresholdS
  }

  // --- the N-thread model ------------------------------------------------------------------

  datatype MtStorm = MtStorm(
    totalSyscalls: int, trapCount: int, floorNs: real, roundtripNs: real, bringupNs: real, totalNs: real)

  predicate InputsAreValid(threads: int, syscalls: int, pathRatio: real, bringup: real, absorbRatio: real) {
    threads >= 0 && syscalls >= 0 && 0.0 <= pathRatio <= 1.0 && 0.0 <= absorbRatio <= 1.0 && bringup >= 0.0
  }

  /** Python's `int(n * share)` on non-negative operands. */
  function Share(n: int, share: real): (k: int)
    requires n >= 0 && 0.0 <= share <= 1.0
    ensures 0 <= k <= n
  {
    var x := n as real * share;
    assert 0.0 <= x <= n as real;
    x.Floor
  }

  function Max(a: real, b: real): real {
    if b > a then b else a
  }

  /** The ptrace and notif round-trips of all threads; absorbed calls count under user_notif alone. */
  function RoundtripNs(strategy: Strategy, threads: int, pathPerThread: int, notifPerThread: int, p: Params): real {
    match strategy
    case SvcRewrite => 0.0
    case SeccompOff => 0.0
    case UserNotif =>
      (threads * pathPerThread) as real * p.ptraceRoundtripNs +
        (threads * notifPerThread) as real * p.userNotifRoundtripNs
    case CurrentRetTrace => (threads * pathPerThread) as real * p.ptraceRoundtripNs
  }

  /** The strategy whose single-stream price is one thread's floor. */
  function FloorStrategy(strategy: Strategy): Strategy {
    if strategy == SeccompOff || strategy == SvcRewrite then strategy else CurrentRetTrace
  }

  function Estimate(strategy: Strategy, threads: int, syscalls: int, pathRatio: real, p: Params,
                    bringup: real, absorbRatio: real): (r: Result<MtStorm>)
    ensures r.Ok? <==> InputsAreValid(threads, syscalls, pathRatio, bringup, absorbRatio)
  {
    if !InputsAreValid(threads, syscalls, pathRatio, bringup, absorbRatio) then ValueError
    else
      var pathPerThread := Share(syscalls, pathRatio);
      var trapCount := threads * pathPerThread;
      match EstimateStormNs(FloorStrategy(strategy), syscalls, 0, p, None, None)
      case ValueError => ValueError
      case Ok(floorNs) =>
        var notifPerThread := Share(syscalls - pathPerThread, absorbRatio);
        var roundtripNs := RoundtripNs(strategy, threads, pathPerThread, notifPerThread, p);
        var bringupNs := threads as real * bringup;
        Ok(MtStorm(threads * syscalls, trapCount, floorNs, roundtripNs, bringupNs,
                   Max(floorNs, roundtripNs + bringupNs)))
  }

  const NS_PER_S := 1000000000.0

  function EstimateSeconds(strategy: Strategy, threads: int, syscalls: int, pathRatio: real, p: Params,
                           bringup: real, absorbRatio: real): Result<real> {
    match Estimate(strategy, threads, syscalls, pathRatio, p, bringup, absorbRatio)
    case ValueError => ValueError
    case Ok(storm) => Ok(storm.totalNs / NS_PER_S)
  }

  /** The parallel lane, which no thread count changes. */
  function FloorNs(strategy: Strategy, syscalls: int, p: Params): real {
    match strategy
    case SeccompOff => syscalls as real * p.rawSvcBaseNs
    case SvcRewrite => syscalls as real * (p.seccompDispatchNs + p.svcHookNs)
    case _ => syscalls as real * p.seccompDispatchNs
  }

  /** What one more thread adds to the serial lane. */
  function UnitNs(strategy: Strategy, syscalls: int, pathRatio: real, p: Params, bringup: real, absorbRatio: real): real
    requires syscalls >= 0 && 0.0 <= pathRatio <= 1.0 && 0.0 <= absorbRatio <= 1.0
  {
    var path := Share(syscalls, pathRatio);
    bringup + RoundtripNs(strategy, 1, path, Share(syscalls - path, absorbRatio), p)
  }

  /** The lane that the supervisor drains for all threads. */
  function SerialNs(unit: real, threads: int): real {
    threads as real * unit
  }

  /** The slower of a constant lane and a lane linear in the thread count. */
  function LanesNs(floor: real, unit: real, threads: int): real {
    Max(floor, SerialNs(unit, threads))
  }

  /** The serial lane is linear in the thread count. */
  lemma {:induction false} SerialLane(strategy: Strategy, threads: int, path: int, notif: int, p: Params, bringup: real)
    ensures RoundtripNs(strategy, threads, path, notif, p) + threads as real * bringup ==
      threads as real * (bringup + RoundtripNs(strategy, 1, path, notif, p))
  {
    var n, a, b := threads as real, path as real * p.ptraceRoundtripNs, notif as real * p.userNotifRoundtripNs;
    MulAssoc(threads, path, p.ptraceRoundtripNs);
    MulAssoc(threads, notif, p.userNotifRoundtripNs);
    Distribute(n, a, b);
    Distribute(n, bringup, RoundtripNs(strategy, 1, path, notif, p));
  }

  lemma {:induction false} MulAssoc(n: int, k: int, x: real)
    ensures (n * k) as real * x == n as real * (k as real * x)
  {
    assert (n * k) as real == n as real * k as real;
  }

  lemma {:induction false} Distribute(n: real, a: real, b: real)
    ensures n * (a + b) == n * a + n * b
  {
  }

  lemma {:induction false} FloorIsPriced(strategy: Strategy, syscalls: int, p: Params)
    requires syscalls >= 0
    ensures EstimateStormNs(FloorStrategy(strategy), syscalls, 0, p, None, None) == Ok(FloorNs(strategy, syscalls, p))
  {
    assert 0 as real == 0.0;
  }

  /** The wall clock is the slower of the two lanes, for every strategy. */
  lemma {:induction false} TwoLanes(strategy: Strategy, threads: int, syscalls: int, pathRatio: real, p: Params,
                                    bringup: real, absorbRatio: real)
    requires InputsAreValid(threads, syscalls, pathRatio, bringup, absorbRatio)
    ensures Estimate(strategy, threads, syscalls, pathRatio, p, bringup, absorbRatio).value.totalNs ==
      LanesNs(FloorNs(strategy, syscalls, p),
              UnitNs(strategy, syscalls, pathRatio, p, bringup, absorbRatio), threads)
  {
    var path := Share(syscalls, pathRatio);
    FloorIsPriced(strategy, syscalls, p);
    SerialLane(strategy, threads, path, Share(syscalls - path, absorbRatio), p, bringup);
  }

  lemma {:induction false} Times(a: real, b: real)
    requires a >= 0.0 && b >= 0.0
    ensures a * b >= 0.0
  {
  }

  lemma {:induction false} LanesMonotone(floor: real, unit: real, m: int, n: int)
    requires m <= n && unit >= 0.0
    ensures LanesNs(floor, unit, m) <= LanesNs(floor, unit, n)
  {
    Times((n - m) as real, unit);
    Distribute(unit, m as real, (n - m) as real);
  }

  lemma {:induction false} RoundtripIsNonNegative(strategy: Strategy, path: int, notif: int, p: Params)
    requires path >= 0 && notif >= 0 && NonNegative(p)
    ensures RoundtripNs(strategy, 1, path, notif, p) >= 0.0
  {
    Times(path as real, p.ptraceRoundtripNs);
    Times(notif as real, p.userNotifRoundtripNs);
  }

  lemma {:induction false} UnitIsNonNegative(
      strategy: Strategy, syscalls: int, pathRatio: real, p: Params, bringup: real, absorbRatio: real)
    requires InputsAreValid(0, syscalls, pathRatio, bringup, absorbRatio) && NonNegative(p)
    ensures UnitNs(strategy, syscalls, pathRatio, p, bringup, absorbRatio) >= 0.0
  {
    var path := Share(syscalls, pathRatio);
    RoundtripIsNonNegative(strategy, path, Share(syscalls - path, absorbRatio), p);
  }

  /** More threads never make the lane shorter. */
  ghost predicate SerialIsMonotone(unit: real) {
    forall m, n :: 0 <= m <= n ==> SerialNs(unit, m) <= SerialNs(unit, n)
  }

  ghost predicate LanesAreMonotone(floor: real, unit: real) {
    forall m, n :: 0 <= m <= n ==> LanesNs(floor, unit, m) <= LanesNs(floor, unit, n)
  }

  lemma {:induction false} SerialIsMonotoneIff(unit: real)
    ensures SerialIsMonotone(unit) <==> unit >= 0.0
  {
    assert SerialNs(unit, 0) == 0.0 && SerialNs(unit, 1) == unit;
    if unit >= 0.0 {
      forall m, n | 0 <= m <= n ensures SerialNs(unit, m) <= SerialNs(unit, n) {
        Times((n - m) as real, unit);
        Distribute(unit, m as real, (n - m) as real);
      }
    }
  }

  lemma {:induction false} NegativeLane(unit: real, n: int)
    requires unit < 0.0 && n >= 0
    ensures SerialNs(unit, n) <= 0.0
  {
    Times(n as real, -unit);
  }

  lemma {:induction false} LanesAreMonotoneIff(floor: real, unit: real)
    ensures LanesAreMonotone(floor, unit) <==> floor >= 0.0 || unit >= 0.0
  {
    assert SerialNs(unit, 0) == 0.0 && SerialNs(unit, 1) == unit;
    if unit >= 0.0 {
      forall m, n | 0 <= m <= n ensures LanesNs(floor, unit, m) <= LanesNs(floor, unit, n) {
        LanesMonotone(floor, unit, m, n);
      }
    } else if floor >= 0.0 {
      forall m, n | 0 <= m <= n ensures LanesNs(floor, unit, m) <= LanesNs(floor, unit, n) {
        NegativeLane(unit, m);
        NegativeLane(unit, n);
      }
    } else {
      assert LanesNs(floor, unit, 0) > LanesNs(floor, unit, 1);
    }
  }

  /** More threads never finish sooner. */
  ghost predicate TotalIsMonotone(
      strategy: Strategy, syscalls: int, pathRatio: real, p: Params, bringup: real, absorbRatio: real)
    requires InputsAreValid(0, syscalls, pathRatio, bringup, absorbRatio)
  {
    forall m, n :: 0 <= m <= n ==>
      TotalNs(strategy, m, syscalls, pathRatio, p, bringup, absorbRatio) <=
      TotalNs(strategy, n, syscalls, pathRatio, p, bringup, absorbRatio)
  }

  function TotalNs(strategy: Strategy, threads: int, syscalls: int, pathRatio: real, p: Params,
                   bringup: real, absorbRatio: real): real
    requires InputsAreValid(threads, syscalls, pathRatio, bringup, absorbRatio)
  {
    Estimate(strategy, threads, syscalls, pathRatio, p, bringup, absorbRatio).value.totalNs
  }

  /** The total never falls with the thread count exactly when the floor or the serial cost of one
      thread is not negative. */
  lemma {:induction false} MonotoneInThreadsIff(
      strategy: Strategy, syscalls: int, pathRatio: real, p: Params, bringup: real, absorbRatio: real)
    requires InputsAreValid(0, syscalls, pathRatio, bringup, absorbRatio)
    ensures TotalIsMonotone(strategy, syscalls, pathRatio, p, bringup, absorbRatio) <==>
      FloorNs(strategy, syscalls, p) >= 0.0 || UnitNs(strategy, syscalls, pathRatio, p, bringup, absorbRatio) >= 0.0
  {
    var floor, unit := FloorNs(strategy, syscalls, p), UnitNs(strategy, syscalls, pathRatio, p, bringup, absorbRatio);
    forall n | n >= 0
      ensures TotalNs(strategy, n, syscalls, pathRatio, p, bringup, absorbRatio) == LanesNs(floor, unit, n)
    {
      TwoLanes(strategy, n, syscalls, pathRatio, p, bringup, absorbRatio);
    }
    LanesAreMonotoneIff(floor, unit);
    if LanesAreMonotone(floor, unit) {
      forall m, n | 0 <= m <= n
        ensures TotalNs(strategy, m, syscalls, pathRatio, p, bringup, absorbRatio) <=
                TotalNs(strategy, n, syscalls, pathRatio, p, bringup, absorbRatio)
      {
        assert LanesNs(floor, unit, m) <= LanesNs(floor, unit, n);
      }
    } else {
      var m, n :| 0 <= m <= n && LanesNs(floor, unit, m) > LanesNs(floor, unit, n);
      assert TotalNs(strategy, m, syscalls, pathRatio, p, bringup, absorbRatio) == LanesNs(floor, unit, m);
    }
  }

  /** In particular with costs that are not negative. */
  lemma {:induction false} MonotoneInThreads(
      strategy: Strategy, syscalls: int, pathRatio: real, p: Params, bringup: real, absorbRatio: real)
    requires InputsAreValid(0, syscalls, pathRatio, bringup, absorbRatio) && NonNegative(p)
    ensures TotalIsMonotone(strategy, syscalls, pathRatio, p, bringup, absorbRatio)
  {
    UnitIsNonNegative(strategy, syscalls, pathRatio, p, bringup, absorbRatio);
    MonotoneInThreadsIff(strategy, syscalls, pathRatio, p, bringup, absorbRatio);
  }

  /** With a negative dispatch cost and a negative round-trip, one thread is faster than none. */
  lemma {:induction false} NegativeCostsFall(dispatch: real, roundtrip: real)
    requires dispatch < 0.0 && roundtrip < 0.0
    ensures
      var p := Params(dispatch, 0.0, roundtrip, 0.0, 0.0);
      && TotalNs(CurrentRetTrace, 1, 1, 1.0, p, 0.0, 0.0) < 0.0 == TotalNs(CurrentRetTrace, 0, 1, 1.0, p, 0.0, 0.0)
      && !TotalIsMonotone(CurrentRetTrace, 1, 1.0, p, 0.0, 0.0)
  {
    var p := Params(dispatch, 0.0, roundtrip, 0.0, 0.0);
    assert Share(1, 1.0) == 1;
    TwoLanes(CurrentRetTrace, 0, 1, 1.0, p, 0.0, 0.0);
    TwoLanes(CurrentRetTrace, 1, 1, 1.0, p, 0.0, 0.0);
  }

  /** The traps of one thread that a notif channel absorbs: a share of those that take no path round-trip. */
  function Absorbed(syscalls: int, pathRatio: real, absorbRatio: real): (k: int)
    requires syscalls >= 0 && 0.0 <= pathRatio <= 1.0 && 0.0 <= absorbRatio <= 1.0
    ensures 0 <= k <= syscalls - Share(syscalls, pathRatio)
  {
    Share(syscalls - Share(syscalls, pathRatio), absorbRatio)
  }

  /** An estimate exists exactly for valid inputs. Its parts: every syscall of every thread, traps and absorbed
      traps among them, and the slower of the parallel and the serial lane as the total. */
  lemma {:induction false} EstimateParts(strategy: Strategy, threads: int, syscalls: int, pathRatio: real, p: Params,
                                         bringup: real, absorbRatio: real)
    ensures
      var r := Estimate(strategy, threads, syscalls, pathRatio, p, bringup, absorbRatio);
      r.Ok? <==> InputsAreValid(threads, syscalls, pathRatio, bringup, absorbRatio)
    ensures InputsAreValid(threads, syscalls, pathRatio, bringup, absorbRatio) ==>
      var storm := Estimate(strategy, threads, syscalls, pathRatio, p, bringup, absorbRatio).value;
      var absorbed := threads * Absorbed(syscalls, pathRatio, absorbRatio);
      && 0 <= storm.trapCount <= storm.trapCount + absorbed <= storm.totalSyscalls == threads * syscalls
      && storm.floorNs == FloorNs(strategy, syscalls, p)
      && storm.totalNs >= storm.floorNs && storm.totalNs >= storm.roundtripNs + storm.bringupNs
      && (storm.totalNs == storm.floorNs || storm.totalNs == storm.roundtripNs + storm.bringupNs)
  {
    if InputsAreValid(threads, syscalls, pathRatio, bringup, absorbRatio) {
      FloorIsPriced(strategy, syscalls, p);
      Product(threads, Share(syscalls, pathRatio), Absorbed(syscalls, pathRatio, absorbRatio), syscalls);
    }
  }

  /** What round-trips cost: path traps stay on ptrace unless they are rewritten or no filter is set, and
      absorbed ones go by the notif channel. */
  ghost predicate IsPriced(strategy: Strategy, ns: real, traps: int, absorbed: int, p: Params) {
    && (strategy == SvcRewrite || strategy == SeccompOff ==> ns == 0.0)
    && (strategy == CurrentRetTrace ==> ns == traps as real * p.ptraceRoundtripNs)
    && (strategy == UserNotif ==>
          ns == traps as real * p.ptraceRoundtripNs + absorbed as real * p.userNotifRoundtripNs)
  }

  lemma {:induction false} RoundtripIsPriced(strategy: Strategy, threads: int, path: int, notif: int, p: Params)
    ensures IsPriced(strategy, RoundtripNs(strategy, threads, path, notif, p), threads * path, threads * notif, p)
  {
  }

  /** What the serial lane charges: bring-up for each thread, and round-trips as the strategy says. */
  lemma {:induction false} EstimatePrices(strategy: Strategy, threads: int, syscalls: int, pathRatio: real, p: Params,
                                          bringup: real, absorbRatio: real)
    requires InputsAreValid(threads, syscalls, pathRatio, bringup, absorbRatio)
    ensures
      var storm := Estimate(strategy, threads, syscalls, pathRatio, p, bringup, absorbRatio).value;
      && storm.trapCount == threads * Share(syscalls, pathRatio) && storm.bringupNs == threads as real * bringup
      && IsPriced(
        strategy, storm.roundtripNs, storm.trapCount, threads * Absorbed(syscalls, pathRatio, absorbRatio), p)
  {
    FloorIsPriced(strategy, syscalls, p);
    RoundtripIsPriced(strategy, threads, Share(syscalls, pathRatio), Absorbed(syscalls, pathRatio, absorbRatio), p);
  }

  lemma {:induction false} Product(n: int, a: int, b: int, c: int)
    requires n >= 0 && 0 <= a && 0 <= b && a + b <= c
    ensures 0 <= n * a <= n * a + n * b <= n * c
  {
    assert n * c == n * a + n * b + n * (c - a - b);
  }

  // --- the alarm window --------------------------------------------------------------------

  /** One storm shape with the window it has to fit in; the scan leaves absorb_ratio at 0. */
  datatype Storm = Storm(strategy: Strategy, syscalls: int, pathRatio: real, p: Params, bringup: real, windowS: real)
  {
    predicate IsValid() {
      syscalls >= 0 && 0.0 <= pathRatio <= 1.0 && bringup >= 0.0
    }

    function Seconds(threads: int): Result<real> {
      EstimateSeconds(strategy, threads, syscalls, pathRatio, p, bringup, 0.0)
    }

    /** `threads` threads finish strictly inside the window. */
    predicate Fits(threads: int)
      requires IsValid() && threads >= 0
    {
      IsUsable(Seconds(threads).value, windowS)
    }

    function ParallelNs(): real {
      FloorNs(strategy, syscalls, p)
    }

    function SerialUnitNs(): real
      requires IsValid()
    {
      UnitNs(strategy, syscalls, pathRatio, p, bringup, 0.0)
    }

    function WindowNs(): real {
      windowS * NS_PER_S
    }
  }

  lemma {:induction false} FitsMeans(storm: Storm, threads: int)
    requires storm.IsValid() && threads >= 0
    ensures storm.Fits(threads) <==> LanesNs(storm.ParallelNs(), storm.SerialUnitNs(), threads) < storm.WindowNs()
  {
    TwoLanes(storm.strategy, threads, storm.syscalls, storm.pathRatio, storm.p, storm.bringup, 0.0);
    var total := Estimate(storm.strategy, threads, storm.syscalls, storm.pathRatio, storm.p, storm.bringup,
      0.0).value.totalNs;
    assert total / NS_PER_S < storm.windowS <==> total < storm.windowS * NS_PER_S;
  }

  lemma {:induction false} LanesOvershoot(floor: real, unit: real, w: real, m: int, n: int)
    requires w > 0.0 && 0 <= m <= n && LanesNs(floor, unit, m) >= w
    ensures LanesNs(floor, unit, n) >= w
  {
    if floor < w {
      if unit < 0.0 { NegativeLane(unit, m); }
      LanesMonotone(floor, unit, m, n);
    }
  }

  /** Once a thread count overshoots, every larger one does: leaving the scan early loses nothing. This
      does not depend on the signs of the costs. */
  lemma {:induction false} OvershootPersists(storm: Storm, m: int, n: int)
    requires storm.IsValid() && storm.windowS > 0.0 && 1 <= m <= n && !storm.Fits(m)
    ensures !storm.Fits(n)
  {
    FitsMeans(storm, m);
    FitsMeans(storm, n);
    LanesOvershoot(storm.ParallelNs(), storm.SerialUnitNs(), storm.WindowNs(), m, n);
  }

  /** The largest of the thread counts 1..cap that fit, or 0 when none does. */
  ghost predicate IsLargestFitting(storm: Storm, cap: int, r: int)
    requires storm.IsValid()
  {
    && 0 <= r <= cap
    && (r > 0 ==> storm.Fits(r))
    && forall n :: r < n <= cap ==> !storm.Fits(n)
  }

  method AlarmWindowMaxThreadsUsable(storm: Storm, cap: int) returns (r: Result<int>)
    ensures storm.windowS <= 0.0 ==> r == Ok(0)
    ensures storm.windowS > 0.0 ==> (r.ValueError? <==> cap < 0 || (cap > 0 && !storm.IsValid()))
    ensures storm.windowS > 0.0 && storm.IsValid() && r.Ok? ==>
      IsLargestFitting(storm, cap, r.value) &&
      r.value == ClosedForm(storm.ParallelNs(), storm.SerialUnitNs(), storm.WindowNs(), cap)
  {
    if storm.windowS <= 0.0 {
      return Ok(0);
    }
    if cap < 0 {
      return ValueError;
    }
    var lastOk := 0;
    var n := 1;
    while n <= cap
      invariant 1 <= n <= cap + 1 && lastOk == n - 1
      invariant n > 1 ==> storm.IsValid()
      invariant storm.IsValid() && lastOk > 0 ==> storm.Fits(lastOk)
    {
      var s := storm.Seconds(n);
      if s.ValueError? {
        return ValueError;
      }
      if IsUsable(s.value, storm.windowS) {
        lastOk := n;
      } else {
        forall k | n <= k <= cap ensures !storm.Fits(k) {
          OvershootPersists(storm, n, k);
        }
        break;
      }
      n := n + 1;
    }
    if storm.IsValid() {
      ClosedFormIsLargest(storm, cap, lastOk);
    }
    return Ok(lastOk);
  }

  function Ceil(x: real): (c: int)
    ensures c as real - 1.0 < x <= c as real
  {
    -((-x).Floor)
  }

  /** 0 when even one thread's floor misses the window; else as many threads as the serial lane takes. */
  function ClosedForm(floor: real, unit: real, w: real, cap: int): int {
    if floor >= w then 0
    else if unit <= 0.0 then cap
    else
      var most := Ceil(w / unit) - 1;
      if most < cap then most else cap
  }

  lemma {:induction false} LanesUnderWindow(floor: real, unit: real, w: real, cap: int, n: int)
    requires w > 0.0 && 0 <= n <= cap
    ensures 0 <= ClosedForm(floor, unit, w, cap) <= cap
    ensures n > 0 ==> (LanesNs(floor, unit, n) < w <==> n <= ClosedForm(floor, unit, w, cap))
  {
    if unit > 0.0 {
      LessThanQuotient(0.0, unit, w);
      LessThanQuotient(n as real, unit, w);
    } else {
      Times(n as real, -unit);
    }
  }

  lemma {:induction false} LessThanQuotient(n: real, unit: real, w: real)
    requires unit > 0.0
    ensures n * unit < w <==> n < w / unit
  {
    var q := w / unit;
    assert q * unit == w;
    if n < q {
      TimesPositive(q - n, unit);
      assert (q - n) * unit == q * unit - n * unit;
    } else {
      Times(n - q, unit);
      assert (n - q) * unit == n * unit - q * unit;
    }
  }

  lemma {:induction false} TimesPositive(a: real, b: real)
    requires a > 0.0 && b > 0.0
    ensures a * b > 0.0
  {
  }

  lemma {:induction false} ClosedFormIsLargest(storm: Storm, cap: int, r: int)
    requires storm.IsValid() && storm.windowS > 0.0 && cap >= 0 && IsLargestFitting(storm, cap, r)
    ensures r == ClosedForm(storm.ParallelNs(), storm.SerialUnitNs(), storm.WindowNs(), cap)
  {
    var floor, unit, w := storm.ParallelNs(), storm.SerialUnitNs(), storm.WindowNs();
    var best := ClosedForm(floor, unit, w, cap);
    LanesUnderWindow(floor, unit, w, cap, r);
    LanesUnderWindow(floor, unit, w, cap, best);
    FitsMeans(storm, r);
    FitsMeans(storm, best);
  }

  // --- the two models against each other ---------------------------------------------------

  /** With one thread, the truncated trap count passes the single-stream checks, and the two-lane total is
      at least half the single-stream cost, whatever the signs. It is at most that cost and the bring-up
      exactly when neither lane is negative. */
  lemma {:induction false} ModelsAgree(syscalls: int, pathRatio: real, p: Params, bringup: real, absorbRatio: real)
    requires InputsAreValid(1, syscalls, pathRatio, bringup, absorbRatio)
    ensures
      var two := Estimate(CurrentRetTrace, 1, syscalls, pathRatio, p, bringup, absorbRatio).value;
      var one := EstimateStormNs(CurrentRetTrace, syscalls, two.trapCount, p, None, None);
      && one.Ok? && one.value / 2.0 <= two.totalNs
      && (two.totalNs <= one.value + bringup <==> two.floorNs >= 0.0 && two.roundtripNs + bringup >= 0.0)
  {
    var traps := Share(syscalls, pathRatio);
    HalfOfSum(syscalls as real * p.seccompDispatchNs, traps as real * p.ptraceRoundtripNs, bringup);
    assert 0 as real == 0.0 && 1 * traps == traps;
  }

  lemma {:induction false} HalfOfSum(floor: real, trips: real, bringup: real)
    requires bringup >= 0.0
    ensures (floor + trips) / 2.0 <= Max(floor, trips + bringup)
    ensures Max(floor, trips + bringup) <= floor + trips + bringup <==> floor >= 0.0 && trips + bringup >= 0.0
  {
  }

  /** So it is for costs that are not negative. */
  lemma {:induction false} ModelsAgreeForCosts(
      syscalls: int, pathRatio: real, p: Params, bringup: real, absorbRatio: real)
    requires InputsAreValid(1, syscalls, pathRatio, bringup, absorbRatio) && NonNegative(p)
    ensures
      var two := Estimate(CurrentRetTrace, 1, syscalls, pathRatio, p, bringup, absorbRatio).value;
      EstimateStormNs(CurrentRetTrace, syscalls, two.trapCount, p, None, None).value / 2.0 <= two.totalNs <=
        EstimateStormNs(CurrentRetTrace, syscalls, two.trapCount, p, None, None).value + bringup
  {
    ModelsAgree(syscalls, pathRatio, p, bringup, absorbRatio);
    Times(syscalls as real, p.seccompDispatchNs);
    Times(Share(syscalls, pathRatio) as real, p.ptraceRoundtripNs);
    EstimateParts(CurrentRetTrace, 1, syscalls, pathRatio, p, bringup, absorbRatio);
  }
}
