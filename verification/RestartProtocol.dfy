/**
 * The restart protocol of one strategy as a step system: process exits, restart routines, their
 * circuit checks and launches, in every interleaving. Time is an integer clock.
 */
module RestartProtocol {
  import opened CrashTracker
  import opened Sets

  const MAX_CONSECUTIVE_FAILURES := 3

  datatype Config = Config(window: int, maxCrashes: int)

  /**
   * Where a restart routine stands: in its backoff, at the head of its loop, past the circuit
   * check, past a failed launch, past recording that failure. `failures` counts failed launches.
   * `seen` is the number of crashes recorded when the check passed.
   */
  datatype Phase =
    | Sleeping
    | Looping(failures: nat)
    | Cleared(failures: nat, seen: nat)
    | Failed(failures: nat)
    | Recorded(failures: nat)

  /**
   * A process created at `at`, after `crashes` records; its routine's check saw `seen` of them.
   * `late` when the launch failed although the process was registered.
   */
  datatype Creation = Creation(at: int, crashes: nat, seen: nat, late: bool)

  /** No crash was recorded between the check and the creation. */
  predicate Current(c: Creation) {
    c.seen == c.crashes
  }

  datatype State = State(
    now: int,
    registered: bool,
    visible: seq<int>,
    recorded: seq<int>,
    routines: map<nat, Phase>,
    next: nat,
    creations: seq<Creation>)

  /** A launch fails before the process is registered, succeeds, or fails after registering it. */
  datatype Outcome = NotStarted | Started | StartedThenFailed

  datatype Step =
    | Tick(to: int)
    | Exit(gatesOpen: bool)
    | Probe
    | Check(id: nat, gatesOpen: bool)
    | Launch(id: nat, outcome: Outcome)
    | RecordFailure(id: nat)
    | Judge(id: nat)

  /** One strategy, started by hand, with no restart pending. */
  function Initial(now: int): State {
    State(now, true, [], [], map[], 0, [])
  }

  function Finish(s: State, id: nat): State {
    s.(routines := s.routines - {id})
  }

  function Move(s: State, id: nat, phase: Phase): State {
    s.(routines := s.routines[id := phase])
  }

  function Count(cfg: Config, s: State): nat {
    |PruneTimes(s.visible, cfg.window, s.now)|
  }

  function Scan(cfg: Config, s: State): State {
    s.(visible := ScanTimes(s.visible, cfg.window, s.now))
  }

  /** recordStrategyCrash: append, then prune. */
  function RecordCrash(cfg: Config, s: State): State {
    s.(recorded := s.recorded + [s.now], visible := PruneTimes(s.visible + [s.now], cfg.window, s.now))
  }

  /** handleProcessExit: unregister and record, then schedule a restart if the circuit is closed. */
  function ApplyExit(cfg: Config, s: State, gatesOpen: bool): State {
    if !s.registered then s else
      var s1 := RecordCrash(cfg, s).(registered := false);
      if gatesOpen && |s1.visible| < cfg.maxCrashes
      then s1.(routines := s1.routines[s1.next := Sleeping], next := s1.next + 1)
      else s1
  }

  /** shouldAutoRestart: the other gates first, then the circuit. */
  function ApplyCheck(cfg: Config, s: State, id: nat, gatesOpen: bool): State {
    if id !in s.routines || !(s.routines[id].Sleeping? || s.routines[id].Looping?) then s
    else if !gatesOpen then Finish(s, id)
    else
      var s1 := Scan(cfg, s);
      if Count(cfg, s) >= cfg.maxCrashes then Finish(s1, id) else
        Move(s1, id, match s.routines[id]
                     case Sleeping => Looping(0)
                     case _ => Cleared(s.routines[id].failures, |s.recorded|))
  }

  /** launchStrategy: a launch that finds the strategy running succeeds without creating anything. */
  function ApplyLaunch(s: State, id: nat, outcome: Outcome): State {
    if id !in s.routines || !s.routines[id].Cleared? then s else
      var f, seen := s.routines[id].failures, s.routines[id].seen;
      if outcome == NotStarted then Move(s, id, Failed(f))
      else if s.registered then Finish(s, id)
      else
        var s1 := s.(registered := true,
                     creations := s.creations + [Creation(s.now, |s.recorded|, seen, outcome == StartedThenFailed)]);
        if outcome == Started then Finish(s1, id) else Move(s1, id, Failed(f))
  }

  function ApplyRecordFailure(cfg: Config, s: State, id: nat): State {
    if id !in s.routines || !s.routines[id].Failed? then s
    else Move(RecordCrash(cfg, s), id, Recorded(s.routines[id].failures + 1))
  }

  function ApplyJudge(cfg: Config, s: State, id: nat): State {
    if id !in s.routines || !s.routines[id].Recorded? then s else
      var f := s.routines[id].failures;
      var s1 := Scan(cfg, s);
      if Count(cfg, s) >= cfg.maxCrashes || f >= MAX_CONSECUTIVE_FAILURES then Finish(s1, id) else Move(s1, id, Looping(f))
  }

  function Apply(cfg: Config, s: State, step: Step): State {
    match step
    case Tick(to) => if to >= s.now then s.(now := to) else s
    case Exit(gatesOpen) => ApplyExit(cfg, s, gatesOpen)
    case Probe => Scan(cfg, s)
    case Check(id, gatesOpen) => ApplyCheck(cfg, s, id, gatesOpen)
    case Launch(id, outcome) => ApplyLaunch(s, id, outcome)
    case RecordFailure(id) => ApplyRecordFailure(cfg, s, id)
    case Judge(id) => ApplyJudge(cfg, s, id)
  }

  function Run(cfg: Config, s: State, steps: seq<Step>): State {
    if steps == [] then s else Apply(cfg, Run(cfg, s, steps[..|steps| - 1]), steps[|steps| - 1])
  }

  // ---------------------------------------------------------------- invariants

  /** The crash records follow the clock and the shared array never loses an in-window one. */
  ghost predicate CrashesInv(cfg: Config, s: State) {
    && Tracks(s.visible, s.recorded, s.now - cfg.window)
    && Ascending(s.recorded)
    && (forall k :: 0 <= k < |s.recorded| ==> s.recorded[k] <= s.now)
  }

  /** Fewer than maxCrashes of the first `n` records lie in the window ending at `now`. */
  ghost predicate Closed(cfg: Config, recorded: seq<int>, n: nat, now: int) {
    n <= |recorded| && |InWindow(recorded[..n], now - cfg.window)| < cfg.maxCrashes
  }

  /** Each creation saw the records before it, and a crash was recorded between any two. */
  ghost predicate CreationInv(cfg: Config, s: State, c: Creation) {
    && c.at <= s.now && c.seen <= c.crashes <= |s.recorded|
    && (forall k :: c.crashes <= k < |s.recorded| ==> s.recorded[k] >= c.at)
    && Closed(cfg, s.recorded, c.seen, c.at)
  }

  ghost predicate CreationsInv(cfg: Config, s: State) {
    && (forall i :: 0 <= i < |s.creations| ==> CreationInv(cfg, s, s.creations[i]))
    && (forall i, j :: 0 <= i < j < |s.creations| ==>
          s.creations[i].crashes + (j - i) <= s.creations[j].crashes && s.creations[i].at <= s.creations[j].at)
    && (s.creations != [] && !s.registered ==> s.creations[|s.creations| - 1].crashes < |s.recorded|)
  }

  ghost predicate PhaseInv(cfg: Config, s: State, p: Phase) {
    match p
    case Sleeping => true
    case Looping(f) => f < MAX_CONSECUTIVE_FAILURES
    case Cleared(f, seen) => f < MAX_CONSECUTIVE_FAILURES && Closed(cfg, s.recorded, seen, s.now)
    case Failed(f) => f < MAX_CONSECUTIVE_FAILURES
    case Recorded(f) => 0 < f <= MAX_CONSECUTIVE_FAILURES
  }

  ghost predicate RoutinesInv(cfg: Config, s: State) {
    forall id :: id in s.routines ==> id < s.next && PhaseInv(cfg, s, s.routines[id])
  }

  ghost predicate Inv(cfg: Config, s: State) {
    CrashesInv(cfg, s) && CreationsInv(cfg, s) && RoutinesInv(cfg, s)
  }

  lemma ClosedLater(cfg: Config, recorded: seq<int>, more: seq<int>, n: nat, now: int, later: int)
    requires Closed(cfg, recorded, n, now) && now <= later && recorded <= more
    ensures Closed(cfg, more, n, later)
  {
    assert more[..n] == recorded[..n];
    InWindowAntitone(recorded[..n], now - cfg.window, later - cfg.window);
  }

  /**
   * A later clock and further records keep what was true of creations and of routines; `id` is the
   * routine the step moved or started, if any.
   */
  lemma Later(cfg: Config, s: State, t: State, id: nat)
    requires CreationsInv(cfg, s) && RoutinesInv(cfg, s)
    requires s.now <= t.now && t.creations == s.creations && s.next <= t.next
    requires t.recorded == s.recorded || t.recorded == s.recorded + [s.now]
    requires t.registered ==> s.registered
    requires !t.registered && s.registered ==> t.recorded != s.recorded
    requires forall other :: other in t.routines && other != id ==> other in s.routines && t.routines[other] == s.routines[other]
    requires id in t.routines ==> id < t.next && PhaseInv(cfg, t, t.routines[id])
    ensures CreationsInv(cfg, t) && RoutinesInv(cfg, t)
  {
    forall i | 0 <= i < |s.creations| ensures CreationInv(cfg, t, s.creations[i]) {
      var c := s.creations[i];
      assert CreationInv(cfg, s, c);
      ClosedLater(cfg, s.recorded, t.recorded, c.seen, c.at, c.at);
    }
    forall other | other in t.routines && other != id ensures PhaseInv(cfg, t, t.routines[other]) {
      var p := s.routines[other];
      assert PhaseInv(cfg, s, p);
      if p.Cleared? { ClosedLater(cfg, s.recorded, t.recorded, p.seen, s.now, t.now); }
    }
  }

  lemma ScanInv(cfg: Config, s: State)
    requires CrashesInv(cfg, s)
    ensures CrashesInv(cfg, Scan(cfg, s))
  {
    ScanTracks(s.visible, s.recorded, s.now - cfg.window, cfg.window, s.now);
  }

  lemma RecordInv(cfg: Config, s: State)
    requires CrashesInv(cfg, s)
    ensures CrashesInv(cfg, RecordCrash(cfg, s))
  {
    var from := s.now - cfg.window;
    RecordTracks(s.visible, s.recorded, from, s.now);
    PruneTracks(s.visible + [s.now], s.recorded + [s.now], from, cfg.window, s.now);
  }

  lemma TickInv(cfg: Config, s: State, to: int)
    requires CrashesInv(cfg, s) && s.now <= to
    ensures CrashesInv(cfg, s.(now := to))
  {
  }

  lemma PassedCheck(cfg: Config, s: State)
    requires CrashesInv(cfg, s) && Count(cfg, s) < cfg.maxCrashes
    ensures Closed(cfg, s.recorded, |s.recorded|, s.now)
  {
    CountBounds(s.visible, s.recorded, s.now - cfg.window, cfg.window, s.now);
    assert s.recorded[..|s.recorded|] == s.recorded;
  }

  lemma CheckInv(cfg: Config, s: State, id: nat, gatesOpen: bool)
    requires CreationsInv(cfg, s) && RoutinesInv(cfg, s)
    requires Count(cfg, s) < cfg.maxCrashes ==> Closed(cfg, s.recorded, |s.recorded|, s.now)
    ensures CreationsInv(cfg, ApplyCheck(cfg, s, id, gatesOpen)) && RoutinesInv(cfg, ApplyCheck(cfg, s, id, gatesOpen))
  {
    if id in s.routines { assert PhaseInv(cfg, s, s.routines[id]); }
    Later(cfg, s, ApplyCheck(cfg, s, id, gatesOpen), id);
  }

  lemma LaunchInv(cfg: Config, s: State, id: nat, outcome: Outcome)
    requires CrashesInv(cfg, s) && CreationsInv(cfg, s) && RoutinesInv(cfg, s)
    ensures CreationsInv(cfg, ApplyLaunch(s, id, outcome)) && RoutinesInv(cfg, ApplyLaunch(s, id, outcome))
  {
    var t := ApplyLaunch(s, id, outcome);
    if t.creations != s.creations {
      NewCreation(cfg, s, t, s.routines[id], outcome);
      forall other | other in t.routines ensures PhaseInv(cfg, t, t.routines[other]) {
        assert PhaseInv(cfg, s, s.routines[other]);
      }
    } else {
      if id in s.routines { assert PhaseInv(cfg, s, s.routines[id]); }
      Later(cfg, s, t, id);
    }
  }

  lemma NewCreation(cfg: Config, s: State, t: State, p: Phase, outcome: Outcome)
    requires CrashesInv(cfg, s) && CreationsInv(cfg, s) && PhaseInv(cfg, s, p) && p.Cleared?
    requires !s.registered && t.registered && t.now == s.now && t.recorded == s.recorded
    requires t.creations == s.creations + [Creation(s.now, |s.recorded|, p.seen, outcome == StartedThenFailed)]
    ensures CreationsInv(cfg, t)
  {
    forall i | 0 <= i < |t.creations| ensures CreationInv(cfg, t, t.creations[i]) {
      if i < |s.creations| { assert CreationInv(cfg, s, s.creations[i]); }
    }
    var n := |s.creations|;
    forall i, j | 0 <= i < j < |t.creations|
      ensures t.creations[i].crashes + (j - i) <= t.creations[j].crashes && t.creations[i].at <= t.creations[j].at
    {
      if i < n { assert CreationInv(cfg, s, s.creations[i]); }
      if j == n && i < n - 1 {
        assert s.creations[i].crashes + (n - 1 - i) <= s.creations[n - 1].crashes;
      }
    }
  }

  /** The records stand; at most a scan has left its traces in the shared array. */
  ghost predicate Scanned(cfg: Config, s: State, t: State) {
    t.recorded == s.recorded && t.now == s.now && (t.visible == s.visible || t.visible == ScanTimes(s.visible, cfg.window, s.now))
  }

  ghost predicate OneMoreCrash(cfg: Config, s: State, t: State) {
    t.now == s.now && t.recorded == RecordCrash(cfg, s).recorded && t.visible == RecordCrash(cfg, s).visible
  }

  lemma SameCrashes(cfg: Config, s: State, t: State)
    requires CrashesInv(cfg, s) && Scanned(cfg, s, t)
    ensures CrashesInv(cfg, t)
  {
    ScanInv(cfg, s);
  }

  lemma MoreCrashes(cfg: Config, s: State, t: State)
    requires CrashesInv(cfg, s) && OneMoreCrash(cfg, s, t)
    ensures CrashesInv(cfg, t)
  {
    RecordInv(cfg, s);
  }

  lemma StepShape(cfg: Config, s: State, step: Step)
    ensures var t := Apply(cfg, s, step);
      Scanned(cfg, s, t) || OneMoreCrash(cfg, s, t) || (step.Tick? && step.to >= s.now && t == s.(now := step.to))
  {
  }

  /** The crash records survive every step. */
  lemma StepCrashes(cfg: Config, s: State, step: Step)
    requires CrashesInv(cfg, s)
    ensures CrashesInv(cfg, Apply(cfg, s, step))
  {
    var t := Apply(cfg, s, step);
    StepShape(cfg, s, step);
    if Scanned(cfg, s, t) {
      SameCrashes(cfg, s, t);
    } else if OneMoreCrash(cfg, s, t) {
      MoreCrashes(cfg, s, t);
    } else {
      TickInv(cfg, s, step.to);
    }
  }

  lemma ExitInv(cfg: Config, s: State, gatesOpen: bool)
    requires CreationsInv(cfg, s) && RoutinesInv(cfg, s)
    ensures CreationsInv(cfg, ApplyExit(cfg, s, gatesOpen)) && RoutinesInv(cfg, ApplyExit(cfg, s, gatesOpen))
  {
    Later(cfg, s, ApplyExit(cfg, s, gatesOpen), s.next);
  }

  lemma FailureInv(cfg: Config, s: State, id: nat)
    requires CreationsInv(cfg, s) && RoutinesInv(cfg, s)
    ensures CreationsInv(cfg, ApplyRecordFailure(cfg, s, id)) && RoutinesInv(cfg, ApplyRecordFailure(cfg, s, id))
  {
    if id in s.routines { assert PhaseInv(cfg, s, s.routines[id]); }
    Later(cfg, s, ApplyRecordFailure(cfg, s, id), id);
  }

  lemma JudgeInv(cfg: Config, s: State, id: nat)
    requires CreationsInv(cfg, s) && RoutinesInv(cfg, s)
    ensures CreationsInv(cfg, ApplyJudge(cfg, s, id)) && RoutinesInv(cfg, ApplyJudge(cfg, s, id))
  {
    if id in s.routines { assert PhaseInv(cfg, s, s.routines[id]); }
    Later(cfg, s, ApplyJudge(cfg, s, id), id);
  }

  lemma StepInv(cfg: Config, s: State, step: Step)
    requires Inv(cfg, s)
    ensures Inv(cfg, Apply(cfg, s, step))
  {
    StepCrashes(cfg, s, step);
    match step
    case Check(id, gatesOpen) =>
      if Count(cfg, s) < cfg.maxCrashes { PassedCheck(cfg, s); }
      CheckInv(cfg, s, id, gatesOpen);
    case Launch(id, outcome) => LaunchInv(cfg, s, id, outcome);
    case Exit(gatesOpen) => ExitInv(cfg, s, gatesOpen);
    case RecordFailure(id) => FailureInv(cfg, s, id);
    case Judge(id) => JudgeInv(cfg, s, id);
    case _ => Later(cfg, s, Apply(cfg, s, step), s.next);
  }

  lemma {:induction false} RunInv(cfg: Config, now: int, steps: seq<Step>)
    ensures Inv(cfg, Run(cfg, Initial(now), steps))
  {
    if steps != [] {
      RunInv(cfg, now, steps[..|steps| - 1]);
      StepInv(cfg, Run(cfg, Initial(now), steps[..|steps| - 1]), steps[|steps| - 1]);
    }
  }

  // ---------------------------------------------------------------- how many routines live at once

  /** Launches that failed after registering their process. */
  function LateFailures(cs: seq<Creation>): nat {
    if cs == [] then 0 else LateFailures(cs[..|cs| - 1]) + if cs[|cs| - 1].late then 1 else 0
  }

  /** Creations after at least `n` records whose check saw at most `n` of them. */
  function Straddling(cs: seq<Creation>, n: nat): nat {
    if cs == [] then 0 else
      Straddling(cs[..|cs| - 1], n) + if cs[|cs| - 1].seen <= n <= cs[|cs| - 1].crashes then 1 else 0
  }

  /** The routines past a check that saw at most `n` records. */
  function ClearedUpTo(routines: map<nat, Phase>, n: nat): set<nat> {
    set id | id in routines && routines[id].Cleared? && routines[id].seen <= n
  }

  /** A running process can become one routine, and a routine one process; only late failures add to their number. */
  ghost predicate FewAlive(s: State) {
    |s.routines.Keys| + (if s.registered then 1 else 0) <= 1 + LateFailures(s.creations)
  }

  /** So does the number of those that straddle the `n`-th record, launched or about to be. */
  ghost predicate FewStraddle(s: State, n: nat) {
    Straddling(s.creations, n) + |ClearedUpTo(s.routines, n)| <= 1 + LateFailures(s.creations)
  }

  lemma LaunchFewAlive(s: State, id: nat, outcome: Outcome)
    requires FewAlive(s)
    ensures FewAlive(ApplyLaunch(s, id, outcome))
  {
    var t := ApplyLaunch(s, id, outcome);
    if id in s.routines {
      assert t.routines.Keys == s.routines.Keys || t.routines.Keys == s.routines.Keys - {id};
      assert t.creations == s.creations || t.creations[..|s.creations|] == s.creations;
    }
  }

  lemma ExitFewAlive(cfg: Config, s: State, gatesOpen: bool)
    requires FewAlive(s)
    ensures FewAlive(ApplyExit(cfg, s, gatesOpen))
  {
    var t := ApplyExit(cfg, s, gatesOpen);
    assert t.routines.Keys == s.routines.Keys || t.routines.Keys == s.routines.Keys + {s.next};
  }

  /** Every other step starts neither. */
  lemma NothingStarted(cfg: Config, s: State, step: Step)
    requires !step.Launch? && !step.Exit?
    ensures var t := Apply(cfg, s, step);
      t.routines.Keys <= s.routines.Keys && t.registered == s.registered && t.creations == s.creations
  {
  }

  lemma StepFewAlive(cfg: Config, s: State, step: Step)
    requires FewAlive(s)
    ensures FewAlive(Apply(cfg, s, step))
  {
    match step
    case Launch(id, outcome) => LaunchFewAlive(s, id, outcome);
    case Exit(gatesOpen) => ExitFewAlive(cfg, s, gatesOpen);
    case _ =>
      NothingStarted(cfg, s, step);
      SubsetSize(Apply(cfg, s, step).routines.Keys, s.routines.Keys);
  }

  /** Before the `n`-th record is followed by another, only a running process can straddle it. */
  lemma StraddlersRun(cfg: Config, s: State, n: nat)
    requires CreationsInv(cfg, s) && |s.recorded| <= n
    ensures Straddling(s.creations, n) <= if s.registered then 1 else 0
  {
    var k := |s.creations|;
    if k > 0 {
      assert CreationInv(cfg, s, s.creations[k - 1]);
      var earlier := s.creations[..k - 1];
      forall i | 0 <= i < |earlier| ensures earlier[i].crashes < n {
        assert s.creations[i].crashes + (k - 1 - i) <= s.creations[k - 1].crashes;
      }
      NoneStraddles(earlier, n);
    }
  }

  lemma {:induction false} NoneStraddles(cs: seq<Creation>, n: nat)
    requires forall i :: 0 <= i < |cs| ==> cs[i].crashes < n
    ensures Straddling(cs, n) == 0
  {
    if cs != [] {
      NoneStraddles(cs[..|cs| - 1], n);
    }
  }

  lemma TooEarlyToStraddle(cfg: Config, s: State, n: nat)
    requires CreationsInv(cfg, s) && FewAlive(s) && |s.recorded| <= n
    ensures FewStraddle(s, n)
  {
    StraddlersRun(cfg, s, n);
    SubsetSize(ClearedUpTo(s.routines, n), s.routines.Keys);
  }

  /** Once more than `n` records stand, checks see more of them than that. */
  lemma NoNewStraddler(cfg: Config, s: State, step: Step, n: nat)
    requires |Apply(cfg, s, step).recorded| > n && Apply(cfg, s, step).creations == s.creations
    requires FewStraddle(s, n)
    ensures FewStraddle(Apply(cfg, s, step), n)
  {
    var t := Apply(cfg, s, step);
    assert step.Check? ==> t.recorded == s.recorded;
    SubsetSize(ClearedUpTo(t.routines, n), ClearedUpTo(s.routines, n));
  }

  /** The process a launch creates. */
  function Launched(s: State, id: nat, outcome: Outcome): Creation
    requires id in s.routines && s.routines[id].Cleared?
  {
    Creation(s.now, |s.recorded|, s.routines[id].seen, outcome == StartedThenFailed)
  }

  lemma LaunchCreates(s: State, id: nat, outcome: Outcome)
    requires ApplyLaunch(s, id, outcome).creations != s.creations
    ensures id in s.routines && s.routines[id].Cleared?
    ensures ApplyLaunch(s, id, outcome).creations == s.creations + [Launched(s, id, outcome)]
  {
  }

  /** Its routine has left its check behind. */
  lemma LaunchLeaves(s: State, id: nat, outcome: Outcome, n: nat)
    requires ApplyLaunch(s, id, outcome).creations != s.creations
    ensures ClearedUpTo(ApplyLaunch(s, id, outcome).routines, n) == ClearedUpTo(s.routines, n) - {id}
  {
  }

  lemma CountsOfNext(cs: seq<Creation>, c: Creation, n: nat)
    ensures Straddling(cs + [c], n) == Straddling(cs, n) + if c.seen <= n <= c.crashes then 1 else 0
    ensures LateFailures(cs + [c]) == LateFailures(cs) + if c.late then 1 else 0
  {
    assert (cs + [c])[..|cs|] == cs;
  }

  /** A creation straddles exactly when its routine was about to. */
  lemma CreationStraddles(s: State, id: nat, outcome: Outcome, n: nat)
    requires ApplyLaunch(s, id, outcome).creations != s.creations && n <= |s.recorded| && FewStraddle(s, n)
    ensures FewStraddle(ApplyLaunch(s, id, outcome), n)
  {
    LaunchCreates(s, id, outcome);
    LaunchLeaves(s, id, outcome, n);
    CountsOfNext(s.creations, Launched(s, id, outcome), n);
    OneLess(ClearedUpTo(s.routines, n), id);
  }

  lemma StepFewStraddle(cfg: Config, s: State, step: Step, n: nat)
    requires CreationsInv(cfg, Apply(cfg, s, step)) && FewAlive(Apply(cfg, s, step)) && FewStraddle(s, n)
    ensures FewStraddle(Apply(cfg, s, step), n)
  {
    var t := Apply(cfg, s, step);
    if |t.recorded| <= n {
      TooEarlyToStraddle(cfg, t, n);
    } else if t.creations == s.creations {
      NoNewStraddler(cfg, s, step, n);
    } else {
      CreationStraddles(s, step.id, step.outcome, n);
    }
  }

  lemma {:induction false} RunFewStraddle(cfg: Config, now: int, steps: seq<Step>, n: nat)
    ensures var s := Run(cfg, Initial(now), steps); FewAlive(s) && FewStraddle(s, n)
  {
    if steps == [] {
      assert Run(cfg, Initial(now), steps) == Initial(now);
    } else {
      var s := Run(cfg, Initial(now), steps[..|steps| - 1]);
      RunFewStraddle(cfg, now, steps[..|steps| - 1], n);
      RunInv(cfg, now, steps);
      StepFewAlive(cfg, s, steps[|steps| - 1]);
      StepFewStraddle(cfg, s, steps[|steps| - 1], n);
    }
  }

  /** The creation that follows is made by a routine already counted, and its own failure comes later. */
  lemma NextStraddles(s: State, id: nat, outcome: Outcome, n: nat)
    requires ApplyLaunch(s, id, outcome).creations != s.creations && FewStraddle(s, n)
    ensures Straddling(ApplyLaunch(s, id, outcome).creations, n) <= 1 + LateFailures(s.creations)
  {
    LaunchCreates(s, id, outcome);
    CountsOfNext(s.creations, Launched(s, id, outcome), n);
    if s.routines[id].seen <= n {
      assert id in ClearedUpTo(s.routines, n);
    }
  }

  lemma OnlyLaunchesCreate(cfg: Config, s: State, step: Step)
    ensures Apply(cfg, s, step).creations != s.creations ==>
      step.Launch? && Apply(cfg, s, step) == ApplyLaunch(s, step.id, step.outcome)
      && |Apply(cfg, s, step).creations| == |s.creations| + 1 && s.creations <= Apply(cfg, s, step).creations
  {
  }

  /** Up to creation `j` only the late failures before it add to the straddling ones. */
  lemma {:induction false} FewStraddleUpTo(cfg: Config, now: int, steps: seq<Step>, j: nat, n: nat)
    requires j < |Run(cfg, Initial(now), steps).creations|
    ensures var cs := Run(cfg, Initial(now), steps).creations; Straddling(cs[..j + 1], n) <= 1 + LateFailures(cs[..j])
  {
    var t := Run(cfg, Initial(now), steps);
    if steps != [] {
      var s, step := Run(cfg, Initial(now), steps[..|steps| - 1]), steps[|steps| - 1];
      OnlyLaunchesCreate(cfg, s, step);
      if j < |s.creations| {
        FewStraddleUpTo(cfg, now, steps[..|steps| - 1], j, n);
        assert t.creations[..j + 1] == s.creations[..j + 1] && t.creations[..j] == s.creations[..j];
      } else {
        RunFewStraddle(cfg, now, steps[..|steps| - 1], n);
        NextStraddles(s, step.id, step.outcome, n);
        assert t.creations[..j + 1] == t.creations && t.creations[..j] == s.creations;
      }
    }
  }

  // ---------------------------------------------------------------- the rate limit

  /** The creations from `m` to `j` all straddle the `n`-th record. */
  predicate AllStraddle(cs: seq<Creation>, m: nat, j: nat, n: nat) {
    m <= j <= |cs| && forall k :: m <= k < j ==> cs[k].seen <= n <= cs[k].crashes
  }

  lemma {:induction false} StraddlersCounted(cs: seq<Creation>, m: nat, j: nat, n: nat)
    requires AllStraddle(cs, m, j, n)
    ensures Straddling(cs, n) >= j - m
  {
    if m < j {
      StraddlersCounted(cs[..|cs| - 1], m, if j == |cs| then j - 1 else j, n);
    }
  }

  /** The check that saw the most records. */
  lemma {:induction false} NewestCheck(cs: seq<Creation>, i: nat, j: nat) returns (q: nat)
    requires i <= j < |cs|
    ensures i <= q <= j && forall k :: i <= k <= j ==> cs[k].seen <= cs[q].seen
    decreases j
  {
    if i == j {
      q := i;
    } else {
      q := NewestCheck(cs, i, j - 1);
      if cs[j].seen > cs[q].seen { q := j; }
    }
  }

  /** The creations before `m` saw less than `n` records, those from `m` on at least as many. */
  lemma {:induction false} SplitAt(cfg: Config, s: State, i: nat, j: nat, n: nat) returns (m: nat)
    requires CreationsInv(cfg, s) && i <= j <= |s.creations|
    ensures i <= m <= j && (forall k :: m <= k < j ==> s.creations[k].crashes >= n)
    ensures m > i ==> s.creations[i].crashes + (m - i) <= n
    decreases j
  {
    if i == j {
      m := j;
    } else if s.creations[j - 1].crashes < n {
      m := j;
      assert i < j - 1 ==> s.creations[i].crashes + (j - 1 - i) <= s.creations[j - 1].crashes;
    } else {
      m := SplitAt(cfg, s, i, j - 1, n);
    }
  }

  lemma EarlyOnes(cfg: Config, s: State, i: nat, q: nat, j: nat)
    requires CreationsInv(cfg, s) && i <= q <= j < |s.creations| && s.creations[j].at - s.creations[i].at <= cfg.window
    requires s.creations[i].crashes < s.creations[q].seen
    ensures s.creations[q].seen - s.creations[i].crashes < cfg.maxCrashes
  {
    assert CreationInv(cfg, s, s.creations[i]) && CreationInv(cfg, s, s.creations[q]) && CreationInv(cfg, s, s.creations[j]);
    assert q < j ==> s.creations[q].crashes + (j - q) <= s.creations[j].crashes && s.creations[q].at <= s.creations[j].at;
    SeenBetween(cfg, s, s.creations[i], s.creations[q]);
  }

  /**
   * In every run, creations `i` to `j` no further apart than the window number at most maxCrashes and
   * one more for every launch before creation `j` that failed after registering its process.
   */
  lemma RateLimitWithLateFailures(cfg: Config, now: int, steps: seq<Step>, i: nat, j: nat)
    requires var cs := Run(cfg, Initial(now), steps).creations;
      i <= j < |cs| && cs[j].at - cs[i].at <= cfg.window
    ensures j - i + 1 <= cfg.maxCrashes + LateFailures(Run(cfg, Initial(now), steps).creations[..j])
  {
    var s := Run(cfg, Initial(now), steps);
    RunInv(cfg, now, steps);
    var q := NewestCheck(s.creations, i, j);
    var n := s.creations[q].seen;
    var m := SplitAt(cfg, s, i, j + 1, n);
    FewStraddleUpTo(cfg, now, steps, j, n);
    StraddlersCounted(s.creations[..j + 1], m, j + 1, n);
    assert CreationInv(cfg, s, s.creations[q]);
    if m > i { EarlyOnes(cfg, s, i, q, j); }
  }

  /**
   * In every run, creations `i` to `j` no further apart than the window number at most maxCrashes,
   * provided no crash was recorded between the last one's circuit check and its launch.
   */
  lemma CurrentCheckRateLimit(cfg: Config, now: int, steps: seq<Step>, i: nat, j: nat)
    requires var cs := Run(cfg, Initial(now), steps).creations;
      i <= j < |cs| && cs[j].at - cs[i].at <= cfg.window && Current(cs[j])
    ensures j - i + 1 <= cfg.maxCrashes
  {
    var s := Run(cfg, Initial(now), steps);
    RunInv(cfg, now, steps);
    var a, b := s.creations[i], s.creations[j];
    assert CreationInv(cfg, s, a) && CreationInv(cfg, s, b);
    assert i < j ==> a.crashes + (j - i) <= b.crashes;
    SeenBetween(cfg, s, a, b);
  }

  /** The records between a creation and what the check of another one saw number less than maxCrashes. */
  lemma SeenBetween(cfg: Config, s: State, a: Creation, b: Creation)
    requires CreationInv(cfg, s, a) && CreationInv(cfg, s, b) && a.crashes <= b.seen && b.at - a.at <= cfg.window
    ensures b.seen - a.crashes < cfg.maxCrashes
  {
    SuffixCounted(s.recorded[..b.seen], a.crashes, b.at - cfg.window);
  }

  /** No launch fails once its process is registered. */
  predicate NoLateFailure(steps: seq<Step>) {
    forall k :: 0 <= k < |steps| ==> !(steps[k].Launch? && steps[k].outcome == StartedThenFailed)
  }

  /** One restart routine at most, none beside a registered process, and no crash since its check. */
  ghost predicate Single(s: State) {
    && (s.registered ==> s.routines == map[])
    && (forall id, other :: id in s.routines && other in s.routines ==> id == other)
    && (forall id :: id in s.routines && s.routines[id].Cleared? ==> s.routines[id].seen == |s.recorded|)
    && (forall i :: 0 <= i < |s.creations| ==> Current(s.creations[i]))
  }

  lemma {:induction false} RunSingle(cfg: Config, now: int, steps: seq<Step>)
    requires NoLateFailure(steps)
    ensures Single(Run(cfg, Initial(now), steps))
  {
    if steps != [] {
      RunSingle(cfg, now, steps[..|steps| - 1]);
      StepSingle(cfg, Run(cfg, Initial(now), steps[..|steps| - 1]), steps[|steps| - 1]);
    }
  }

  lemma StepSingle(cfg: Config, s: State, step: Step)
    requires Single(s) && !(step.Launch? && step.outcome == StartedThenFailed)
    ensures Single(Apply(cfg, s, step))
  {
    match step
    case Launch(id, outcome) => LaunchSingle(s, id, outcome);
    case _ =>
  }

  lemma LaunchSingle(s: State, id: nat, outcome: Outcome)
    requires Single(s) && outcome != StartedThenFailed
    ensures Single(ApplyLaunch(s, id, outcome))
  {
  }

  /** The rate limit over every run in which no launch fails after registering its process. */
  lemma RateLimit(cfg: Config, now: int, steps: seq<Step>, i: nat, j: nat)
    requires NoLateFailure(steps)
    requires var cs := Run(cfg, Initial(now), steps).creations;
      i <= j < |cs| && cs[j].at - cs[i].at <= cfg.window
    ensures j - i + 1 <= cfg.maxCrashes
  {
    RunSingle(cfg, now, steps);
    CurrentCheckRateLimit(cfg, now, steps, i, j);
  }

  /** A routine's remaining own steps. */
  function Fuel(p: Phase): nat {
    match p
    case Sleeping => 13
    case Looping(f) => if f > 3 then 0 else 4 * (3 - f)
    case Cleared(f, _) => if f >= 3 then 0 else 4 * (3 - f) - 1
    case Failed(f) => if f >= 3 then 0 else 4 * (3 - f) - 2
    case Recorded(f) => if f > 3 then 0 else 4 * (3 - f) + 1
  }

  function Mover(step: Step): (id: int) {
    match step
    case Check(id, _) => id
    case Launch(id, _) => id
    case RecordFailure(id) => id
    case Judge(id) => id
    case _ => -1
  }

  lemma OthersStand(cfg: Config, s: State, step: Step, id: nat)
    requires RoutinesInv(cfg, s) && id in s.routines && Mover(step) != id
    ensures var t := Apply(cfg, s, step); id in t.routines && t.routines[id] == s.routines[id]
  {
    assert id < s.next;
  }

  /** The kind of step a routine in this phase takes next; whatever its outcome. */
  predicate Due(p: Phase, step: Step) {
    match p
    case Sleeping => step.Check?
    case Looping(_) => step.Check?
    case Cleared(_, _) => step.Launch?
    case Failed(_) => step.RecordFailure?
    case Recorded(_) => step.Judge?
  }

  function DueStep(p: Phase, id: nat): (step: Step)
    ensures Due(p, step) && Mover(step) == id
  {
    match p
    case Sleeping => Check(id, true)
    case Looping(_) => Check(id, true)
    case Cleared(_, _) => Launch(id, Started)
    case Failed(_) => RecordFailure(id)
    case Recorded(_) => Judge(id)
  }

  lemma OwnStepUsesFuel(cfg: Config, s: State, step: Step, id: nat)
    requires RoutinesInv(cfg, s) && id in s.routines && Mover(step) == id
    ensures var t := Apply(cfg, s, step);
      if Due(s.routines[id], step) then id !in t.routines || Fuel(t.routines[id]) < Fuel(s.routines[id]) else t == s
  {
    assert PhaseInv(cfg, s, s.routines[id]);
  }

  /**
   * A restart routine ends after at most three failed launches: the steps of others leave it alone,
   * its own step is always possible, whatever its outcome ends it or uses up fuel, and its third
   * failure is its last.
   */
  lemma RestartTerminates(cfg: Config, now: int, steps: seq<Step>, step: Step, id: nat)
    requires id in Run(cfg, Initial(now), steps).routines
    ensures var s := Run(cfg, Initial(now), steps);
      var t := Apply(cfg, s, step);
      && (Mover(step) != id ==> id in t.routines && t.routines[id] == s.routines[id])
      && (Mover(step) == id && !Due(s.routines[id], step) ==> t == s)
      && (Mover(step) == id && Due(s.routines[id], step) ==> id !in t.routines || Fuel(t.routines[id]) < Fuel(s.routines[id]))
      && (s.routines[id].Recorded? ==> s.routines[id].failures <= 3)
      && (s.routines[id] == Recorded(3) ==> id !in Apply(cfg, s, Judge(id)).routines)
  {
    var s := Run(cfg, Initial(now), steps);
    RunInv(cfg, now, steps);
    assert PhaseInv(cfg, s, s.routines[id]);
    if Mover(step) == id { OwnStepUsesFuel(cfg, s, step, id); } else { OthersStand(cfg, s, step, id); }
  }

  /** From any reachable state its own steps alone end a routine, within its fuel and so within thirteen. */
  lemma {:induction false} EndsByItself(cfg: Config, now: int, steps: seq<Step>, id: nat) returns (more: seq<Step>)
    requires id in Run(cfg, Initial(now), steps).routines
    ensures steps <= more && |more| <= |steps| + Fuel(Run(cfg, Initial(now), steps).routines[id])
    ensures forall k :: |steps| <= k < |more| ==> Mover(more[k]) == id
    ensures id !in Run(cfg, Initial(now), more).routines
    decreases Fuel(Run(cfg, Initial(now), steps).routines[id])
  {
    var s := Run(cfg, Initial(now), steps);
    var step := DueStep(s.routines[id], id);
    RestartTerminates(cfg, now, steps, step, id);
    RunInv(cfg, now, steps);
    assert PhaseInv(cfg, s, s.routines[id]);
    more := steps + [step];
    assert more[..|steps|] == steps;
    if id in Apply(cfg, s, step).routines {
      more := EndsByItself(cfg, now, more, id);
    }
  }

  // ---------------------------------------------------------------- which configurations keep the limit

  ghost predicate Reachable(cfg: Config, s: State) {
    exists now, steps :: Run(cfg, Initial(now), steps) == s
  }

  /** No window holds more than maxCrashes automatic creations. */
  ghost predicate WithinLimit(cfg: Config, s: State) {
    forall i, j :: 0 <= i <= j < |s.creations| && s.creations[j].at - s.creations[i].at <= cfg.window ==> j - i + 1 <= cfg.maxCrashes
  }

  lemma Advance(cfg: Config, s: State, step: Step) returns (t: State)
    requires Reachable(cfg, s)
    ensures t == Apply(cfg, s, step) && Reachable(cfg, t)
  {
    var now, steps :| Run(cfg, Initial(now), steps) == s;
    t := Apply(cfg, s, step);
    assert (steps + [step])[..|steps|] == steps;
    assert Run(cfg, Initial(now), steps + [step]) == t;
  }

  /** A crash counts itself, so a limit of one never lets a restart begin. */
  lemma {:induction false} NothingRestarts(cfg: Config, now: int, steps: seq<Step>)
    requires cfg.maxCrashes <= 1
    ensures var s := Run(cfg, Initial(now), steps); s.routines == map[] && s.creations == []
  {
    if steps != [] {
      var s := Run(cfg, Initial(now), steps[..|steps| - 1]);
      NothingRestarts(cfg, now, steps[..|steps| - 1]);
      assert (s.visible + [s.now])[..|s.visible|] == s.visible;
    }
  }

  /** With the other gates closed an exit starts no routine and a check ends its own. */
  lemma ClosedGates(cfg: Config, s: State, id: nat)
    ensures Apply(cfg, s, Exit(false)).routines == s.routines
    ensures id in s.routines && (s.routines[id].Sleeping? || s.routines[id].Looping?) ==>
      Apply(cfg, s, Check(id, false)).routines == s.routines - {id}
  {
  }

  ghost predicate CountBetween(cfg: Config, s: State) {
    |InWindow(s.recorded, s.now - cfg.window)| <= Count(cfg, s) <= |s.recorded|
  }

  lemma TracksCounts(cfg: Config, s: State)
    requires Tracks(s.visible, s.recorded, s.now - cfg.window)
    ensures CountBetween(cfg, s)
  {
    CountBounds(s.visible, s.recorded, s.now - cfg.window, cfg.window, s.now);
  }

  /** In every run a count lies between the recorded crashes in the window and all of them. */
  lemma RunCounts(cfg: Config, now: int, steps: seq<Step>)
    ensures CountBetween(cfg, Run(cfg, Initial(now), steps))
  {
    RunInv(cfg, now, steps);
    TracksCounts(cfg, Run(cfg, Initial(now), steps));
  }

  /** The steps of a routine whose count has reached the maximum. */
  lemma OpenCircuitSteps(cfg: Config, s: State, id: nat)
    requires id in s.routines && Count(cfg, s) >= cfg.maxCrashes
    ensures s.routines[id].Sleeping? || s.routines[id].Looping? ==> id !in Apply(cfg, s, Check(id, true)).routines
    ensures s.routines[id].Recorded? ==> id !in Apply(cfg, s, Judge(id)).routines
  {
  }

  /** While at least maxCrashes recorded crashes lie in the window every check and every judgement ends its routine. */
  lemma OpenCircuitEnds(cfg: Config, now: int, steps: seq<Step>, id: nat)
    requires id in Run(cfg, Initial(now), steps).routines
    requires var s := Run(cfg, Initial(now), steps); |InWindow(s.recorded, s.now - cfg.window)| >= cfg.maxCrashes
    ensures var s := Run(cfg, Initial(now), steps); var p := s.routines[id];
      && (p.Sleeping? || p.Looping? ==> id !in Apply(cfg, s, Check(id, true)).routines)
      && (p.Recorded? ==> id !in Apply(cfg, s, Judge(id)).routines)
  {
    RunCounts(cfg, now, steps);
    OpenCircuitSteps(cfg, Run(cfg, Initial(now), steps), id);
  }

  /**
   * How a launch ends: one that starts nothing goes on to its failure, one that finds the strategy running
   * ends its routine as a success, and one that registers the process and then fails does both.
   */
  lemma LaunchEnds(cfg: Config, s: State, id: nat, outcome: Outcome)
    requires id in s.routines && s.routines[id].Cleared?
    ensures var t, failed := Apply(cfg, s, Launch(id, outcome)), s.routines[id := Failed(s.routines[id].failures)];
      && (outcome == NotStarted ==> t == s.(routines := failed))
      && (outcome != NotStarted && s.registered ==> t == s.(routines := s.routines - {id}))
      && (outcome != NotStarted && !s.registered ==>
            && t.registered && |t.creations| == |s.creations| + 1 && t.creations[|s.creations|].at == s.now
            && t.routines == (if outcome == Started then s.routines - {id} else failed))
  {
  }

  /** Counting compacts the records in place, so that a check or a judgement leaves them as a scan does. */
  lemma CountingCompacts(cfg: Config, s: State, id: nat)
    requires id in s.routines
    ensures s.routines[id].Sleeping? || s.routines[id].Looping? ==>
      Apply(cfg, s, Check(id, true)).visible == ScanTimes(s.visible, cfg.window, s.now)
    ensures s.routines[id].Recorded? ==> Apply(cfg, s, Judge(id)).visible == ScanTimes(s.visible, cfg.window, s.now)
  {
  }

  /** The steps of a routine whose count is below the maximum. */
  lemma ClosedCircuitSteps(cfg: Config, s: State, id: nat)
    requires id in s.routines && Count(cfg, s) < cfg.maxCrashes
    ensures s.routines[id].Sleeping? ==> Apply(cfg, s, Check(id, true)).routines == s.routines[id := Looping(0)]
    ensures s.routines[id].Looping? ==>
      Apply(cfg, s, Check(id, true)).routines == s.routines[id := Cleared(s.routines[id].failures, |s.recorded|)]
    ensures s.routines[id].Recorded? && s.routines[id].failures < 3 ==>
      Apply(cfg, s, Judge(id)).routines == s.routines[id := Looping(s.routines[id].failures)]
    ensures s.routines[id].Recorded? && s.routines[id].failures >= 3 ==>
      Apply(cfg, s, Judge(id)).routines == s.routines - {id}
  {
  }

  /**
   * While fewer crashes than that are recorded at all every check passes, and a failure short of the third
   * is followed by another attempt.
   */
  lemma ClosedCircuitGoesOn(cfg: Config, now: int, steps: seq<Step>, id: nat)
    requires id in Run(cfg, Initial(now), steps).routines && |Run(cfg, Initial(now), steps).recorded| < cfg.maxCrashes
    ensures var s := Run(cfg, Initial(now), steps); var p := s.routines[id];
      && (p.Sleeping? ==> Apply(cfg, s, Check(id, true)).routines == s.routines[id := Looping(0)])
      && (p.Looping? ==> Apply(cfg, s, Check(id, true)).routines == s.routines[id := Cleared(p.failures, |s.recorded|)])
      && (p.Recorded? && p.failures < 3 ==> Apply(cfg, s, Judge(id)).routines == s.routines[id := Looping(p.failures)])
      && (p.Recorded? && p.failures >= 3 ==> Apply(cfg, s, Judge(id)).routines == s.routines - {id})
  {
    RunCounts(cfg, now, steps);
    ClosedCircuitSteps(cfg, Run(cfg, Initial(now), steps), id);
  }

  /** Nothing is restarted in a run whose exits never find the other gates open. */
  lemma {:induction false} ClosedGatesRestartNothing(cfg: Config, now: int, steps: seq<Step>)
    requires forall k :: 0 <= k < |steps| && steps[k].Exit? ==> !steps[k].gatesOpen
    ensures var s := Run(cfg, Initial(now), steps); s.routines == map[] && s.creations == []
  {
    if steps != [] {
      ClosedGatesRestartNothing(cfg, now, steps[..|steps| - 1]);
    }
  }

  /** A window of positive length and a limit that lets a single crash pass. */
  predicate Lenient(cfg: Config) {
    cfg.window > 0 && cfg.maxCrashes >= 2
  }

  /** With one crash in the window a routine passes its check. */
  lemma PassCheck(cfg: Config, s: State, id: nat) returns (t: State)
    requires Lenient(cfg) && Reachable(cfg, s)
    requires s.visible == [s.now] && id in s.routines && (s.routines[id].Sleeping? || s.routines[id].Looping?)
    ensures Reachable(cfg, t)
    ensures t == Move(s, id, if s.routines[id].Sleeping? then Looping(0) else Cleared(s.routines[id].failures, |s.recorded|))
  {
    AllInWindow([s.now], s.now - cfg.window);
    t := Advance(cfg, s, Check(id, true));
  }

  predicate Expired(cfg: Config, s: State) {
    forall k :: 0 <= k < |s.visible| ==> s.visible[k] < s.now - cfg.window
  }

  lemma RecordAfterExpiry(cfg: Config, s: State)
    requires Lenient(cfg) && Expired(cfg, s)
    ensures RecordCrash(cfg, s) == s.(recorded := s.recorded + [s.now], visible := [s.now])
  {
    NoneInWindow(s.visible, s.now - cfg.window);
    assert (s.visible + [s.now])[..|s.visible|] == s.visible;
  }

  /** An exit whose predecessors have all expired schedules a routine, which passes both its checks. */
  lemma ExitAndClear(cfg: Config, s: State) returns (t: State)
    requires Lenient(cfg) && Reachable(cfg, s) && s.registered && Expired(cfg, s)
    ensures Reachable(cfg, t)
    ensures t == s.(registered := false, recorded := s.recorded + [s.now], visible := [s.now],
                    routines := s.routines[s.next := Cleared(0, |s.recorded| + 1)], next := s.next + 1)
  {
    RecordAfterExpiry(cfg, s);
    var u := Advance(cfg, s, Exit(true));
    t := PassCheck(cfg, u, s.next);
    t := PassCheck(cfg, t, s.next);
    assert t.routines == s.routines[s.next := Cleared(0, |s.recorded| + 1)];
  }

  /** The first crash is restarted where the limit lets one pass: the exit, two checks and the launch. */
  lemma FirstCrashRestarts(cfg: Config, now: int) returns (s: State)
    requires Lenient(cfg)
    ensures Reachable(cfg, s) && s.registered && s.recorded == [now]
    ensures s.creations == [Creation(now, 1, 1, false)] && s.routines == map[]
  {
    assert Run(cfg, Initial(now), []) == Initial(now);
    s := ExitAndClear(cfg, Initial(now));
    s := Advance(cfg, s, Launch(0, Started));
    assert s.routines == map[];
  }

  /** A slow launch that fails late leaves its process running and its routine past a new check. */
  lemma LateFailure(cfg: Config, s: State, id: nat, at: int) returns (t: State)
    requires Lenient(cfg) && Reachable(cfg, s) && Expired(cfg, s.(now := at)) && s.now <= at
    requires !s.registered && id in s.routines && s.routines[id].Cleared? && s.routines[id].failures == 0
    ensures Reachable(cfg, t)
    ensures t.now == at && t.registered && t.visible == [at] && t.next == s.next
    ensures t.routines == s.routines[id := Cleared(1, |s.recorded| + 1)]
  {
    t := Advance(cfg, s, Tick(at));
    t := Advance(cfg, t, Launch(id, StartedThenFailed));
    t := JudgeAndClear(cfg, t, id);
    assert t.routines == s.routines[id := Cleared(1, |s.recorded| + 1)];
  }

  /** Recording the failure is the only crash in the window, so the routine is judged fit to try again. */
  lemma RecordAndJudge(cfg: Config, s: State, id: nat) returns (t: State)
    requires Lenient(cfg) && Reachable(cfg, s) && Expired(cfg, s)
    requires id in s.routines && s.routines[id] == Failed(0)
    ensures Reachable(cfg, t)
    ensures t == Move(s.(recorded := s.recorded + [s.now], visible := [s.now]), id, Looping(1))
  {
    t := Advance(cfg, s, RecordFailure(id));
    FailureRecorded(cfg, s, id);
    JudgedFit(cfg, t, id);
    t := Advance(cfg, t, Judge(id));
    assert s.routines[id := Recorded(1)][id := Looping(1)] == s.routines[id := Looping(1)];
  }

  lemma FailureRecorded(cfg: Config, s: State, id: nat)
    requires Lenient(cfg) && Expired(cfg, s) && id in s.routines && s.routines[id] == Failed(0)
    ensures ApplyRecordFailure(cfg, s, id) == Move(s.(recorded := s.recorded + [s.now], visible := [s.now]), id, Recorded(1))
  {
    RecordAfterExpiry(cfg, s);
  }

  lemma JudgedFit(cfg: Config, s: State, id: nat)
    requires Lenient(cfg) && s.visible == [s.now] && id in s.routines && s.routines[id] == Recorded(1)
    ensures ApplyJudge(cfg, s, id) == Move(s, id, Looping(1))
  {
    AllInWindow([s.now], s.now - cfg.window);
  }

  lemma JudgeAndClear(cfg: Config, s: State, id: nat) returns (t: State)
    requires Lenient(cfg) && Reachable(cfg, s) && Expired(cfg, s)
    requires id in s.routines && s.routines[id] == Failed(0)
    ensures Reachable(cfg, t)
    ensures t == s.(recorded := s.recorded + [s.now], visible := [s.now],
                    routines := s.routines[id := Cleared(1, |s.recorded| + 1)])
  {
    t := RecordAndJudge(cfg, s, id);
    t := PassCheck(cfg, t, id);
    assert t.routines == s.routines[id := Cleared(1, |s.recorded| + 1)];
  }

  /** The routines from `i` up to `n` are past their checks. */
  predicate Waiting(s: State, i: nat, n: nat) {
    n <= s.next && forall id :: i <= id < n ==> id in s.routines && s.routines[id].Cleared?
  }

  /** Late failures spread over time leave any number of routines past their checks at once. */
  lemma {:induction false} Gather(cfg: Config, k: nat) returns (s: State)
    requires Lenient(cfg) && k > 0
    ensures Reachable(cfg, s) && !s.registered && s.visible == [s.now] && s.next == k && Waiting(s, 0, k)
    ensures s.routines[k - 1].failures == 0
  {
    if k == 1 {
      assert Run(cfg, Initial(0), []) == Initial(0);
      s := ExitAndClear(cfg, Initial(0));
    } else {
      s := Gather(cfg, k - 1);
      s := LateFailure(cfg, s, k - 2, s.now + cfg.window + 1);
      s := Advance(cfg, s, Tick(s.now + cfg.window + 1));
      s := ExitAndClear(cfg, s);
    }
  }

  /** `t` has `n` more creations than `s`, all at its instant. */
  predicate CreatedAtOnce(s: State, t: State, n: nat) {
    && t.now == s.now && |t.creations| == |s.creations| + n && t.creations[..|s.creations|] == s.creations
    && forall k :: |s.creations| <= k < |t.creations| ==> t.creations[k].at == s.now
  }

  lemma CrashNow(cfg: Config, s: State)
    requires Lenient(cfg) && forall k :: 0 <= k < |s.visible| ==> s.visible[k] == s.now
    ensures RecordCrash(cfg, s).visible == s.visible + [s.now]
  {
    AllInWindow(s.visible + [s.now], s.now - cfg.window);
  }

  /** A routine past its check creates a process although the circuit may have opened since. */
  lemma LaunchAndCrash(cfg: Config, s: State, id: nat, n: nat) returns (t: State)
    requires Lenient(cfg) && Reachable(cfg, s) && !s.registered && id < n && Waiting(s, id, n)
    requires forall k :: 0 <= k < |s.visible| ==> s.visible[k] == s.now
    ensures Reachable(cfg, t) && !t.registered && Waiting(t, id + 1, n)
    ensures forall k :: 0 <= k < |t.visible| ==> t.visible[k] == t.now
    ensures CreatedAtOnce(s, t, 1)
  {
    t := Advance(cfg, s, Launch(id, Started));
    CrashNow(cfg, t);
    t := Advance(cfg, t, Exit(true));
  }

  /** Routines past their checks all create their processes at one instant. */
  lemma {:induction false} LaunchAll(cfg: Config, s: State, i: nat, n: nat) returns (t: State)
    requires Lenient(cfg) && Reachable(cfg, s) && !s.registered && i <= n && Waiting(s, i, n)
    requires forall k :: 0 <= k < |s.visible| ==> s.visible[k] == s.now
    ensures Reachable(cfg, t) && CreatedAtOnce(s, t, n - i)
    decreases n - i
  {
    if i == n {
      t := s;
    } else {
      var u := LaunchAndCrash(cfg, s, i, n);
      t := LaunchAll(cfg, u, i + 1, n);
      assert t.creations[..|s.creations|] == t.creations[..|u.creations|][..|s.creations|];
      assert t.creations[|s.creations|] == t.creations[..|u.creations|][|s.creations|];
    }
  }

  /**
   * Once launches can fail late the limit fails for every limit above one: as many processes as
   * wanted are created at one instant, by routines whose checks passed before the circuit opened.
   */
  lemma LateFailuresBreakTheLimit(cfg: Config) returns (s: State)
    requires Lenient(cfg)
    ensures Reachable(cfg, s) && !WithinLimit(cfg, s)
  {
    var n := cfg.maxCrashes + 1;
    var u := Gather(cfg, n);
    s := LaunchAll(cfg, u, 0, n);
    var i := |u.creations|;
    assert s.creations[i].at == s.creations[i + n - 1].at;
  }

  /** For a positive window, every run keeps the limit exactly when the limit is at most one. */
  lemma LimitHoldsIff(cfg: Config)
    requires cfg.window > 0
    ensures (forall s :: Reachable(cfg, s) ==> WithinLimit(cfg, s)) <==> cfg.maxCrashes <= 1
  {
    if cfg.maxCrashes <= 1 {
      forall s | Reachable(cfg, s) ensures WithinLimit(cfg, s) {
        var now, steps :| Run(cfg, Initial(now), steps) == s;
        NothingRestarts(cfg, now, steps);
      }
    } else {
      var s := LateFailuresBreakTheLimit(cfg);
    }
  }
}
