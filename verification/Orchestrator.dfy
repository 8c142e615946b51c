/** The orchestrator as a step system: start and stop requests in any order, any number of
    phase threads, each moving one action at a time. */
module Orchestration {
  import opened Schedules
  import opened PhaseThreads

  datatype Config = Config(rate: int, symbols: seq<string>)

  datatype StartError = NoEndpoint | NoBots | NoDuration | BadRatios | AlreadyRunning

  datatype Prepared = Ready(req: Request) | Refused(error: StartError)

  datatype State = State(cfg: Config, runs: seq<Run>, current: map<string, nat>)

  datatype Step =
    | Start(req: Request, uuid: string)
    | Stop(id: string)
    | Move(i: nat, fails: bool)

  function WithDefaults(cfg: Config, p: Profile): Profile {
    var p1 := if p.rate <= 0 then p.(rate := cfg.rate) else p;
    var p2 := if p.symbols == [] then p1.(symbols := cfg.symbols) else p1;
    if p.limitRatio == 0.0 && p.marketRatio == 0.0 && p.cancelRatio == 0.0
    then p2.(limitRatio := 0.6, marketRatio := 0.3, cancelRatio := 0.1) else p2
  }

  /** The checks of a start request and the defaults it fills in. */
  function Prepare(cfg: Config, req: Request, uuid: string): Prepared {
    var id := if req.runId == "" then uuid else req.runId;
    var p := WithDefaults(cfg, req.profile);
    var sum := p.limitRatio + p.marketRatio + p.cancelRatio;
    if req.endpoint == "" then Refused(NoEndpoint)
    else if req.bots <= 0 then Refused(NoBots)
    else if req.seconds <= 0 then Refused(NoDuration)
    else if sum - 1.0 > 0.01 || 1.0 - sum > 0.01 then Refused(BadRatios)
    else Ready(req.(runId := id, profile := p))
  }

  predicate NearOne(x: real) {
    0.99 <= x <= 1.01
  }

  function RatioSum(p: Profile): real {
    p.limitRatio + p.marketRatio + p.cancelRatio
  }

  /** Which requests are taken, and what a run can count on: what the caller left out is filled
      in, nothing of the caller's is replaced, and the ratios add up. */
  lemma ReadyMeans(cfg: Config, req: Request, uuid: string)
    ensures var p := Prepare(cfg, req, uuid);
            var given := req.profile;
            var silent := given.limitRatio == 0.0 && given.marketRatio == 0.0 && given.cancelRatio == 0.0;
            && (p.Ready? <==> req.endpoint != "" && req.bots > 0 && req.seconds > 0
                              && (silent || NearOne(RatioSum(given))))
            && (p == Refused(NoEndpoint) <==> req.endpoint == "")
            && (p == Refused(NoBots) <==> req.endpoint != "" && req.bots <= 0)
            && (p == Refused(NoDuration) <==> req.endpoint != "" && req.bots > 0 && req.seconds <= 0)
            && p != Refused(AlreadyRunning)
            && (p.Ready? ==>
                  var q := p.req.profile;
                  && NearOne(RatioSum(q))
                  && q.rate == (if given.rate > 0 then given.rate else cfg.rate)
                  && q.symbols == (if given.symbols != [] then given.symbols else cfg.symbols)
                  && (silent ==> q.limitRatio == 0.6 && q.marketRatio == 0.3 && q.cancelRatio == 0.1)
                  && (!silent ==> q.limitRatio == given.limitRatio
                                  && q.marketRatio == given.marketRatio
                                  && q.cancelRatio == given.cancelRatio)
                  && p.req.endpoint == req.endpoint && p.req.bots == req.bots
                  && p.req.seconds == req.seconds
                  && p.req.runId == (if req.runId != "" then req.runId else uuid))
  {
    var q := WithDefaults(cfg, req.profile);
    assert RatioSum(q) == q.limitRatio + q.marketRatio + q.cancelRatio;
  }

  predicate Running(s: State, id: string) {
    id in s.current && s.current[id] < |s.runs| && !Over(s.runs[s.current[id]].status)
  }

  /** Registering a prepared request: refused while a run of that id is not over. */
  function Registered(s: State, req: Request): State {
    if Running(s, req.runId) then s
    else s.(runs := s.runs + [NewRun(req)], current := s.current[req.runId := |s.runs|])
  }

  function WithRun(s: State, i: nat, r: Run): State
    requires i < |s.runs|
  {
    s.(runs := s.runs[i := r])
  }

  function Next(s: State, step: Step): State {
    match step
    case Start(req, uuid) =>
      (match Prepare(s.cfg, req, uuid)
       case Refused(_) => s
       case Ready(ready) => Registered(s, ready))
    case Stop(id) =>
      if id in s.current && s.current[id] < |s.runs|
      then WithRun(s, s.current[id], PhaseThreads.Stop(s.runs[s.current[id]])) else s
    case Move(i, fails) =>
      if i < |s.runs| then WithRun(s, i, Thread(s.runs[i], fails)) else s
  }

  function After(s: State, steps: seq<Step>): State
    decreases |steps|
  {
    if steps == [] then s else After(Next(s, steps[0]), steps[1..])
  }

  function Reach(cfg: Config, steps: seq<Step>): State {
    After(State(cfg, [], map[]), steps)
  }

  // ---- The invariant ----

  /** Only the latest run of an id may have an active thread. */
  ghost predicate LatestOnly(s: State, i: nat)
    requires i < |s.runs|
  {
    var id := s.runs[i].req.runId;
    id in s.current && (s.current[id] == i || !Active(s.runs[i]))
  }

  ghost predicate Ok(s: State) {
    && (forall i :: 0 <= i < |s.runs| ==> RunOk(s.runs[i]) && LatestOnly(s, i))
    && (forall id :: id in s.current ==>
          s.current[id] < |s.runs| && s.runs[s.current[id]].req.runId == id)
  }

  /** A thread that has left its loop, or whose flag is set, never becomes active again. */
  lemma QuietStays(r: Run, fails: bool)
    ensures !Active(r) ==> !Active(Thread(r, fails))
    ensures Thread(r, fails).req == r.req && Thread(r, fails).flag == r.flag
  {
    hide Program;
  }

  /** A run that is over has no active thread: Completed means the loop was left, Failed that
      the thread ended, Stopped that the flag is set. */
  lemma OverIsQuiet(r: Run)
    requires RunOk(r) && Over(r.status)
    ensures !Active(r)
  {
    hide Program;
  }

  lemma RunChanged(s: State, i: nat, r: Run)
    requires Ok(s) && i < |s.runs| && RunOk(r) && r.req == s.runs[i].req
    requires !Active(s.runs[i]) ==> !Active(r)
    ensures Ok(WithRun(s, i, r))
  {
    hide RunOk, Active;
    var s' := WithRun(s, i, r);
    forall k | 0 <= k < |s'.runs| ensures RunOk(s'.runs[k]) && LatestOnly(s', k) {
      assert LatestOnly(s, k) && RunOk(s.runs[k]);
    }
  }

  lemma RegisterKeeps(s: State, req: Request)
    requires Ok(s)
    ensures Ok(Registered(s, req))
  {
    hide RunOk, Active, NewRun;
    NewRunOk(req);
    var s' := Registered(s, req);
    if !Running(s, req.runId) {
      assert s'.runs[|s.runs|] == NewRun(req);
      NewRunIs(req);
      forall k | 0 <= k < |s'.runs| ensures RunOk(s'.runs[k]) && LatestOnly(s', k) {
        if k < |s.runs| {
          assert LatestOnly(s, k) && RunOk(s.runs[k]) && s'.runs[k] == s.runs[k];
          if s.runs[k].req.runId == req.runId && s.current[req.runId] == k {
            OverIsQuiet(s.runs[k]);
          }
        }
      }
    }
  }

  lemma NewRunIs(req: Request)
    ensures NewRun(req).req == req
  {
  }

  lemma StepKeeps(s: State, step: Step)
    requires Ok(s)
    ensures Ok(Next(s, step))
  {
    hide RunOk, Active, Thread, PhaseThreads.Stop, Registered, Prepare;
    match step
    case Start(req, uuid) =>
      if Prepare(s.cfg, req, uuid).Ready? {
        RegisterKeeps(s, Prepare(s.cfg, req, uuid).req);
      }
    case Stop(id) =>
      if id in s.current {
        var i := s.current[id];
        StopKeeps(s.runs[i]);
        StopQuiet(s.runs[i]);
        RunChanged(s, i, PhaseThreads.Stop(s.runs[i]));
      }
    case Move(i, fails) =>
      if i < |s.runs| {
        ThreadKeeps(s.runs[i], fails);
        QuietStays(s.runs[i], fails);
        RunChanged(s, i, Thread(s.runs[i], fails));
      }
  }

  lemma StopQuiet(r: Run)
    ensures PhaseThreads.Stop(r).req == r.req
    ensures !Active(r) ==> !Active(PhaseThreads.Stop(r))
  {
    hide Program;
  }

  lemma {:induction false} AlwaysOk(s: State, steps: seq<Step>)
    requires Ok(s)
    ensures Ok(After(s, steps))
    decreases |steps|
  {
    if steps != [] {
      StepKeeps(s, steps[0]);
      AlwaysOk(Next(s, steps[0]), steps[1..]);
    }
  }

  // ---- What every interleaving guarantees ----

  /** At most one phase thread per run id is in its loop with its flag unset, through any
      starts, restarts, stops and failures. */
  lemma OneActiveThread(cfg: Config, steps: seq<Step>, i: nat, j: nat)
    requires i < j < |Reach(cfg, steps).runs|
    requires var s := Reach(cfg, steps); s.runs[i].req.runId == s.runs[j].req.runId
    ensures var s := Reach(cfg, steps); !(Active(s.runs[i]) && Active(s.runs[j]))
  {
    hide RunOk, Active, After;
    AlwaysOk(State(cfg, [], map[]), steps);
    var s := Reach(cfg, steps);
    assert LatestOnly(s, i) && LatestOnly(s, j);
  }

  /** What a thread has published is a prefix of the schedule of its request; of a completed
      run it is the whole, and the thread has waited for the whole time. */
  lemma PublishedIsSchedule(cfg: Config, steps: seq<Step>, i: nat)
    requires i < |Reach(cfg, steps).runs|
    ensures var r := Reach(cfg, steps).runs[i];
            && r.published <= Schedule(r.req)
            && (r.status == Completed ==>
                  r.published == Schedule(r.req) && r.waited == Waits(Program(r.req)))
            && r.late <= 1
  {
    hide Program, Schedule, After;
    AlwaysOk(State(cfg, [], map[]), steps);
    var r := Reach(cfg, steps).runs[i];
    assert RunOk(r);
    ProgramSends(r.req);
    if r.stage.At? {
      var p := Program(r.req);
      assert p == p[..r.stage.pc] + p[r.stage.pc..];
      SendsConcat(p[..r.stage.pc], p[r.stage.pc..]);
    }
  }

  /** Completed is final; a failed run is only ever left by a stop request. */
  lemma CompletedStays(s: State, step: Step, i: nat)
    requires Ok(s) && i < |s.runs|
    ensures var s' := Next(s, step);
            && i < |s'.runs| && s'.runs[i].req == s.runs[i].req
            && (s.runs[i].status == Completed ==> s'.runs[i].status == Completed)
            && (s.runs[i].status == Failed && !step.Stop? ==> s'.runs[i].status == Failed)
  {
    hide Program, Schedule;
    assert RunOk(s.runs[i]);
  }

  /** How many actions of thread `i` there are among `steps`. */
  function MovesOf(steps: seq<Step>, i: nat): nat {
    if steps == [] then 0
    else (if steps[0].Move? && steps[0].i == i then 1 else 0) + MovesOf(steps[1..], i)
  }

  /** A step other than its own leaves a thread where it is. */
  lemma OthersLeave(s: State, step: Step, i: nat)
    requires Ok(s) && i < |s.runs| && s.runs[i].flag
    requires !(step.Move? && step.i == i)
    ensures var r, r' := s.runs[i], Next(s, step).runs[i];
            && r'.flag && r'.stage == r.stage && r'.published == r.published && r'.req == r.req
  {
    hide Prepare, Thread, RunOk, LatestOnly;
  }

  /** From the moment its flag is set, whatever the others do, a thread publishes at most once
      more, and three actions of its own are the most it has left. */
  lemma {:induction false} StopTakesEffect(s: State, steps: seq<Step>, i: nat)
    requires Ok(s) && i < |s.runs| && s.runs[i].flag
    ensures var r := s.runs[i];
            var s' := After(s, steps);
            && i < |s'.runs| && r.published <= s'.runs[i].published
            && |s'.runs[i].published| <= |r.published| + Chances(r) <= |r.published| + 1
            && Left(r) <= 3
            && (MovesOf(steps, i) >= Left(r) ==> s'.runs[i].stage.Ended?)
    decreases |steps|
  {
    hide Program, RunOk, Thread;
    var r := s.runs[i];
    RunAt(s, i);
    ToGuard(r, false);
    if steps != [] {
      var s1 := Next(s, steps[0]);
      StepKeeps(s, steps[0]);
      if steps[0].Move? && steps[0].i == i {
        ToGuard(r, steps[0].fails);
        FlagStays(r, steps[0].fails);
        RunAt(s1, i);
      } else {
        OthersLeave(s, steps[0], i);
      }
      StopTakesEffect(s1, steps[1..], i);
    }
  }

  lemma RunAt(s: State, i: nat)
    requires Ok(s) && i < |s.runs|
    ensures RunOk(s.runs[i])
  {
  }

  // ---- Where a stop leaves the status ----

  /** What the publications among the actions of thread `i` do, in order. */
  function FailsOf(steps: seq<Step>, i: nat): seq<bool> {
    if steps == [] then []
    else (if steps[0].Move? && steps[0].i == i then [steps[0].fails] else []) + FailsOf(steps[1..], i)
  }

  /** The step is a stop request that run `i` accepts. */
  predicate Stops(s: State, step: Step, i: nat) {
    && step.Stop? && step.id in s.current && s.current[step.id] == i && i < |s.runs|
    && s.runs[i].status != Completed && s.runs[i].status != Stopped
  }

  /** No stop request on the way is accepted by run `i`. */
  predicate Unstopped(s: State, steps: seq<Step>, i: nat)
    decreases |steps|
  {
    steps == [] || (!Stops(s, steps[0], i) && Unstopped(Next(s, steps[0]), steps[1..], i))
  }

  lemma OnlyOwnSteps(s: State, step: Step, i: nat)
    requires i < |s.runs| && !Stops(s, step, i)
    ensures var s' := Next(s, step);
            && i < |s'.runs|
            && s'.runs[i] == (if step.Move? && step.i == i then Thread(s.runs[i], step.fails)
                              else s.runs[i])
  {
    hide Prepare, Thread;
  }

  /** Through any steps without an accepted stop, a run is what its own thread makes of it. */
  lemma {:induction false} RunIsDriven(s: State, steps: seq<Step>, i: nat)
    requires i < |s.runs| && Unstopped(s, steps, i)
    ensures i < |After(s, steps).runs|
    ensures After(s, steps).runs[i] == Drive(s.runs[i], FailsOf(steps, i))
    decreases |steps|
  {
    hide Thread, Next, Stops;
    if steps != [] {
      OnlyOwnSteps(s, steps[0], i);
      RunIsDriven(Next(s, steps[0]), steps[1..], i);
      if steps[0].Move? && steps[0].i == i {
        assert FailsOf(steps, i)[1..] == FailsOf(steps[1..], i);
      } else {
        assert FailsOf(steps, i) == FailsOf(steps[1..], i);
      }
    }
  }

  /** In every interleaving: after an accepted stop, with no other stop of the run accepted,
      once its thread is gone (three actions of its own at most) the run is reported Stopped
      if and only if the stop met the thread where it respects it. */
  lemma StopStands(s: State, id: string, steps: seq<Step>)
    requires Ok(s) && id in s.current && Stops(s, Stop(id), s.current[id])
    requires Unstopped(Next(s, Stop(id)), steps, s.current[id])
    ensures var i := s.current[id];
            var e := After(Next(s, Stop(id)), steps);
            && i < |e.runs|
            && (MovesOf(steps, i) >= 3 ==> e.runs[i].stage.Ended?)
            && (e.runs[i].stage.Ended? ==>
                  (e.runs[i].status == Stopped <==>
                     Respects(s.runs[i], FailsOf(steps, i) != [] && FailsOf(steps, i)[0])))
  {
    hide RunOk, Drive, Respects, After, Unstopped;
    var i := s.current[id];
    RunAt(s, i);
    RunIsDriven(Next(s, Stop(id)), steps, i);
    StepKeeps(s, Stop(id));
    StopTakesEffect(Next(s, Stop(id)), steps, i);
    var fails := FailsOf(steps, i);
    var more := fails + [false, false, false];
    StopOutcomeLasts(s.runs[i], more);
    DriveOn(PhaseThreads.Stop(s.runs[i]), fails, [false, false, false]);
    if After(Next(s, Stop(id)), steps).runs[i].stage.Ended? {
      GoneStays(Drive(PhaseThreads.Stop(s.runs[i]), fails), [false, false, false]);
    }
    assert more[0] == (fails != [] && fails[0]);
  }

  // ---- Stopped is not final ----

  lemma FirstActions(req: Request)
    ensures var p := Program(req);
            && |p| >= 4 && p[0] == Check && p[1] == SetPhase("warmup", Warmup)
            && p[2].Send? && p[3].Pause?
  {
    hide RampFrom;
    var ps := Phases(req);
    assert Program(req) == PhaseProgram(req, ps[0]) + ProgramOf(req, ps[1..]);
  }

  /** A run stopped between its thread's first look at the flag and its first phase change. */
  lemma StoppedRun(req: Request)
    ensures var r := PhaseThreads.Stop(Thread(NewRun(req), false));
            var e := Thread(Thread(Thread(r, false), false), false);
            && r.status == Stopped && r.flag && e.status == Warmup && e.flag
            && e.stage == Ended && |e.published| == 1 && e.late == 1
  {
    hide Program;
    FirstActions(req);
  }

  lemma MoveOnly(cfg: Config, id: string, r: Run, fails: bool)
    ensures var s := State(cfg, [r], map[id := 0]);
            && Next(s, Move(0, fails)) == State(cfg, [Thread(r, fails)], map[id := 0])
            && Next(s, Stop(id)) == State(cfg, [PhaseThreads.Stop(r)], map[id := 0])
  {
    hide Thread, PhaseThreads.Stop;
  }

  lemma AfterOne(s: State, step: Step, rest: seq<Step>)
    ensures After(s, [step] + rest) == After(Next(s, step), rest)
  {
    assert ([step] + rest)[1..] == rest;
  }

  /** For every request that is taken: started, stopped after the thread's first look at the
      flag, and left to its thread, the run ends up reported as warming up, for good, with an
      assignment published after the stop. */
  lemma StoppedIsOverwritten(cfg: Config, req: Request, uuid: string) returns (steps: seq<Step>)
    requires Prepare(cfg, req, uuid).Ready?
    ensures var s := Reach(cfg, steps);
            && |s.runs| == 1 && |steps| == 6 && steps[2].Stop?
            && s.runs[0].status == Warmup && s.runs[0].flag && s.runs[0].stage == Ended
            && |s.runs[0].published| == 1 && s.runs[0].late == 1
  {
    hide Prepare, Thread, PhaseThreads.Stop, After, NewRun, Next;
    var ready := Prepare(cfg, req, uuid).req;
    var id := ready.runId;
    var start, move, stop := Start(req, uuid), Move(0, false), Stop(id);
    var s0 := State(cfg, [], map[]);
    Started(cfg, req, uuid);
    var r0 := NewRun(ready);
    var r1 := Thread(r0, false);
    var r2 := PhaseThreads.Stop(r1);
    var r3 := Thread(r2, false);
    var r4 := Thread(r3, false);
    MoveOnly(cfg, id, r0, false);
    MoveOnly(cfg, id, r1, false);
    MoveOnly(cfg, id, r2, false);
    MoveOnly(cfg, id, r3, false);
    MoveOnly(cfg, id, r4, false);
    AfterOne(s0, start, [move] + ([stop] + ([move] + ([move] + ([move] + [])))));
    AfterOne(Next(s0, start), move, [stop] + ([move] + ([move] + ([move] + []))));
    AfterOne(State(cfg, [r1], map[id := 0]), stop, [move] + ([move] + ([move] + [])));
    AfterOne(State(cfg, [r2], map[id := 0]), move, [move] + ([move] + []));
    AfterOne(State(cfg, [r3], map[id := 0]), move, [move] + []);
    AfterOne(State(cfg, [r4], map[id := 0]), move, []);
    AfterNone(Next(State(cfg, [r4], map[id := 0]), move));
    StoppedRun(ready);
    steps := [start] + ([move] + ([stop] + ([move] + ([move] + ([move] + [])))));
  }

  lemma AfterNone(s: State)
    ensures After(s, []) == s
  {
  }

  lemma Started(cfg: Config, req: Request, uuid: string)
    requires Prepare(cfg, req, uuid).Ready?
    ensures var ready := Prepare(cfg, req, uuid).req;
            Next(State(cfg, [], map[]), Start(req, uuid)) ==
            State(cfg, [NewRun(ready)], map[ready.runId := 0])
  {
    hide Prepare, NewRun;
  }
}
