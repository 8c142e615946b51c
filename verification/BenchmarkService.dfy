/** The orchestrator's objects: run records updated in place by requests and by the phase
    threads, with every critical section one step of the step system. */
module BenchmarkServices {
  import opened Schedules
  import opened PhaseThreads
  import opened Orchestration

  class BenchmarkRun {
    const req: Request
    var status: RunStatus
    var flag: bool

    constructor (req: Request)
      ensures this.req == req && status == Pending && !flag
    {
      this.req := req;
      status, flag := Pending, false;
    }

    ghost predicate Shows(r: Run)
      reads this
    {
      req == r.req && status == r.status && flag == r.flag
    }
  }

  datatype Call = StartCall(req: Request, uuid: string) | StopCall(id: string)

  datatype StartReply = Started(run: BenchmarkRun) | Rejected(error: StartError)

  /** What happens around a phase thread: requests served before its n-th action, and whether
      its n-th action, if a publication, throws. */
  datatype World = World(calls: nat -> seq<Call>, fails: nat -> bool)

  ghost predicate Undisturbed(world: World) {
    forall n :: world.calls(n) == [] && !world.fails(n)
  }

  lemma {:induction false} AfterSnoc(s: State, steps: seq<Step>, step: Step)
    ensures After(s, steps + [step]) == Next(After(s, steps), step)
    decreases |steps|
  {
    if steps == [] {
      assert [] + [step] == [step];
      assert [step][1..] == [];
    } else {
      assert (steps + [step])[1..] == steps[1..] + [step];
      AfterSnoc(Next(s, steps[0]), steps[1..], step);
    }
  }

  /** Requests leave every thread where it is. */
  ghost predicate ThreadsStay(s: State, s': State) {
    |s.runs| <= |s'.runs| && forall i :: 0 <= i < |s.runs| ==>
      && s'.runs[i].stage == s.runs[i].stage && s'.runs[i].req == s.runs[i].req
      && s'.runs[i].published == s.runs[i].published && s'.runs[i].waited == s.runs[i].waited
  }

  /** The thread is before an action, and `ahead` is what is left of its program. */
  ghost predicate Before(stage: Stage, req: Request, ahead: seq<Instr>) {
    stage.At? && stage.pc <= |Program(req)| && Program(req)[stage.pc..] == ahead
  }

  /** One action of a thread, by what its program has next. */
  lemma Acts(r: Run, req: Request, x: Instr, rest: seq<Instr>, fails: bool)
    requires r.req == req && Before(r.stage, req, [x] + rest)
    ensures var e := Thread(r, fails);
            && e.req == r.req && e.flag == r.flag
            && e.status == (if x.SetPhase? then x.status else r.status)
            && e.published == r.published + (if x.Send? && !fails then [x.a] else [])
            && (if IsGuard(x) && r.flag then e.stage == Ended
                else if x.Send? && fails then e.stage == Failing
                else Before(e.stage, req, rest))
  {
    hide Program;
    assert Program(req)[r.stage.pc] == ([x] + rest)[0];
    assert Program(req)[r.stage.pc + 1..] == ([x] + rest)[1..];
  }

  class Orchestrator {
    const cfg: Config
    var runs: map<string, BenchmarkRun>
    ghost var all: seq<BenchmarkRun>
    ghost var steps: seq<Step>

    constructor (cfg: Config)
      ensures Valid() && this.cfg == cfg && steps == []
    {
      this.cfg := cfg;
      runs, all, steps := map[], [], [];
    }

    ghost function Now(): State
      reads this`steps
    {
      Reach(cfg, steps)
    }

    /** The run records are the runs of `s`, and the map leads to the latest of each id. */
    ghost predicate Matches(s: State)
      reads `all, `runs, all
    {
      && |all| == |s.runs| && (forall i, j :: 0 <= i < j < |all| ==> all[i] != all[j])
      && (forall i :: 0 <= i < |all| ==> all[i].Shows(s.runs[i]))
      && runs.Keys == s.current.Keys
      && (forall id :: id in runs ==> s.current[id] < |all| && runs[id] == all[s.current[id]])
    }

    ghost predicate Valid()
      reads this, all
    {
      Matches(Now())
    }

    ghost method Took(step: Step)
      requires Valid()
      modifies `steps
      ensures steps == old(steps) + [step]
      ensures Now() == Next(old(Now()), step) && Matches(old(Now()))
    {
      AfterSnoc(State(cfg, [], map[]), steps, step);
      steps := steps + [step];
    }

    // ---- Requests ----

    method Register(req: Request, ghost s: State) returns (run: BenchmarkRun)
      requires Matches(s)
      modifies `runs, `all
      ensures all == old(all) + [run] && fresh(run) && run.req == req
      ensures Matches(s.(runs := s.runs + [NewRun(req)], current := s.current[req.runId := |s.runs|]))
    {
      run := new BenchmarkRun(req);
      runs := runs[req.runId := run];
      all := all + [run];
    }

    /** The checks and defaults of a start request, in the order they are made. */
    method CheckRequest(req: Request, uuid: string) returns (p: Prepared)
      ensures p == Prepare(cfg, req, uuid)
    {
      var ready := req;
      if req.runId == "" {
        ready := ready.(runId := uuid);
      }
      if req.endpoint == "" {
        return Refused(NoEndpoint);
      }
      if req.bots <= 0 {
        return Refused(NoBots);
      }
      if req.seconds <= 0 {
        return Refused(NoDuration);
      }
      var profile := req.profile;
      if profile.rate <= 0 {
        profile := profile.(rate := cfg.rate);
      }
      if profile.symbols == [] {
        profile := profile.(symbols := cfg.symbols);
      }
      if profile.limitRatio == 0.0 && profile.marketRatio == 0.0 && profile.cancelRatio == 0.0 {
        profile := profile.(limitRatio := 0.6, marketRatio := 0.3, cancelRatio := 0.1);
      }
      var sum := profile.limitRatio + profile.marketRatio + profile.cancelRatio;
      var off := if sum >= 1.0 then sum - 1.0 else 1.0 - sum;
      if off > 0.01 {
        return Refused(BadRatios);
      }
      return Ready(ready.(profile := profile));
    }

    method StartBenchmark(req: Request, uuid: string) returns (reply: StartReply)
      requires Valid()
      modifies `runs, `all, `steps
      ensures Valid() && steps == old(steps) + [Start(req, uuid)]
      ensures old(all) <= all && ThreadsStay(old(Now()), Now())
      ensures reply.Started? ==> all == old(all) + [reply.run] && fresh(reply.run)
                                 && Now().runs == old(Now().runs) + [NewRun(reply.run.req)]
      ensures reply.Rejected? ==> all == old(all) && Now() == old(Now())
      ensures var p := Prepare(cfg, req, uuid);
              if p.Refused? then reply == Rejected(p.error)
              else if Running(old(Now()), p.req.runId) then reply == Rejected(AlreadyRunning)
              else reply.Started? && reply.run.req == p.req
      ensures var id := if req.runId != "" then req.runId else uuid;
              reply == Rejected(AlreadyRunning) <==>
              Prepare(cfg, req, uuid).Ready? && id in old(runs)
              && (var status := old(runs[id].status);
                  status == Pending || status == Warmup || status == Ramping
                  || status == Sustained || status == Cooldown)
    {
      hide Reach, Prepare, Thread, PhaseThreads.Stop, Matches, NewRun;
      ghost var s := Now();
      CurrentAt(s);
      ReadyMeans(cfg, req, uuid);
      CfgStays(cfg, steps);
      Took(Start(req, uuid));
      var prepared := CheckRequest(req, uuid);
      match prepared
      case Refused(error) => return Rejected(error);
      case Ready(ready) =>
        var id := ready.runId;
        if id in runs {
          var status := runs[id].status;
          if status != Completed && status != Stopped && status != Failed {
            return Rejected(AlreadyRunning);
          }
        }
        var run := Register(ready, s);
        return Started(run);
    }

    /** Overwriting what the record of run `i` holds. */
    method Write(run: BenchmarkRun, status: RunStatus, flag: bool,
                 ghost s: State, ghost i: nat, ghost r: Run)
      requires Matches(s) && i < |all| && all[i] == run
      requires r.req == run.req && r.status == status && r.flag == flag
      modifies run
      ensures Matches(WithRun(s, i, r)) && run.status == status && run.flag == flag
    {
      run.status := status;
      run.flag := flag;
    }

    /** An action that leaves what the record holds as it is. */
    lemma Unwritten(s: State, i: nat, r: Run)
      requires Matches(s) && i < |all|
      requires r.req == s.runs[i].req && r.status == s.runs[i].status && r.flag == s.runs[i].flag
      ensures Matches(WithRun(s, i, r))
    {
    }

    lemma ShownAt(s: State, i: nat)
      requires Matches(s) && i < |all|
      ensures i < |s.runs| && all[i].Shows(s.runs[i])
    {
    }

    lemma CurrentAt(s: State)
      requires Matches(s)
      ensures |all| == |s.runs| && runs.Keys == s.current.Keys
      ensures forall id :: id in runs ==>
                s.current[id] < |all| && runs[id] == all[s.current[id]]
                && runs[id].Shows(s.runs[s.current[id]])
    {
    }

    method StopBenchmark(id: string) returns (stopped: bool)
      requires Valid()
      modifies `steps, all
      ensures Valid() && steps == old(steps) + [Stop(id)]
      ensures ThreadsStay(old(Now()), Now())
      ensures stopped <==> id in runs && old(runs[id].status) != Completed
                           && old(runs[id].status) != Stopped
      ensures stopped ==> runs[id].flag && runs[id].status == Stopped
      ensures !stopped ==> Now() == old(Now())
    {
      hide Reach, Prepare, Registered, Thread;
      ghost var s := Now();
      Took(Stop(id));
      if id !in runs {
        return false;
      }
      var run := runs[id];
      ghost var i := s.current[id];
      assert run == all[i] && run.Shows(s.runs[i]);
      if run.status == Completed || run.status == Stopped {
        return false;
      }
      Write(run, Stopped, true, s, i, PhaseThreads.Stop(s.runs[i]));
      return true;
    }

    // ---- Actions of a phase thread ----

    /** Thread `i`, of `run`, has published `sent` and has `ahead` of its program to do. */
    ghost predicate Faces(i: nat, run: BenchmarkRun, ahead: seq<Instr>, sent: seq<Assignment>)
      reads this`steps, this`all
    {
      && i < |all| && all[i] == run && i < |Now().runs|
      && Now().runs[i].req == run.req && Now().runs[i].published == sent
      && Before(Now().runs[i].stage, run.req, ahead)
    }

    ghost predicate Stands(i: nat, run: BenchmarkRun, stage: Stage, sent: seq<Assignment>)
      reads this`steps, this`all
    {
      && i < |all| && all[i] == run && i < |Now().runs|
      && Now().runs[i].stage == stage && Now().runs[i].req == run.req
      && Now().runs[i].published == sent
    }

    method Serve(call: Call)
      requires Valid()
      modifies `runs, `all, `steps, all
      ensures Valid() && old(all) <= all && ThreadsStay(old(Now()), Now())
      ensures fresh(set r | r in all && r !in old(all))
    {
      hide Reach, Valid, Next, Prepare, Running;
      match call {
        case StartCall(req, uuid) => var reply := StartBenchmark(req, uuid);
        case StopCall(id) => var stopped := StopBenchmark(id);
      }
    }

    /** Requests of any kind, for any run, between two actions of a thread. */
    method Interfere(calls: seq<Call>)
      requires Valid()
      modifies `runs, `all, `steps, all
      ensures Valid() && old(all) <= all && ThreadsStay(old(Now()), Now())
      ensures fresh(set r | r in all && r !in old(all))
      ensures calls == [] ==>
                forall r :: r in old(all) ==> r.flag == old(r.flag) && r.status == old(r.status)
    {
      hide Reach, Valid;
      if calls == [] {
        return;
      }
      ghost var s := Now();
      var k: nat := 0;
      while k < |calls|
        invariant Valid() && k <= |calls|
        invariant old(all) <= all && ThreadsStay(s, Now())
        invariant fresh(set r | r in all && r !in old(all))
      {
        Serve(calls[k]);
        k := k + 1;
      }
    }

    method LookAtFlag(run: BenchmarkRun, calls: seq<Call>,
                      ghost i: nat, ghost rest: seq<Instr>, ghost sent: seq<Assignment>)
      returns (cancelled: bool)
      requires Valid() && Faces(i, run, [Check] + rest, sent)
      modifies `runs, `all, `steps, all
      ensures Valid() && old(all) <= all
      ensures fresh(set r | r in all && r !in old(all))
      ensures cancelled == run.flag
      ensures if cancelled then Stands(i, run, Ended, sent) else Faces(i, run, rest, sent)
      ensures calls == [] ==> run.flag == old(run.flag)
    {
      hide Reach, Program, Prepare, Registered, PhaseThreads.Stop, Matches, Thread, Before;
      Interfere(calls);
      ghost var s := Now();
      Took(Move(i, false));
      ShownAt(s, i);
      Acts(s.runs[i], run.req, Check, rest, false);
      Unwritten(s, i, Thread(s.runs[i], false));
      cancelled := run.flag;
    }

    method UpdateRunPhase(run: BenchmarkRun, status: RunStatus, calls: seq<Call>, ghost name: string,
                          ghost i: nat, ghost rest: seq<Instr>, ghost sent: seq<Assignment>)
      requires Valid() && Faces(i, run, [SetPhase(name, status)] + rest, sent)
      modifies `runs, `all, `steps, all
      ensures Valid() && old(all) <= all
      ensures fresh(set r | r in all && r !in old(all))
      ensures Faces(i, run, rest, sent) && run.status == status
      ensures calls == [] ==> run.flag == old(run.flag)
    {
      hide Reach, Program, Prepare, Registered, PhaseThreads.Stop, Matches, Thread, Before;
      Interfere(calls);
      ghost var s := Now();
      Took(Move(i, false));
      ShownAt(s, i);
      Acts(s.runs[i], run.req, SetPhase(name, status), rest, false);
      Write(run, status, run.flag, s, i, Thread(s.runs[i], false));
    }

    method PublishAssignment(run: BenchmarkRun, a: Assignment, fails: bool, calls: seq<Call>,
                             ghost i: nat, ghost rest: seq<Instr>, ghost sent: seq<Assignment>)
      returns (published: bool)
      requires Valid() && Faces(i, run, [Send(a)] + rest, sent)
      modifies `runs, `all, `steps, all
      ensures Valid() && old(all) <= all
      ensures fresh(set r | r in all && r !in old(all))
      ensures if published then Faces(i, run, rest, sent + [a]) else Stands(i, run, Failing, sent)
      ensures calls == [] ==> run.flag == old(run.flag)
      ensures published == !fails
    {
      hide Reach, Program, Prepare, Registered, PhaseThreads.Stop, Matches, Thread, Before;
      Interfere(calls);
      ghost var s := Now();
      Took(Move(i, fails));
      ShownAt(s, i);
      Acts(s.runs[i], run.req, Send(a), rest, fails);
      Unwritten(s, i, Thread(s.runs[i], fails));
      published := !fails;
    }

    method HandlePhaseError(run: BenchmarkRun, calls: seq<Call>,
                            ghost i: nat, ghost sent: seq<Assignment>)
      requires Valid() && Stands(i, run, Failing, sent)
      modifies `runs, `all, `steps, all
      ensures Valid() && old(all) <= all
      ensures fresh(set r | r in all && r !in old(all))
      ensures Stands(i, run, Ended, sent) && run.status == Failed
    {
      hide Reach, Program, Prepare, Registered, PhaseThreads.Stop, Matches;
      Interfere(calls);
      ghost var s := Now();
      Took(Move(i, false));
      ShownAt(s, i);
      Write(run, Failed, run.flag, s, i, Thread(s.runs[i], false));
    }

    /** A timed wait; what counts is the flag when it ends. */
    method WaitForPhase(run: BenchmarkRun, ms: int, calls: seq<Call>,
                        ghost i: nat, ghost rest: seq<Instr>, ghost sent: seq<Assignment>)
      returns (goOn: bool)
      requires Valid() && Faces(i, run, [Pause(ms)] + rest, sent)
      modifies `runs, `all, `steps, all
      ensures Valid() && old(all) <= all
      ensures fresh(set r | r in all && r !in old(all))
      ensures if goOn then Faces(i, run, rest, sent) else Stands(i, run, Ended, sent)
      ensures calls == [] ==> run.flag == old(run.flag)
      ensures goOn == !run.flag
    {
      hide Reach, Program, Prepare, Registered, PhaseThreads.Stop, Matches, Thread, Before;
      Interfere(calls);
      ghost var s := Now();
      Took(Move(i, false));
      ShownAt(s, i);
      Acts(s.runs[i], run.req, Pause(ms), rest, false);
      Unwritten(s, i, Thread(s.runs[i], false));
      goOn := !run.flag;
    }

    /** The guarded completion, then the unguarded one. */
    method Finish(run: BenchmarkRun, calls: seq<Call>, later: seq<Call>,
                  ghost i: nat, ghost sent: seq<Assignment>)
      requires Valid() && Faces(i, run, [], sent)
      modifies `runs, `all, `steps, all
      ensures Valid() && old(all) <= all
      ensures fresh(set r | r in all && r !in old(all))
      ensures Stands(i, run, Ended, sent) && run.status == Completed
    {
      hide Reach, Program, Prepare, Registered, PhaseThreads.Stop, Matches;
      Settle(run, calls, i, sent);
      Interfere(later);
      ghost var s := Now();
      Took(Move(i, false));
      ShownAt(s, i);
      Write(run, Completed, run.flag, s, i, Thread(s.runs[i], false));
    }

    method Settle(run: BenchmarkRun, calls: seq<Call>, ghost i: nat, ghost sent: seq<Assignment>)
      requires Valid() && Faces(i, run, [], sent)
      modifies `runs, `all, `steps, all
      ensures Valid() && old(all) <= all
      ensures fresh(set r | r in all && r !in old(all))
      ensures Stands(i, run, Idling, sent)
      ensures calls == [] ==>
                run.status == if old(run.status) == Stopped || old(run.status) == Failed
                              then old(run.status) else Completed
    {
      hide Reach, Program, Prepare, Registered, PhaseThreads.Stop, Matches;
      Interfere(calls);
      ghost var s := Now();
      Took(Move(i, false));
      ShownAt(s, i);
      if run.status != Stopped && run.status != Failed {
        Write(run, Completed, run.flag, s, i, Thread(s.runs[i], false));
      } else {
        Unwritten(s, i, Thread(s.runs[i], false));
      }
    }

    /** The ramp: one publication per step, a look at the flag before each, a wait between. */
    method ExecuteRampPhase(run: BenchmarkRun, ms: int, world: World, first: nat,
                            ghost i: nat, ghost rest: seq<Instr>, before: seq<Assignment>)
      returns (goOn: bool, n: nat, sent: seq<Assignment>)
      requires Valid() && Faces(i, run, RampFrom(run.req, ms, 0) + rest, before)
      modifies `runs, `all, `steps, all
      ensures Valid() && old(all) <= all
      ensures fresh(set r | r in all && r !in old(all))
      ensures if goOn then Faces(i, run, rest, sent) else Stands(i, run, Ended, sent)
      ensures Undisturbed(world) && !old(run.flag) ==> goOn && !run.flag
    {
      hide Reach, Program, Valid, Faces, Stands, RampFrom, RampAssignment;
      n, sent := first, before;
      var totalSteps := RampSteps(ms);
      var step: nat := 0;
      while step <= totalSteps
        invariant Valid() && step <= totalSteps + 1
        invariant old(all) <= all && fresh(set r | r in all && r !in old(all))
        invariant Faces(i, run, RampRest(run.req, ms, step) + rest, sent)
        invariant Undisturbed(world) && !old(run.flag) ==> !run.flag
        decreases totalSteps + 1 - step
      {
        var a := RampAssignment(run.req, ms, step);
        ghost var later := RampRest(run.req, ms, step + 1) + rest;
        ghost var wait := if step < totalSteps then [Pause(STEP_MS)] + later else later;
        RampUnroll(run.req, ms, step, rest);
        var cancelled := LookAtFlag(run, world.calls(n), i, [Send(a)] + wait, sent);
        if cancelled {
          return false, n + 1, sent;
        }
        var published := PublishAssignment(run, a, world.fails(n), world.calls(n + 1), i, wait, sent);
        if !published {
          HandlePhaseError(run, world.calls(n + 2), i, sent);
          return false, n + 3, sent;
        }
        sent := sent + [a];
        if step < totalSteps {
          var ok := WaitForPhase(run, STEP_MS, world.calls(n + 2), i, later, sent);
          if !ok {
            return false, n + 3, sent;
          }
        }
        n := n + 3;
        step := step + 1;
      }
      assert [] + rest == rest;
      return true, n, sent;
    }

    /** The phase loop, with any requests in between and any publications failing.  What it
        published is a prefix of the schedule, all of it if the run ends Completed; left
        undisturbed, it completes. */
    method ExecutePhases(run: BenchmarkRun, world: World, ghost i: nat)
      returns (sent: seq<Assignment>)
      requires Valid() && Faces(i, run, Program(run.req), [])
      modifies `runs, `all, `steps, all
      ensures Valid() && old(all) <= all && Stands(i, run, Ended, sent)
      ensures sent <= Schedule(run.req)
      ensures run.status == Completed ==> sent == Schedule(run.req)
      ensures Undisturbed(world) && !old(run.flag) ==> run.status == Completed
    {
      hide Reach, Program, Valid, Faces, Stands, RampFrom, AssignmentFor;
      var n: nat;
      n, sent := 0, [];
      var phases := Phases(run.req);
      assert phases[0..] == phases;
      ProgramIs(run.req);
      var k: nat := 0;
      while k < |phases|
        invariant Valid() && k <= |phases|
        invariant old(all) <= all && fresh(set r | r in all && r !in old(all))
        invariant Faces(i, run, ProgramOf(run.req, phases[k..]), sent)
        invariant Undisturbed(world) && !old(run.flag) ==> !run.flag
      {
        var goOn;
        goOn, n, sent := ExecutePhase(run, phases[k], world, n, i, ProgramOf(run.req, phases[k + 1..]), sent);
        if !goOn {
          EndsOnSchedule(i, run, sent);
          return;
        }
        k := k + 1;
      }
      Finish(run, world.calls(n), world.calls(n + 1), i, sent);
      EndsOnSchedule(i, run, sent);
    }

    method ExecutePhase(run: BenchmarkRun, phase: PhaseSpec, world: World, first: nat,
                        ghost i: nat, ghost rest: seq<Instr>, before: seq<Assignment>)
      returns (goOn: bool, n: nat, sent: seq<Assignment>)
      requires Valid() && Faces(i, run, PhaseProgram(run.req, phase) + rest, before)
      modifies `runs, `all, `steps, all
      ensures Valid() && old(all) <= all
      ensures fresh(set r | r in all && r !in old(all))
      ensures if goOn then Faces(i, run, rest, sent) else Stands(i, run, Ended, sent)
      ensures Undisturbed(world) && !old(run.flag) ==> goOn && !run.flag
    {
      hide Reach, Program, Valid, Faces, Stands, RampFrom, AssignmentFor;
      n, sent := first, before;
      var a := AssignmentFor(run.req, phase.name, phase.bots, phase.ms);
      ghost var body := (if phase.ramp then RampFrom(run.req, phase.ms, 0)
                         else [Send(a)] + [Pause(phase.ms)]) + rest;
      PhaseUnroll(run.req, phase, rest);
      var cancelled := LookAtFlag(run, world.calls(n), i, [SetPhase(phase.name, phase.status)] + body, sent);
      if cancelled {
        return false, n + 1, sent;
      }
      UpdateRunPhase(run, phase.status, world.calls(n + 1), phase.name, i, body, sent);
      if phase.ramp {
        goOn, n, sent := ExecuteRampPhase(run, phase.ms, world, n + 2, i, rest, sent);
        return;
      }
      assert body == [Send(a)] + ([Pause(phase.ms)] + rest);
      var published := PublishAssignment(run, a, world.fails(n), world.calls(n + 2), i,
                                         [Pause(phase.ms)] + rest, sent);
      if !published {
        HandlePhaseError(run, world.calls(n + 3), i, sent);
        return false, n + 4, sent;
      }
      sent := sent + [a];
      goOn := WaitForPhase(run, phase.ms, world.calls(n + 3), i, rest, sent);
      n := n + 4;
    }

    lemma EndsOnSchedule(i: nat, run: BenchmarkRun, sent: seq<Assignment>)
      requires Valid() && Stands(i, run, Ended, sent)
      ensures sent <= Schedule(run.req)
      ensures run.status == Completed ==> sent == Schedule(run.req)
    {
      hide Reach;
      assert all[i].Shows(Now().runs[i]);
      PublishedIsSchedule(cfg, steps, i);
    }

    /** A start request and the thread it spawns. */
    method Benchmark(req: Request, uuid: string, world: World)
      returns (reply: StartReply, sent: seq<Assignment>)
      requires Valid()
      modifies `runs, `all, `steps, all
      ensures Valid() && old(all) <= all
      ensures reply.Rejected? ==> sent == []
      ensures reply.Started? ==>
                && sent <= Schedule(reply.run.req)
                && (reply.run.status == Completed ==> sent == Schedule(reply.run.req))
                && (Undisturbed(world) ==> reply.run.status == Completed)
    {
      hide Reach, Program, Prepare;
      ghost var i := |all|;
      reply := StartBenchmark(req, uuid);
      sent := [];
      if reply.Started? {
        assert all[i].Shows(Now().runs[i]);
        assert Program(reply.run.req)[0..] == Program(reply.run.req);
        sent := ExecutePhases(reply.run, world, i);
      }
    }
  }

  lemma ProgramIs(req: Request)
    ensures Program(req) == ProgramOf(req, Phases(req))
  {
  }

  lemma PhaseUnroll(req: Request, p: PhaseSpec, rest: seq<Instr>)
    ensures var send := [Send(AssignmentFor(req, p.name, p.bots, p.ms))];
            var body := (if p.ramp then RampFrom(req, p.ms, 0) else send + [Pause(p.ms)]) + rest;
            PhaseProgram(req, p) + rest == [Check] + ([SetPhase(p.name, p.status)] + body)
  {
  }

  /** What is left of a ramp from `step` on, nothing after its last step. */
  function RampRest(req: Request, ms: int, step: nat): seq<Instr> {
    if step <= RampSteps(ms) then RampFrom(req, ms, step) else []
  }

  lemma RampUnroll(req: Request, ms: int, step: nat, rest: seq<Instr>)
    requires step <= RampSteps(ms)
    ensures var later := RampRest(req, ms, step + 1) + rest;
            RampRest(req, ms, step) + rest ==
            [Check] + ([Send(RampAssignment(req, ms, step))]
                       + if step < RampSteps(ms) then [Pause(STEP_MS)] + later else later)
  {
  }

  lemma {:induction false} CfgStays(cfg: Config, steps: seq<Step>)
    ensures Reach(cfg, steps).cfg == cfg
  {
    CfgAfter(State(cfg, [], map[]), steps);
  }

  lemma {:induction false} CfgAfter(s: State, steps: seq<Step>)
    ensures After(s, steps).cfg == s.cfg
    decreases |steps|
  {
    if steps != [] {
      CfgAfter(Next(s, steps[0]), steps[1..]);
    }
  }
}
