/** One run of the benchmark and the thread that drives it, as values. */
module PhaseThreads {
  import opened Schedules

  /** Where a phase thread is: before action `pc` of its program, about to record a failed
      publication, past the guarded completion, or gone. */
  datatype Stage = At(pc: nat) | Failing | Idling | Ended

  /** `late` counts the assignments published after the cancel flag was set. */
  datatype Run = Run(req: Request, status: RunStatus, flag: bool, stage: Stage,
                     published: seq<Assignment>, waited: int, late: nat)

  function NewRun(req: Request): Run {
    Run(req, Pending, false, At(0), [], 0, 0)
  }

  predicate Over(status: RunStatus) {
    status == Completed || status == Stopped || status == Failed
  }

  /** One action of the thread; `fails` says whether a publication throws. */
  function Thread(r: Run, fails: bool): Run {
    match r.stage
    case At(pc) =>
      var p := Program(r.req);
      if pc < |p| then Perform(r, p[pc], fails).(
        stage := if Leaves(r, p[pc]) then Ended
                 else if p[pc].Send? && fails then Failing else At(pc + 1))
      else if r.status == Stopped || r.status == Failed then r.(stage := Idling)
      else r.(status := Completed, stage := Idling)
    case Failing => r.(status := Failed, stage := Ended)
    case Idling => r.(status := Completed, stage := Ended)
    case Ended => r
  }

  predicate IsGuard(i: Instr) {
    i.Check? || i.Pause?
  }

  predicate Leaves(r: Run, i: Instr) {
    IsGuard(i) && r.flag
  }

  function Perform(r: Run, i: Instr, fails: bool): Run {
    match i
    case Check => r
    case SetPhase(_, status) => r.(status := status)
    case Send(a) =>
      if fails then r
      else r.(published := r.published + [a], late := r.late + if r.flag then 1 else 0)
    case Pause(ms) => if r.flag then r else r.(waited := r.waited + ms)
  }

  /** The critical section of a stop request. */
  function Stop(r: Run): Run {
    if r.status == Completed || r.status == Stopped then r
    else r.(flag := true, status := Stopped)
  }

  /** The thread is inside its loop over the phases. */
  predicate InLoop(r: Run) {
    r.stage.Failing? || (r.stage.At? && r.stage.pc < |Program(r.req)|)
  }

  predicate Active(r: Run) {
    InLoop(r) && !r.flag
  }

  // ---- The shape of a program ----

  /** A publication is followed by a look at the flag before the next; so is a phase change,
      one action later at most.  Phases never set a final status. */
  predicate Spaced(p: seq<Instr>) {
    && (p != [] ==> p[0].Check?)
    && (forall i :: 0 <= i < |p| && p[i].SetPhase? ==> !Over(p[i].status))
    && forall i :: 0 <= i < |p| - 1 ==>
         (p[i].Send? ==> IsGuard(p[i + 1])) && (p[i].SetPhase? ==> !p[i + 1].SetPhase?)
  }

  lemma SpacedConcat(a: seq<Instr>, b: seq<Instr>)
    requires Spaced(a) && Spaced(b) && a != []
    ensures Spaced(a + b)
  {
  }

  lemma {:induction false} RampSpaced(req: Request, ms: int, step: nat)
    requires step <= RampSteps(ms)
    ensures Spaced(RampFrom(req, ms, step)) && RampFrom(req, ms, step) != []
    decreases RampSteps(ms) - step
  {
    if step < RampSteps(ms) {
      RampSpaced(req, ms, step + 1);
    }
  }

  lemma PhaseSpaced(req: Request, p: PhaseSpec)
    requires !Over(p.status)
    ensures Spaced(PhaseProgram(req, p)) && PhaseProgram(req, p) != []
  {
    if p.ramp {
      RampSpaced(req, p.ms, 0);
    }
  }

  lemma {:induction false} ProgramOfSpaced(req: Request, ps: seq<PhaseSpec>)
    requires forall p :: p in ps ==> !Over(p.status)
    ensures Spaced(ProgramOf(req, ps))
    ensures ps != [] && !ps[|ps| - 1].ramp ==>
              ProgramOf(req, ps) != []
              && ProgramOf(req, ps)[|ProgramOf(req, ps)| - 1].Pause?
  {
    if ps != [] {
      ProgramOfSpaced(req, ps[1..]);
      PhaseSpaced(req, ps[0]);
      SpacedConcat(PhaseProgram(req, ps[0]), ProgramOf(req, ps[1..]));
    }
  }

  lemma ProgramSpaced(req: Request)
    ensures var p := Program(req);
            Spaced(p) && p != [] && p[|p| - 1].Pause?
  {
    ProgramOfSpaced(req, Phases(req));
  }

  lemma SendsPrefix(p: seq<Instr>, k: nat)
    requires k < |p|
    ensures Sends(p[..k + 1]) == Sends(p[..k]) + (if p[k].Send? then [p[k].a] else [])
    ensures Waits(p[..k + 1]) == Waits(p[..k]) + (if p[k].Pause? then p[k].ms else 0)
    ensures Sends(p[..k]) <= Sends(p)
  {
    hide Sends, Waits;
    SendsSnoc(p[..k], p[k]);
    TakeOneMore(p, k);
    SendsCut(p, k);
  }

  lemma TakeOneMore(p: seq<Instr>, k: nat)
    requires k < |p|
    ensures p[..k + 1] == p[..k] + [p[k]]
  {
  }

  lemma SendsCut(p: seq<Instr>, k: nat)
    requires k <= |p|
    ensures Sends(p[..k]) <= Sends(p)
  {
    hide Sends, Waits;
    SendsConcat(p[..k], p[k..]);
    assert p == p[..k] + p[k..];
  }

  lemma SendsSnoc(q: seq<Instr>, i: Instr)
    ensures Sends(q + [i]) == Sends(q) + (if i.Send? then [i.a] else [])
    ensures Waits(q + [i]) == Waits(q) + (if i.Pause? then i.ms else 0)
  {
    hide Sends, Waits;
    SendsNil();
    SendsCons(i, []);
    SendsConcat(q, [i] + []);
    assert [i] + [] == [i];
  }

  // ---- What holds of a run at every moment ----

  /** The thread has published and waited exactly what its program says up to where it is. */
  ghost predicate OnSchedule(r: Run) {
    match r.stage
    case At(pc) =>
      && pc <= |Program(r.req)|
      && r.published == Sends(Program(r.req)[..pc]) && r.waited == Waits(Program(r.req)[..pc])
    case Idling => r.published == Schedule(r.req) && r.waited == Waits(Program(r.req))
    case _ => r.published <= Schedule(r.req)
  }

  ghost predicate StatusOk(r: Run) {
    && (r.status == Completed ==>
          !InLoop(r) && !r.stage.At?
          && r.published == Schedule(r.req) && r.waited == Waits(Program(r.req)))
    && (r.status == Failed ==> r.stage.Ended?)
    && (r.status == Stopped ==> r.flag)
  }

  /** At most one publication after the flag was set, and then a look at the flag comes next. */
  ghost predicate LateOk(r: Run) {
    && r.late <= 1 && (!r.flag ==> r.late == 0)
    && (r.late == 1 && r.stage.At? ==>
          r.stage.pc < |Program(r.req)| && IsGuard(Program(r.req)[r.stage.pc]))
  }

  ghost predicate RunOk(r: Run) {
    OnSchedule(r) && StatusOk(r) && LateOk(r)
  }

  lemma NewRunOk(req: Request)
    ensures RunOk(NewRun(req))
  {
    assert Program(req)[..0] == [];
  }

  lemma StopKeeps(r: Run)
    requires RunOk(r)
    ensures RunOk(Stop(r))
  {
  }

  lemma ThreadKeeps(r: Run, fails: bool)
    requires RunOk(r)
    ensures RunOk(Thread(r, fails))
  {
    hide Program, Schedule, Sends, Waits;
    var p := Program(r.req);
    ProgramSends(r.req);
    ProgramSpaced(r.req);
    if r.stage.At? {
      var pc := r.stage.pc;
      if pc < |p| {
        SendsPrefix(p, pc);
        if pc + 1 == |p| {
          assert p[..pc + 1] == p;
        }
      } else {
        assert p[..pc] == p;
      }
    }
  }

  /** The last two actions of a thread that was left alone: a run stopped since its last wait
      is still seen Stopped after the first, any other is Completed, and so are all after the
      second. */
  lemma LastActions(r: Run, a: bool, b: bool)
    requires RunOk(r) && r.stage == At(|Program(r.req)|)
    ensures var r1 := Thread(r, a);
            var r2 := Thread(r1, b);
            && r1.stage == Idling && r2.stage == Ended && r2.status == Completed
            && (r.status == Stopped ==> r1.status == Stopped)
            && (r.status != Stopped ==> r1.status == Completed)
            && r2.published == r.published && r2.flag == r.flag
  {
    hide Program, Schedule, Sends, Waits;
  }

  // ---- After a stop ----

  function Drive(r: Run, fails: seq<bool>): Run
    decreases |fails|
  {
    if fails == [] then r else Drive(Thread(r, fails[0]), fails[1..])
  }

  /** Once its flag is set, a thread publishes at most once more, and is gone after three
      actions of its own whatever its publications do. */
  lemma StopsSoon(r: Run, fails: seq<bool>)
    requires RunOk(r) && r.flag && |fails| == 3
    ensures var e := Drive(r, fails);
            e.stage.Ended? && r.published <= e.published && |e.published| <= |r.published| + 1
  {
    hide Program, Schedule, RunOk;
    var r1 := Thread(r, fails[0]);
    var r2 := Thread(r1, fails[1]);
    Unfold(r, fails);
    ThreadKeeps(r, fails[0]);
    ThreadKeeps(r1, fails[1]);
    FlagStays(r, fails[0]);
    FlagStays(r1, fails[1]);
    ToGuard(r, fails[0]);
    ToGuard(r1, fails[1]);
    ToGuard(r2, fails[2]);
  }

  lemma Unfold(r: Run, fails: seq<bool>)
    requires |fails| == 3
    ensures Drive(r, fails) ==
            Thread(Thread(Thread(r, fails[0]), fails[1]), fails[2])
  {
    hide Thread;
    var f1 := fails[1..];
    var f2 := f1[1..];
    assert f2[1..] == [];
    var r2 := Thread(Thread(r, fails[0]), f1[0]);
    assert Drive(r2, f2) == Drive(Thread(r2, f2[0]), []);
    assert Drive(r, fails) == Drive(Thread(r, fails[0]), f1);
  }

  lemma FlagStays(r: Run, fails: bool)
    ensures Thread(r, fails).flag == r.flag && Thread(r, fails).req == r.req
  {
  }

  /** How many actions a thread whose flag is set has left. */
  function Left(r: Run): nat {
    match r.stage
    case At(pc) =>
      var p := Program(r.req);
      if pc >= |p| then 2
      else if IsGuard(p[pc]) then 1
      else if p[pc].Send? then 2 else 3
    case Failing => 1
    case Idling => 1
    case Ended => 0
  }

  function Chances(r: Run): nat {
    if r.stage.At? && r.stage.pc < |Program(r.req)| && !IsGuard(Program(r.req)[r.stage.pc])
    then 1 else 0
  }

  lemma ToGuard(r: Run, fails: bool)
    requires RunOk(r) && r.flag
    ensures var e := Thread(r, fails);
            && Left(r) <= 3 && (Left(r) > 0 ==> Left(e) < Left(r)) && (Left(r) == 0 ==> e == r)
            && (Left(r) == 0 <==> r.stage.Ended?)
            && r.published <= e.published
            && |e.published| + Chances(e) <= |r.published| + Chances(r)
  {
    hide Program, Schedule, Sends, Waits;
    ProgramSpaced(r.req);
  }

  lemma {:induction false} GoneStays(r: Run, fails: seq<bool>)
    requires r.stage.Ended?
    ensures Drive(r, fails) == r
    decreases |fails|
  {
    if fails != [] {
      GoneStays(r, fails[1..]);
    }
  }

  lemma {:induction false} DriveOn(r: Run, a: seq<bool>, b: seq<bool>)
    ensures Drive(r, a + b) == Drive(Drive(r, a), b)
    decreases |a|
  {
    hide Thread;
    if a == [] {
      assert a + b == b;
    } else {
      assert (a + b)[0] == a[0] && (a + b)[1..] == a[1..] + b;
      DriveOn(Thread(r, a[0]), a[1..], b);
    }
  }

  /** The thread, before its next action, will leave a stop request's status as it is: it is
      gone, about to look at the flag, or has only a publication, which goes well, before that. */
  predicate Respects(r: Run, fails: bool) {
    var p := Program(r.req);
    r.stage.Ended?
    || (r.stage.At? && r.stage.pc < |p|
        && (IsGuard(p[r.stage.pc]) || (p[r.stage.pc].Send? && !fails)))
  }

  /** One action of a thread whose flag is set. */
  lemma FlaggedAction(r: Run, fails: bool)
    requires r.flag && (r.stage.At? ==> r.stage.pc <= |Program(r.req)|)
    ensures var p, e := Program(r.req), Thread(r, fails);
            && e.req == r.req && e.flag
            && match r.stage
               case At(pc) =>
                 if pc == |p| then e.stage == Idling
                 else if IsGuard(p[pc]) then e.stage == Ended && e.status == r.status
                 else if p[pc].Send? then
                   e.status == r.status && e.stage == if fails then Failing else At(pc + 1)
                 else e.stage == At(pc + 1) && e.status == p[pc].status
               case Failing => e.stage == Ended && e.status == Failed
               case Idling => e.stage == Ended && e.status == Completed
               case Ended => e == r
  {
    hide Program;
  }

  /** Where an accepted stop request leaves the status, and what becomes of the thread. */
  lemma StopOutcome(r: Run, fails: seq<bool>)
    requires RunOk(r) && r.status != Completed && r.status != Stopped && |fails| == 3
    ensures Drive(Stop(r), fails).status == Stopped <==> Respects(r, fails[0])
    ensures Drive(Stop(r), fails).stage.Ended?
  {
    hide Program, Schedule, Sends, Waits, Thread, Drive;
    ProgramSpaced(r.req);
    var s := Stop(r);
    var r1 := Thread(s, fails[0]);
    var r2 := Thread(r1, fails[1]);
    Unfold(s, fails);
    FlaggedAction(s, fails[0]);
    FlaggedAction(r1, fails[1]);
    FlaggedAction(r2, fails[2]);
  }

  /** The same for however many actions follow. */
  lemma StopOutcomeLasts(r: Run, fails: seq<bool>)
    requires RunOk(r) && r.status != Completed && r.status != Stopped && |fails| >= 3
    ensures Drive(Stop(r), fails).status == Stopped <==> Respects(r, fails[0])
  {
    hide RunOk, Respects, Stop;
    StopOutcome(r, fails[..3]);
    DriveOn(Stop(r), fails[..3], fails[3..]);
    assert fails == fails[..3] + fails[3..];
    GoneStays(Drive(Stop(r), fails[..3]), fails[3..]);
  }
}
