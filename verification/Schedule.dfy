/** The load profile of a benchmark run: five phases, the second of which ramps up in steps.
    Phase factors and the ramp increment are exact rationals. */
module Schedules {
  import opened Arithmetic

  datatype RunStatus =
    Pending | Warmup | Ramping | Sustained | Cooldown | Completed | Stopped | Failed

  datatype Profile = Profile(rate: int, limitRatio: real, marketRatio: real, cancelRatio: real,
                             symbols: seq<string>)

  datatype Request = Request(runId: string, endpoint: string, bots: int, seconds: int,
                             profile: Profile)

  datatype Assignment = Assignment(runId: string, endpoint: string, bots: int, phase: string,
                                   ms: int, profile: Profile)

  datatype PhaseSpec = PhaseSpec(name: string, status: RunStatus, bots: int, ms: int, ramp: bool)

  /** What a phase thread does, one visible action at a time. */
  datatype Instr =
    | Check                                       // look at the cancel flag
    | SetPhase(name: string, status: RunStatus)
    | Send(a: Assignment)
    | Pause(ms: int)                              // a timed wait that a set flag cuts short

  const STEP_MS := 2000

  /** The least integer not below `n` tenths. */
  function CeilTenth(n: int): (c: int)
    ensures 10 * (c - 1) < n <= 10 * c
  {
    -((-n) / 10)
  }

  /** The integer nearest to `a / n`, halves away from zero. */
  function Nearest(a: int, n: int): (r: int)
    requires n > 0
    ensures -n <= 2 * (a - r * n) <= n
  {
    if a >= 0 then HalfUp(a, n) else -HalfUp(-a, n)
  }

  function HalfUp(a: int, n: int): (r: int)
    requires n > 0
    ensures -n <= 2 * (a - r * n) < n
  {
    var r := (2 * a + n) / (2 * n);
    assert 2 * a + n == r * (2 * n) + (2 * a + n) % (2 * n);
    assert r * (2 * n) == 2 * (r * n);
    r
  }

  // ---- Phases ----

  function WarmupBots(req: Request): int {
    Max(1, CeilTenth(req.bots))
  }

  function Phases(req: Request): seq<PhaseSpec> {
    var total := req.seconds * 1000;
    var tenth, fifth := total / 10, 2 * total / 10;
    [PhaseSpec("warmup", Warmup, WarmupBots(req), tenth, false),
     PhaseSpec("ramp", Ramping, req.bots, fifth, true),
     PhaseSpec("peak", Sustained, req.bots, total - tenth - fifth - fifth - tenth, false),
     PhaseSpec("burst", Sustained, req.bots * 2, fifth, false),
     PhaseSpec("cooldown", Cooldown, WarmupBots(req), tenth, false)]
  }

  function AssignmentFor(req: Request, phase: string, bots: int, ms: int): Assignment {
    var rate := if phase == "burst" then req.profile.rate * 2 else req.profile.rate;
    Assignment(req.runId, req.endpoint, bots, phase, ms, req.profile.(rate := rate))
  }

  // ---- Ramp ----

  function RampSteps(ms: int): (n: int)
    ensures n >= 1
  {
    if ms >= STEP_MS then ms / STEP_MS else 1
  }

  function RampBots(req: Request, ms: int, step: nat): int {
    var n := RampSteps(ms);
    var grown := WarmupBots(req) + Nearest(step * (req.bots - WarmupBots(req)), n);
    Max(Min(grown, req.bots), 1)
  }

  function RampAssignment(req: Request, ms: int, step: nat): Assignment {
    AssignmentFor(req, "ramp", RampBots(req, ms, step), Max(STEP_MS, ms - step * STEP_MS))
  }

  lemma NearestMonotone(a: int, b: int, n: int)
    requires n > 0 && a <= b
    ensures Nearest(a, n) <= Nearest(b, n)
  {
    if a >= 0 {
      HalfUpMonotone(a, b, n);
    } else if b < 0 {
      HalfUpMonotone(-b, -a, n);
    } else {
      HalfUpMonotone(0, b, n);
      HalfUpMonotone(0, -a, n);
      HalfUpExact(0, n);
    }
  }

  lemma HalfUpMonotone(a: int, b: int, n: int)
    requires n > 0 && a <= b
    ensures HalfUp(a, n) <= HalfUp(b, n)
  {
    var p, q := HalfUp(a, n), HalfUp(b, n);
    assert (q + 1) * n == q * n + n;
    if p > q {
      Scales(q + 1, p, n);
    }
  }

  lemma HalfUpExact(k: int, n: int)
    requires n > 0
    ensures HalfUp(k * n, n) == k
  {
    var r := HalfUp(k * n, n);
    assert (k + 1) * n == k * n + n && (k - 1) * n == k * n - n;
    if r > k {
      Scales(k + 1, r, n);
    }
    if r < k {
      Scales(r, k - 1, n);
    }
  }

  lemma NearestExact(k: int, n: int)
    requires n > 0
    ensures Nearest(k * n, n) == k
  {
    if k >= 0 {
      HalfUpExact(k, n);
    } else {
      HalfUpExact(-k, n);
      assert -(k * n) == (-k) * n;
    }
    Scales(0, Max(k, -k), n);
  }

  /** The ramp starts at the warmup count, never goes back, stays between warmup and target,
      and ends exactly at the target. */
  lemma RampClimbs(req: Request, ms: int, j: nat, k: nat)
    requires req.bots >= 1 && j <= k <= RampSteps(ms)
    ensures RampBots(req, ms, 0) == WarmupBots(req)
    ensures RampBots(req, ms, RampSteps(ms)) == req.bots
    ensures WarmupBots(req) <= RampBots(req, ms, j) <= RampBots(req, ms, k) <= req.bots
  {
    var n, w := RampSteps(ms), WarmupBots(req);
    var d := req.bots - w;
    assert d >= 0;
    NearestExact(0, n);
    NearestExact(d, n);
    assert 0 * d == 0 * n == 0 && d * n == n * d;
    Scales(0, j, d);
    Scales(j, k, d);
    Scales(k, n, d);
    NearestMonotone(0, j * d, n);
    NearestMonotone(j * d, k * d, n);
    NearestMonotone(k * d, n * d, n);
  }

  /** `bots`, at step `k` of `n`, is the whole number nearest to the straight line from the
      warmup count to the target, or one of the two nearest. */
  ghost predicate OnLine(warmup: int, target: int, n: int, k: int, bots: int) {
    -n <= 2 * (n * (bots - warmup) - k * (target - warmup)) <= n
  }

  /** Every step of the ramp follows the straight line from warmup to target. */
  lemma RampFollowsLine(req: Request, ms: int, k: nat)
    requires req.bots >= 1 && k <= RampSteps(ms)
    ensures OnLine(WarmupBots(req), req.bots, RampSteps(ms), k, RampBots(req, ms, k))
  {
    hide RampSteps, WarmupBots, Nearest;
    WarmupAtMost(req);
    var n, w := RampSteps(ms), WarmupBots(req);
    var d := req.bots - w;
    var r := Nearest(k * d, n);
    NearestExact(0, n);
    NearestExact(d, n);
    assert 0 * n == 0 && d * n == n * d;
    Scales(0, k, d);
    Scales(k, n, d);
    NearestMonotone(0, k * d, n);
    NearestMonotone(k * d, n * d, n);
    assert r * n == n * r;
  }

  lemma WarmupAtMost(req: Request)
    requires req.bots >= 1
    ensures 1 <= WarmupBots(req) <= req.bots
  {
  }

  // ---- The whole run as one straight program ----

  function RampFrom(req: Request, ms: int, step: nat): seq<Instr>
    requires step <= RampSteps(ms)
    decreases RampSteps(ms) - step
  {
    [Check, Send(RampAssignment(req, ms, step))] +
    if step < RampSteps(ms) then [Pause(STEP_MS)] + RampFrom(req, ms, step + 1) else []
  }

  function PhaseProgram(req: Request, p: PhaseSpec): seq<Instr> {
    [Check, SetPhase(p.name, p.status)] +
    if p.ramp then RampFrom(req, p.ms, 0)
    else [Send(AssignmentFor(req, p.name, p.bots, p.ms)), Pause(p.ms)]
  }

  function ProgramOf(req: Request, ps: seq<PhaseSpec>): seq<Instr> {
    if ps == [] then [] else PhaseProgram(req, ps[0]) + ProgramOf(req, ps[1..])
  }

  function Program(req: Request): seq<Instr> {
    ProgramOf(req, Phases(req))
  }

  function Sends(p: seq<Instr>): seq<Assignment> {
    if p == [] then []
    else (if p[0].Send? then [p[0].a] else []) + Sends(p[1..])
  }

  function Waits(p: seq<Instr>): int {
    if p == [] then 0 else (if p[0].Pause? then p[0].ms else 0) + Waits(p[1..])
  }

  lemma {:induction false} SendsConcat(a: seq<Instr>, b: seq<Instr>)
    ensures Sends(a + b) == Sends(a) + Sends(b) && Waits(a + b) == Waits(a) + Waits(b)
  {
    hide Sends, Waits;
    if a == [] {
      SendsNil();
      assert a + b == b;
    } else {
      SendsCons(a[0], a[1..]);
      SendsCons(a[0], a[1..] + b);
      assert a == [a[0]] + a[1..] && a + b == [a[0]] + (a[1..] + b);
      SendsConcat(a[1..], b);
    }
  }

  /** The assignments of the ramp from `step` on. */
  function RampTail(req: Request, ms: int, step: nat): (s: seq<Assignment>)
    requires step <= RampSteps(ms)
    ensures |s| == RampSteps(ms) + 1 - step
    ensures forall i :: 0 <= i < |s| ==> s[i] == RampAssignment(req, ms, step + i)
    decreases RampSteps(ms) - step
  {
    [RampAssignment(req, ms, step)] +
    if step < RampSteps(ms) then RampTail(req, ms, step + 1) else []
  }

  /** What a run that is left alone publishes. */
  function Schedule(req: Request): seq<Assignment> {
    [PhaseAssignment(req, 0)]
    + RampTail(req, Phases(req)[1].ms, 0)
    + [PhaseAssignment(req, 2), PhaseAssignment(req, 3), PhaseAssignment(req, 4)]
  }

  function PhaseAssignment(req: Request, k: nat): Assignment
    requires k < 5
  {
    var p := Phases(req)[k];
    AssignmentFor(req, p.name, p.bots, p.ms)
  }

  lemma SendsCons(i: Instr, p: seq<Instr>)
    ensures Sends([i] + p) == (if i.Send? then [i.a] else []) + Sends(p)
    ensures Waits([i] + p) == (if i.Pause? then i.ms else 0) + Waits(p)
  {
    assert ([i] + p)[1..] == p;
  }

  lemma {:induction false} RampSends(req: Request, ms: int, step: nat)
    requires step <= RampSteps(ms)
    ensures Sends(RampFrom(req, ms, step)) == RampTail(req, ms, step)
    ensures Waits(RampFrom(req, ms, step)) == (RampSteps(ms) - step) * STEP_MS
    decreases RampSteps(ms) - step
  {
    hide RampSteps, RampAssignment, Sends, Waits;
    SendsNil();
    var n := RampSteps(ms);
    var send := Send(RampAssignment(req, ms, step));
    var rest := if step < n then [Pause(STEP_MS)] + RampFrom(req, ms, step + 1) else [];
    assert RampFrom(req, ms, step) == [Check] + ([send] + rest);
    SendsCons(Check, [send] + rest);
    SendsCons(send, rest);
    if step < n {
      RampSends(req, ms, step + 1);
      SendsCons(Pause(STEP_MS), RampFrom(req, ms, step + 1));
    }
  }

  lemma SendsNil()
    ensures Sends([]) == [] && Waits([]) == 0
  {
  }

  lemma PlainSends(req: Request, p: PhaseSpec)
    requires !p.ramp
    ensures Sends(PhaseProgram(req, p)) == [AssignmentFor(req, p.name, p.bots, p.ms)]
    ensures Waits(PhaseProgram(req, p)) == p.ms
  {
    hide Sends, Waits;
    SendsNil();
    var send, pause := Send(AssignmentFor(req, p.name, p.bots, p.ms)), Pause(p.ms);
    assert PhaseProgram(req, p) == [Check] + ([SetPhase(p.name, p.status)] + ([send] + ([pause] + [])));
    SendsCons(Check, [SetPhase(p.name, p.status)] + ([send] + ([pause] + [])));
    SendsCons(SetPhase(p.name, p.status), [send] + ([pause] + []));
    SendsCons(send, [pause] + []);
    SendsCons(pause, []);
  }

  lemma PhaseSends(req: Request, p: PhaseSpec)
    requires p.ramp
    ensures Sends(PhaseProgram(req, p)) == RampTail(req, p.ms, 0)
    ensures Waits(PhaseProgram(req, p)) == RampSteps(p.ms) * STEP_MS
  {
    hide Sends, Waits;
    var ramp := RampFrom(req, p.ms, 0);
    assert PhaseProgram(req, p) == [Check] + ([SetPhase(p.name, p.status)] + ramp);
    SendsCons(Check, [SetPhase(p.name, p.status)] + ramp);
    SendsCons(SetPhase(p.name, p.status), ramp);
    RampSends(req, p.ms, 0);
  }

  /** The program publishes the schedule and nothing else. */
  lemma ProgramSends(req: Request)
    ensures Sends(Program(req)) == Schedule(req)
    ensures Waits(Program(req)) == 800 * req.seconds + STEP_MS * RampSteps(200 * req.seconds)
  {
    hide PhaseProgram, ProgramOf, RampSteps, RampTail, AssignmentFor, Sends, Waits;
    var ps := Phases(req);
    PlainSends(req, ps[0]);
    PhaseSends(req, ps[1]);
    PlainSends(req, ps[2]);
    PlainSends(req, ps[3]);
    PlainSends(req, ps[4]);
    FivePhases(req, ps);
  }

  lemma FivePhases(req: Request, ps: seq<PhaseSpec>)
    requires |ps| == 5
    ensures var q := ProgramOf(req, ps);
            && Sends(q) == Sends(PhaseProgram(req, ps[0])) + Sends(PhaseProgram(req, ps[1]))
                           + Sends(PhaseProgram(req, ps[2])) + Sends(PhaseProgram(req, ps[3]))
                           + Sends(PhaseProgram(req, ps[4]))
            && Waits(q) == Waits(PhaseProgram(req, ps[0])) + Waits(PhaseProgram(req, ps[1]))
                           + Waits(PhaseProgram(req, ps[2])) + Waits(PhaseProgram(req, ps[3]))
                           + Waits(PhaseProgram(req, ps[4]))
  {
    hide PhaseProgram, Sends, Waits;
    SendsNil();
    var p1 := ps[1..];
    var p2 := p1[1..];
    var p3 := p2[1..];
    var p4 := p3[1..];
    SendsConcat(PhaseProgram(req, ps[0]), ProgramOf(req, p1));
    SendsConcat(PhaseProgram(req, p1[0]), ProgramOf(req, p2));
    SendsConcat(PhaseProgram(req, p2[0]), ProgramOf(req, p3));
    SendsConcat(PhaseProgram(req, p3[0]), ProgramOf(req, p4));
    SendsConcat(PhaseProgram(req, p4[0]), []);
    assert p4[1..] == [];
    assert ProgramOf(req, p4) == PhaseProgram(req, p4[0]) + [];
  }

  /** The warmup takes a tenth of the bots, rounded up, and at least one. */
  lemma WarmupIsATenth(req: Request, w: int)
    ensures w == WarmupBots(req) <==>
            w >= 1 && 10 * w >= req.bots && (w == 1 || 10 * (w - 1) < req.bots)
  {
  }

  /** The schedule in figures.  The planned phases add up to the duration asked for; only the
      burst doubles rate and bots; every ramp assignment lasts at least to the next one. */
  lemma ScheduleInFigures(req: Request)
    requires req.seconds >= 1
    ensures var s, n, d := Schedule(req), RampSteps(200 * req.seconds), req.seconds;
            var w, p := WarmupBots(req), req.profile;
            && |s| == n + 5 && n == (if d >= 10 then d / 10 else 1)
            && s[0] == Assignment(req.runId, req.endpoint, w, "warmup", 100 * d, p)
            && (forall j :: 0 <= j <= n ==>
                  var ms := if j < n && d >= 10 then 200 * d - 2000 * j else 2000;
                  && s[j + 1] == Assignment(req.runId, req.endpoint, s[j + 1].bots, "ramp", ms, p)
                  && (req.bots >= 1 ==> OnLine(w, req.bots, n, j, s[j + 1].bots)))
            && s[n + 2] == Assignment(req.runId, req.endpoint, req.bots, "peak", 400 * d, p)
            && s[n + 3] == Assignment(req.runId, req.endpoint, 2 * req.bots, "burst", 200 * d,
                                      p.(rate := 2 * p.rate))
            && s[n + 4] == Assignment(req.runId, req.endpoint, w, "cooldown", 100 * d, p)
  {
    hide RampBots, WarmupBots, OnLine;
    var n, d := RampSteps(200 * req.seconds), req.seconds;
    var s := Schedule(req);
    assert Phases(req)[1].ms == 200 * d;
    var tail := RampTail(req, 200 * d, 0);
    forall j | 0 <= j <= n
      ensures s[j + 1] == RampAssignment(req, 200 * d, j)
      ensures s[j + 1].ms == if j < n && d >= 10 then 200 * d - 2000 * j else 2000
      ensures req.bots >= 1 ==> OnLine(WarmupBots(req), req.bots, n, j, s[j + 1].bots)
    {
      assert s[j + 1] == tail[j];
      if req.bots >= 1 {
        RampFollowsLine(req, 200 * d, j);
      }
    }
  }

  /** An uncancelled run waits for its duration, short by less than one ramp step, if and only
      if it was asked to last ten seconds or more; below that it overruns. */
  lemma RunLasts(req: Request)
    requires req.seconds >= 1
    ensures var asked, waits := req.seconds * 1000, Waits(Program(req));
            && (req.seconds >= 10 <==> asked - STEP_MS < waits <= asked)
            && (req.seconds < 10 <==> waits > asked)
  {
    ProgramSends(req);
  }

  function PhaseChanges(p: seq<Instr>): seq<(string, RunStatus)> {
    if p == [] then []
    else (if p[0].SetPhase? then [(p[0].name, p[0].status)] else []) + PhaseChanges(p[1..])
  }

  lemma PhaseChangesCons(i: Instr, p: seq<Instr>)
    ensures PhaseChanges([i] + p) == (if i.SetPhase? then [(i.name, i.status)] else []) + PhaseChanges(p)
  {
    assert ([i] + p)[1..] == p;
  }

  lemma NoPhaseChange()
    ensures PhaseChanges([]) == []
  {
  }

  lemma {:induction false} PhaseChangesConcat(a: seq<Instr>, b: seq<Instr>)
    ensures PhaseChanges(a + b) == PhaseChanges(a) + PhaseChanges(b)
  {
    hide PhaseChanges;
    if a == [] {
      NoPhaseChange();
      assert a + b == b;
    } else {
      PhaseChangesCons(a[0], a[1..]);
      PhaseChangesCons(a[0], a[1..] + b);
      assert a == [a[0]] + a[1..] && a + b == [a[0]] + (a[1..] + b);
      PhaseChangesConcat(a[1..], b);
    }
  }

  lemma {:induction false} RampChangesNothing(req: Request, ms: int, step: nat)
    requires step <= RampSteps(ms)
    ensures PhaseChanges(RampFrom(req, ms, step)) == []
    decreases RampSteps(ms) - step
  {
    hide RampSteps, RampAssignment, PhaseChanges;
    NoPhaseChange();
    var send := Send(RampAssignment(req, ms, step));
    var rest := if step < RampSteps(ms) then [Pause(STEP_MS)] + RampFrom(req, ms, step + 1) else [];
    assert RampFrom(req, ms, step) == [Check] + ([send] + rest);
    PhaseChangesCons(Check, [send] + rest);
    PhaseChangesCons(send, rest);
    if step < RampSteps(ms) {
      RampChangesNothing(req, ms, step + 1);
      PhaseChangesCons(Pause(STEP_MS), RampFrom(req, ms, step + 1));
    }
  }

  lemma PhaseChangesOnce(req: Request, p: PhaseSpec)
    ensures PhaseChanges(PhaseProgram(req, p)) == [(p.name, p.status)]
  {
    hide PhaseChanges;
    NoPhaseChange();
    var send, pause := Send(AssignmentFor(req, p.name, p.bots, p.ms)), Pause(p.ms);
    var body := if p.ramp then RampFrom(req, p.ms, 0) else [send] + ([pause] + []);
    assert PhaseProgram(req, p) == [Check] + ([SetPhase(p.name, p.status)] + body);
    PhaseChangesCons(Check, [SetPhase(p.name, p.status)] + body);
    PhaseChangesCons(SetPhase(p.name, p.status), body);
    if p.ramp {
      RampChangesNothing(req, p.ms, 0);
    } else {
      PhaseChangesCons(send, [pause] + []);
      PhaseChangesCons(pause, []);
    }
  }

  /** The phases a run reports on its way, with the status of each. */
  lemma ReportedPhases(req: Request)
    ensures PhaseChanges(Program(req)) ==
            [("warmup", Warmup), ("ramp", Ramping), ("peak", Sustained), ("burst", Sustained),
             ("cooldown", Cooldown)]
  {
    hide PhaseProgram, PhaseChanges;
    var ps := Phases(req);
    forall i | 0 <= i < 5 ensures PhaseChanges(PhaseProgram(req, ps[i])) == [(ps[i].name, ps[i].status)] {
      PhaseChangesOnce(req, ps[i]);
    }
    ChangesOfAll(req, ps, 0);
  }

  lemma {:induction false} ChangesOfAll(req: Request, ps: seq<PhaseSpec>, i: nat)
    requires i <= |ps|
    ensures |PhaseChanges(ProgramOf(req, ps[i..]))| == |ps| - i
    ensures forall k :: 0 <= k < |ps| - i ==>
              PhaseChanges(ProgramOf(req, ps[i..]))[k] == (ps[i + k].name, ps[i + k].status)
    decreases |ps| - i
  {
    hide PhaseProgram;
    if i < |ps| {
      assert ps[i..][0] == ps[i] && ps[i..][1..] == ps[i + 1..];
      ChangesOfAll(req, ps, i + 1);
      PhaseChangesOnce(req, ps[i]);
      PhaseChangesConcat(PhaseProgram(req, ps[i]), ProgramOf(req, ps[i + 1..]));
    }
  }

  /** A run of one second waits for nearly three. */
  lemma OneSecondOverruns(req: Request)
    requires req.seconds == 1
    ensures Waits(Program(req)) == 2800
  {
    ProgramSends(req);
  }
}
