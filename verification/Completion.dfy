/** When a program may finish, and that it must. */
module Completion {
  import opened Common
  import opened Program
  import opened Lives

  // ----- Soundness -----

  /** No tick leaves a terminal state, or does anything at all there. */
  lemma TerminalIsFinal(id: Pid, p: Prog, env: Env, winner: Option<Pid>)
    requires p.state.Terminal() && Legal(id, p, Tick(env, winner))
    ensures TickProgram(id, p, env, winner) == Tock(p, [], None)
  {
  }

  /** Every watch of the document has a record. */
  ghost predicate FullyWatched(p: Prog) {
    p.watchState.Keys == Indices(|p.doc.watches|)
  }

  /** The program leaves `Waiting` because its trigger fired, not by command. */
  ghost predicate TriggersAt(id: Pid, p: Prog, h: Happening) {
    p.state.Waiting? && h.Tick? && h.env.captured && TriggerFires(id, p.doc.trigger, h.env) == Some(true)
  }

  lemma TickKeepsWatched(id: Pid, p: Prog, env: Env, winner: Option<Pid>)
    requires Inv(p) && Legal(id, p, Tick(env, winner)) && env.captured
    requires (FullyWatched(p) && !p.state.Waiting?) || TriggersAt(id, p, Tick(env, winner))
    ensures FullyWatched(TickProgram(id, p, env, winner).prog) && !TickProgram(id, p, env, winner).prog.state.Waiting?
  {
    AfterTriggerKeeps(id, p, env);
    var q := AfterTrigger(id, p, env);
    assert FullyWatched(q);
    if q.state.Running? {
      AfterWatchesKeeps(id, q, env, winner);
      var o := WatchPhase(id, q, env, winner);
      assert FullyWatched(AfterWatches(id, q, env, o));
      if !o.failed { AfterBodyKeeps(id, AfterWatches(id, q, env, o), env); }
    }
  }

  lemma {:induction false} WatchedEverAfter(id: Pid, ps: seq<Prog>, hs: seq<Happening>, t: nat, n: nat)
    requires Life(id, ps, hs) && t < n < |ps| && TriggersAt(id, ps[t], hs[t])
    ensures FullyWatched(ps[n]) && !ps[n].state.Waiting?
  {
    if t + 1 < n { WatchedEverAfter(id, ps, hs, t, n - 1); }
    LifeKeeps(id, ps, hs, n - 1);
    NextKeepsWatched(id, ps[n - 1], hs[n - 1]);
  }

  lemma NextKeepsWatched(id: Pid, p: Prog, h: Happening)
    requires Inv(p) && Legal(id, p, h)
    requires (FullyWatched(p) && !p.state.Waiting?) || TriggersAt(id, p, h)
    ensures FullyWatched(Next(id, p, h)) && !Next(id, p, h).state.Waiting?
  {
    if h.Tick? && h.env.captured { TickKeepsWatched(id, p, h.env, h.winner); }
  }

  /** A program started by its trigger is `Completed` only with its cursor past
      the body and every watch retired; so one with a persistent watch never is. */
  lemma CompletedMeansDone(id: Pid, ps: seq<Prog>, hs: seq<Happening>, t: nat, n: nat)
    requires Life(id, ps, hs) && t < n < |ps| && TriggersAt(id, ps[t], hs[t])
    requires ps[n].state.Completed?
    ensures ps[n].Cursor() >= |ps[0].doc.body|
    ensures forall i :: 0 <= i < |ps[0].doc.watches| ==>
      ps[n].Watching(i).retired && !ps[0].doc.watches[i].lifetime.Persistent?
  {
    LifeKeeps(id, ps, hs, n);
    WatchedEverAfter(id, ps, hs, t, n);
    forall i | 0 <= i < |ps[0].doc.watches|
      ensures ps[n].Watching(i).retired && !ps[0].doc.watches[i].lifetime.Persistent?
    {
      assert i !in ps[n].ActiveWatches();
    }
  }

  /** The happening that gives watch `i` a record: the trigger, which makes one for every
      watch, or a tick of the running program in which the watch gave a result or was
      tripped. */
  ghost predicate GetsRecord(id: Pid, p: Prog, h: Happening, i: nat) {
    && h.Tick? && h.env.captured && i < |p.doc.watches|
    && var q := AfterTrigger(id, p, h.env);
    TriggersAt(id, p, h) || (q.state.Running? && Touched(id, q, i, h.env))
  }

  lemma RecordAppears(id: Pid, p: Prog, h: Happening, i: nat)
    requires Inv(p) && Legal(id, p, h) && i < |p.doc.watches|
    ensures i in Next(id, p, h).watchState <==> i in p.watchState || GetsRecord(id, p, h, i)
  {
    if h.Tick? && h.env.captured {
      AfterTriggerKeeps(id, p, h.env);
      var q := AfterTrigger(id, p, h.env);
      if q.state.Running? { TickRecords(id, q, h.env, h.winner, i); }
    }
  }

  lemma TickRecords(id: Pid, q: Prog, env: Env, winner: Option<Pid>, i: nat)
    requires Inv(q) && q.state.Running? && i < |q.doc.watches| && (Contends(id, q, env) ==> winner.Some?)
    ensures var r := AfterWatches(id, q, env, WatchPhase(id, q, env, winner));
            && (i in r.watchState <==> i in q.watchState || Touched(id, q, i, env))
            && AfterBody(id, r, env).watchState == r.watchState
  {
  }

  /** A record exists exactly when something gave it. */
  lemma {:induction false} RecordsComeFrom(id: Pid, ps: seq<Prog>, hs: seq<Happening>, n: nat, i: nat)
    requires Life(id, ps, hs) && n < |ps| && i < |ps[0].doc.watches|
    ensures i in ps[n].watchState <==> exists t :: 0 <= t < n && GetsRecord(id, ps[t], hs[t], i)
  {
    LifeKeeps(id, ps, hs, n);
    if n > 0 {
      RecordsComeFrom(id, ps, hs, n - 1, i);
      LifeKeeps(id, ps, hs, n - 1);
      RecordAppears(id, ps[n - 1], hs[n - 1], i);
    }
  }

  /** However a program was started, on completion a watch is retired exactly when some
      earlier happening gave it a record. */
  lemma CompletedLeavesOnlyUnrecorded(id: Pid, ps: seq<Prog>, hs: seq<Happening>, n: nat, i: nat)
    requires Life(id, ps, hs) && n < |ps| && ps[n].state.Completed? && i < |ps[0].doc.watches|
    ensures ps[n].BodyComplete()
    ensures ps[n].Watching(i).retired <==> exists t :: 0 <= t < n && GetsRecord(id, ps[t], hs[t], i)
  {
    LifeKeeps(id, ps, hs, n);
    RecordsComeFrom(id, ps, hs, n, i);
    assert i !in ps[n].ActiveWatches();
  }

  /** So a program with a persistent watch completes only if its trigger never started it
      and, in every tick it ran, that watch gave no result. */
  lemma PersistentCompletesOnlyUnseen(id: Pid, ps: seq<Prog>, hs: seq<Happening>, n: nat, i: nat, t: nat)
    requires Life(id, ps, hs) && n < |ps| && ps[n].state.Completed? && i < |ps[0].doc.watches| && t < n
    requires ps[0].doc.watches[i].lifetime.Persistent?
    ensures !TriggersAt(id, ps[t], hs[t])
    ensures hs[t].Tick? && hs[t].env.captured ==>
      var q := AfterTrigger(id, ps[t], hs[t].env);
      q.state.Running? ==> i < |q.doc.watches| && LookAt(id, q, i, hs[t].env).NoResult?
  {
    LifeKeeps(id, ps, hs, n);
    LifeKeeps(id, ps, hs, t);
    CompletedLeavesOnlyUnrecorded(id, ps, hs, n, i);
    assert !GetsRecord(id, ps[t], hs[t], i);
    if hs[t].Tick? && hs[t].env.captured { AfterTriggerKeeps(id, ps[t], hs[t].env); }
  }

  /** Without the trigger the guarantee fails: a manual program with one persistent
      watch, sent `Start`, completes on its first tick when that watch's predicate
      has no result, because no record of the watch was ever made. */
  lemma StartedProgramMayCompleteWithLiveWatch(id: Pid) returns (ps: seq<Prog>, hs: seq<Happening>)
    ensures Life(id, ps, hs) && |ps| == 3 && hs[0].StartCommand? && ps[2].state.Completed?
    ensures |ps[0].doc.watches| == 1 && ps[0].doc.watches[0].lifetime.Persistent? && !ps[2].Watching(0).retired
  {
    var doc := Document(Manual, [Watch(ByName("missing"), [], 0, Persistent)], [], 0);
    var env := Env(true, 0, (i, r) => None, (i, e) => Err(ExpressionUnresolved), (i, k) => true, i => true);
    var p0 := PendingProg(doc).(state := Waiting);
    hs := [StartCommand(0), Tick(env, None)];
    var p1 := Next(id, p0, hs[0]);
    assert LookAt(id, p1, 0, env) == NoResult;
    assert FirstFire(id, p1, env).None?;
    var p2 := Next(id, p1, hs[1]);
    assert ObservedAll(id, p1, env) == map[];
    ps := [p0, p1, p2];
  }

  // ----- Bounded completion -----

  /** max(1, ceil(ms / d)). */
  ghost function Ticks(ms: int, d: int): nat
    requires d > 0
    decreases ms
  {
    if ms <= d then 1 else 1 + Ticks(ms - d, d)
  }

  lemma {:induction false} TicksIsCeiling(ms: int, d: int)
    requires d > 0
    ensures Ticks(ms, d) * d >= ms
    ensures Ticks(ms, d) > 1 ==> (Ticks(ms, d) - 1) * d < ms
    decreases ms
  {
    if ms > d { TicksIsCeiling(ms - d, d); }
  }

  lemma {:induction false} TicksMonotone(a: int, b: int, d: int)
    requires d > 0 && a <= b
    ensures Ticks(a, d) <= Ticks(b, d)
    decreases b
  {
    if a > d { TicksMonotone(a - d, b - d, d); }
  }

  /** Ticks a step may take when the clock advances at least `d` ms per tick. */
  ghost function StepCost(step: Step, d: int): nat
    requires d > 0
  {
    match step
    case SleepMs(ms) => 1 + Ticks(ms, d)
    case WaitFor(_, ms, _) => 1 + Ticks(ms, d)
    case _ => 1
  }

  ghost function BodyCost(body: seq<Step>, from: nat, d: int): nat
    requires d > 0
    decreases |body| - from
  {
    if from >= |body| then 0 else StepCost(body[from], d) + BodyCost(body, from + 1, d)
  }

  /** Ticks left for a running program whose last tick was at `last`. */
  ghost function Left(p: Prog, last: int, d: int): nat
    requires d > 0
  {
    match p.deferred
    case Some(Sleep(wakeAt)) => Ticks(wakeAt - last, d) + BodyCost(p.doc.body, p.Cursor() + 1, d)
    case Some(Wait(_, deadline, _)) => Ticks(deadline - last, d) + BodyCost(p.doc.body, p.Cursor() + 1, d)
    case None => var c := BodyCost(p.doc.body, p.Cursor(), d); if c < 1 then 1 else c
  }

  ghost predicate Quiet(p: Prog) {
    Inv(p) && p.doc.watches == [] && (p.state.Running? || p.state.Completed? || p.state.Failed?)
  }

  lemma BodyStepSpends(id: Pid, p: Prog, env: Env, d: int, last: int)
    requires Quiet(p) && p.state.Running? && d > 0
    requires I64_MIN <= env.now && last + d <= env.now
    ensures var p' := AfterBody(id, p, env);
            p'.state.Completed? || p'.state.Failed? || (p'.state.Running? && Left(p', env.now, d) < Left(p, last, d))
  {
    assert p.ActiveWatches() == {};
    var p' := AfterBody(id, p, env);
    if p'.state.Running? && p'.deferred.Some? {
      var end := match p'.deferred.value case Sleep(w) => w case Wait(_, w, _) => w;
      if p.deferred.Some? {
        TicksMonotone(end - env.now, end - last - d, d);
      } else {
        var ms := match p.doc.body[p.Cursor()] case SleepMs(ms) => ms case WaitFor(_, ms, _) => ms case _ => 0;
        TicksMonotone(end - env.now, ms, d);
      }
    }
  }

  lemma QuietTick(id: Pid, p: Prog, env: Env, winner: Option<Pid>)
    requires Quiet(p) && p.state.Running? && env.captured
    ensures Legal(id, p, Tick(env, winner))
    ensures Next(id, p, Tick(env, winner)) == AfterBody(id, p, env)
  {
    assert FirstFire(id, p, env).None?;
    assert ObservedAll(id, p, env) == p.watchState;
  }

  /** Consecutive successful ticks, no commands, at least `d` ms apart. */
  ghost predicate QuietRun(id: Pid, ps: seq<Prog>, hs: seq<Happening>, d: int) {
    && |ps| == |hs| + 1
    && Quiet(ps[0]) && d > 0
    && (forall t :: 0 <= t < |hs| ==> hs[t].Tick? && hs[t].env.captured && I64_MIN <= hs[t].env.now)
    && (forall t :: 0 <= t < |hs| ==> Legal(id, ps[t], hs[t]) && ps[t + 1] == Next(id, ps[t], hs[t]))
    && (forall t :: 0 < t < |hs| ==> hs[t - 1].env.now + d <= hs[t].env.now)
  }

  lemma {:induction false} QuietRunSpends(id: Pid, ps: seq<Prog>, hs: seq<Happening>, d: int, n: nat)
    requires QuietRun(id, ps, hs, d) && 0 < |hs| && n < |ps|
    ensures Quiet(ps[n])
    ensures var start := hs[0].env.now - d;
            ps[n].state.Running? ==>
              ps[0].state.Running? && Left(ps[n], if n == 0 then start else hs[n - 1].env.now, d) + n <= Left(ps[0], start, d)
  {
    if n > 0 {
      QuietRunSpends(id, ps, hs, d, n - 1);
      var p, h := ps[n - 1], hs[n - 1];
      NextKeeps(id, p, h);
      if p.state.Running? {
        QuietTick(id, p, h.env, h.winner);
        BodyStepSpends(id, p, h.env, d, if n == 1 then hs[0].env.now - d else hs[n - 2].env.now);
      } else {
        TerminalIsFinal(id, p, h.env, h.winner);
      }
    }
  }

  /** A watch-free running program reaches `Completed` or `Failed` within the ticks left
      to it: max(1, cost of the remaining steps), or, when a sleep or a wait is pending,
      what is left of that and the steps behind it. */
  lemma BoundedCompletion(id: Pid, ps: seq<Prog>, hs: seq<Happening>, d: int)
    requires QuietRun(id, ps, hs, d)
    requires |hs| >= 1 && |hs| >= Left(ps[0], hs[0].env.now - d, d)
    ensures ps[|hs|].state.Completed? || ps[|hs|].state.Failed?
  {
    QuietRunSpends(id, ps, hs, d, |hs|);
  }
}
