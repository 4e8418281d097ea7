/** What one tick does for one program, told by what comes out of it: the inputs and events
    it sends and the record it leaves. */
module Conduct {
  import opened Common
  import opened Program
  import opened Lives
  import opened Bodies

  // ----- Reading the effects -----

  /** The inputs watch `i` sent, in order. */
  ghost function WatchSends(i: nat, es: seq<Effect>): seq<InputCall> {
    if es == [] then []
    else
      var e := es[|es| - 1];
      WatchSends(i, es[..|es| - 1]) + if e.Sent? && e.origin == ByWatch(i) then [e.call] else []
  }

  /** The steps announced as dispatched, in order. */
  ghost function Attempts(es: seq<Effect>): seq<Step> {
    if es == [] then []
    else
      var e := es[|es| - 1];
      Attempts(es[..|es| - 1]) + if e.Emit? && e.event.ActionDispatched? then [e.event.step] else []
  }

  lemma {:induction false} WatchSendsConcat(i: nat, a: seq<Effect>, b: seq<Effect>)
    ensures WatchSends(i, a + b) == WatchSends(i, a) + WatchSends(i, b)
  {
    if b == [] {
      assert a + b == a;
    } else {
      WatchSendsConcat(i, a, b[..|b| - 1]);
      assert (a + b)[..|a + b| - 1] == a + b[..|b| - 1];
    }
  }

  lemma {:induction false} AttemptsConcat(a: seq<Effect>, b: seq<Effect>)
    ensures Attempts(a + b) == Attempts(a) + Attempts(b)
  {
    if b == [] {
      assert a + b == a;
    } else {
      AttemptsConcat(a, b[..|b| - 1]);
      assert (a + b)[..|a + b| - 1] == a + b[..|b| - 1];
    }
  }

  lemma ReadsConcat(i: nat, a: seq<Effect>, b: seq<Effect>)
    ensures WatchSends(i, a + b) == WatchSends(i, a) + WatchSends(i, b) && Attempts(a + b) == Attempts(a) + Attempts(b)
  {
    WatchSendsConcat(i, a, b);
    AttemptsConcat(a, b);
  }

  /** No input by a watch and no dispatch announced. */
  ghost predicate Undispatched(es: seq<Effect>) {
    forall e :: e in es ==> !(e.Sent? && e.origin.ByWatch?) && !(e.Emit? && e.event.ActionDispatched?)
  }

  lemma {:induction false} UndispatchedReads(i: nat, es: seq<Effect>)
    requires Undispatched(es)
    ensures WatchSends(i, es) == [] && Attempts(es) == []
  {
    if es != [] { UndispatchedReads(i, es[..|es| - 1]); }
  }

  /** Undispatched effects around others do not show. */
  lemma ReadsMiddle(i: nat, a: seq<Effect>, es: seq<Effect>, b: seq<Effect>)
    requires Undispatched(a) && Undispatched(b)
    ensures WatchSends(i, a + es) == WatchSends(i, es) && Attempts(a + es) == Attempts(es)
    ensures WatchSends(i, a + es + b) == WatchSends(i, es) && Attempts(a + es + b) == Attempts(es)
  {
    UndispatchedReads(i, a);
    UndispatchedReads(i, b);
    ReadsConcat(i, a, es);
    ReadsConcat(i, a + es, b);
  }

  // ----- A burst of watch steps -----

  /** The step cannot be performed. */
  ghost predicate Blocked(id: Pid, step: Step, env: Env, accepted: bool) {
    exists e :: StepFails(id, step, env, accepted, e)
  }

  /** How far the steps get: all before the `n`-th can be performed, the `n`-th cannot. */
  ghost predicate Reaches(id: Pid, steps: seq<Step>, env: Env, n: nat) {
    && n <= |steps|
    && (forall j: nat :: j < n ==> !Blocked(id, steps[j], env, env.watchSink(id, j)))
    && (n < |steps| ==> Blocked(id, steps[n], env, env.watchSink(id, n)))
  }

  /** `calls` are what `steps` ask for, one each, in order. */
  ghost predicate Enacts(id: Pid, steps: seq<Step>, env: Env, calls: seq<InputCall>) {
    |calls| == |steps| && forall j :: 0 <= j < |steps| ==> Performs(id, steps[j], env, calls[j])
  }

  /** A burst from step `k` on that gets to step `n`. */
  ghost predicate BurstIs(id: Pid, watch: nat, steps: seq<Step>, env: Env, k: nat, n: nat, b: Burst) {
    && k <= n <= |steps|
    && (forall j: nat :: k <= j < n ==> !Blocked(id, steps[j], env, env.watchSink(id, j)))
    && (n < |steps| ==> b.error.Some? && StepFails(id, steps[n], env, env.watchSink(id, n), b.error.value))
    && (n == |steps| ==> b.error.None?)
    && Enacts(id, steps[k..n], env, WatchSends(watch, b.effects))
    && Attempts(b.effects) == steps[k..if n < |steps| then n + 1 else n]
  }

  lemma OneBurstStep(id: Pid, watch: nat, step: Step, call: InputCall)
    ensures WatchSends(watch, [Emit(ActionDispatched(id, step)), Sent(id, ByWatch(watch), call)]) == [call]
    ensures Attempts([Emit(ActionDispatched(id, step)), Sent(id, ByWatch(watch), call)]) == [step]
    ensures WatchSends(watch, [Emit(ActionDispatched(id, step))]) == []
    ensures Attempts([Emit(ActionDispatched(id, step))]) == [step]
  {
    var first := [Emit(ActionDispatched(id, step))];
    var both := first + [Sent(id, ByWatch(watch), call)];
    assert both[..1] == first && first[..0] == [];
    assert WatchSends(watch, both) == WatchSends(watch, both[..1]) + [call];
    assert Attempts(both) == Attempts(both[..1]) + [];
  }

  lemma {:induction false} BurstLaw(id: Pid, watch: nat, steps: seq<Step>, env: Env, k: nat) returns (n: nat)
    requires k <= |steps|
    ensures BurstIs(id, watch, steps, env, k, n, RunSteps(id, watch, steps, env, k))
    decreases |steps| - k
  {
    if k == |steps| {
      n := k;
    } else {
      PerformDoesTheStep(id, steps[k], env, env.watchSink(id, k));
      match Perform(id, steps[k], env, env.watchSink(id, k))
      case Err(e) =>
        n := k;
        OneBurstStep(id, watch, steps[k], TypeText(""));
      case Ok(call) =>
        n := BurstLaw(id, watch, steps, env, k + 1);
        BurstGrows(id, watch, steps, env, k, n, call);
    }
  }

  lemma EnactsCons(id: Pid, step: Step, steps: seq<Step>, env: Env, call: InputCall, calls: seq<InputCall>)
    requires Performs(id, step, env, call) && Enacts(id, steps, env, calls)
    ensures Enacts(id, [step] + steps, env, [call] + calls)
  {
  }

  lemma BurstReads(id: Pid, watch: nat, steps: seq<Step>, env: Env, k: nat, call: InputCall)
    requires k < |steps| && Perform(id, steps[k], env, env.watchSink(id, k)) == Ok(call)
    ensures var (b, rest) := (RunSteps(id, watch, steps, env, k), RunSteps(id, watch, steps, env, k + 1));
            && b.error == rest.error
            && WatchSends(watch, b.effects) == [call] + WatchSends(watch, rest.effects)
            && Attempts(b.effects) == [steps[k]] + Attempts(rest.effects)
  {
    OneBurstStep(id, watch, steps[k], call);
    ReadsConcat(watch, [Emit(ActionDispatched(id, steps[k])), Sent(id, ByWatch(watch), call)],
                RunSteps(id, watch, steps, env, k + 1).effects);
  }

  lemma BurstGrows(id: Pid, watch: nat, steps: seq<Step>, env: Env, k: nat, n: nat, call: InputCall)
    requires k < |steps| && Perform(id, steps[k], env, env.watchSink(id, k)) == Ok(call)
    requires BurstIs(id, watch, steps, env, k + 1, n, RunSteps(id, watch, steps, env, k + 1))
    ensures BurstIs(id, watch, steps, env, k, n, RunSteps(id, watch, steps, env, k))
  {
    PerformDoesTheStep(id, steps[k], env, env.watchSink(id, k));
    BurstReads(id, watch, steps, env, k, call);
    EnactsCons(id, steps[k], steps[k + 1..n], env, call, WatchSends(watch, RunSteps(id, watch, steps, env, k + 1).effects));
    assert steps[k..n] == [steps[k]] + steps[k + 1..n];
    var m := if n < |steps| then n + 1 else n;
    assert steps[k..m] == [steps[k]] + steps[k + 1..m];
  }

  // ----- What a tick dispatches -----

  /** The tick in which the program runs its turn at dispatching watch `i`'s steps. */
  ghost predicate MayDispatch(id: Pid, q: Prog, env: Env, winner: Option<Pid>, i: nat) {
    q.state.Running? && winner == Some(id) && FirstDue(id, q, i, env) && q.doc.watches[i].steps != []
  }

  ghost predicate FailsWith(t: Tock, id: Pid, e: RuntimeError) {
    t.prog.state.Failed? && Emit(ProgramFailed(id, e)) in t.effects
  }

  lemma BodyUndispatched(id: Pid, r: Prog, env: Env)
    ensures Undispatched(BodyEffects(id, r, env))
    ensures forall i :: Emit(WatchFired(id, i)) !in BodyEffects(id, r, env)
  {
  }

  lemma TriggerUndispatched(id: Pid, p: Prog, env: Env)
    ensures Undispatched(TriggerEffects(id, p, env))
    ensures forall i :: Emit(WatchFired(id, i)) !in TriggerEffects(id, p, env)
    ensures AfterTrigger(id, p, env).state.Running? ==> forall e :: Emit(ProgramFailed(id, e)) !in TriggerEffects(id, p, env)
  {
  }

  /** The watch phase of a program whose turn it is. */
  lemma PhaseDispatches(id: Pid, q: Prog, env: Env, winner: Option<Pid>, i: nat) returns (n: nat)
    requires MayDispatch(id, q, env, winner, i)
    ensures var (o, steps) := (WatchPhase(id, q, env, winner), q.doc.watches[i].steps);
            && Reaches(id, steps, env, n)
            && Enacts(id, steps[..n], env, WatchSends(i, o.effects))
            && Attempts(o.effects) == steps[..if n < |steps| then n + 1 else n]
            && (o.failed <==> n < |steps|) && (o.fired == Some(i) <==> n == |steps|)
            && (n == |steps| ==> Emit(WatchFired(id, i)) in o.effects)
            && (n < |steps| ==> exists e :: StepFails(id, steps[n], env, env.watchSink(id, n), e) && Emit(ProgramFailed(id, e)) in o.effects)
  {
    FirstFireIsFirstDue(id, q, i, env);
    var steps := q.doc.watches[i].steps;
    n := BurstLaw(id, i, steps, env, 0);
    var b := RunSteps(id, i, steps, env);
    var last: seq<Effect> := if b.error.Some? then [Emit(ProgramFailed(id, b.error.value))] else [Emit(WatchFired(id, i))];
    UndispatchedReads(i, last);
    ReadsConcat(i, b.effects, last);
    assert steps[0..n] == steps[..n] && last[0] in last;
  }

  /** A dispatching watch sends exactly the inputs its steps ask for, in order, once each,
      up to the first step that cannot be performed. It announces those and the one it
      broke off at. It fires if and only if none was blocked, and otherwise the program
      fails with the reason of that step. */
  lemma WatchDispatchIsExact(id: Pid, p: Prog, env: Env, winner: Option<Pid>, i: nat) returns (n: nat)
    requires env.captured && Legal(id, p, Tick(env, winner)) && MayDispatch(id, AfterTrigger(id, p, env), env, winner, i)
    ensures var t := TickProgram(id, p, env, winner);
            var steps := AfterTrigger(id, p, env).doc.watches[i].steps;
            && Reaches(id, steps, env, n)
            && Enacts(id, steps[..n], env, WatchSends(i, t.effects))
            && Attempts(t.effects) == steps[..if n < |steps| then n + 1 else n]
            && (n == |steps| <==> t.fired == Some(i))
            && (n == |steps| ==> Emit(WatchFired(id, i)) in t.effects)
            && (n < |steps| ==> exists e :: StepFails(id, steps[n], env, env.watchSink(id, n), e) && FailsWith(t, id, e))
  {
    var q := AfterTrigger(id, p, env);
    var o := WatchPhase(id, q, env, winner);
    n := PhaseDispatches(id, q, env, winner, i);
    var (front, body) := (TriggerEffects(id, p, env), BodyEffects(id, AfterWatches(id, q, env, o), env));
    TriggerUndispatched(id, p, env);
    BodyUndispatched(id, AfterWatches(id, q, env, o), env);
    ReadsMiddle(i, front, o.effects, body);
    assert forall e :: e in o.effects ==> e in front + o.effects && e in front + o.effects + body;
  }

  /** Otherwise a tick dispatches no watch step at all. */
  lemma NothingElseDispatches(id: Pid, p: Prog, env: Env, winner: Option<Pid>, i: nat)
    requires env.captured && Legal(id, p, Tick(env, winner))
    requires forall j :: !MayDispatch(id, AfterTrigger(id, p, env), env, winner, j)
    ensures var t := TickProgram(id, p, env, winner); Attempts(t.effects) == [] && WatchSends(i, t.effects) == []
  {
    var q := AfterTrigger(id, p, env);
    TriggerUndispatched(id, p, env);
    if q.state.Running? {
      var o := WatchPhase(id, q, env, winner);
      var f := FirstFire(id, q, env);
      if f.Some? {
        FirstFireIsFirstDue(id, q, f.value, env);
        assert !MayDispatch(id, q, env, winner, f.value);
      }
      assert Undispatched(o.effects);
      BodyUndispatched(id, AfterWatches(id, q, env, o), env);
    }
    UndispatchedReads(i, TickProgram(id, p, env, winner).effects);
  }

  /** A watch that lost arbitration sends nothing and announces its steps as deferred to the
      winner. */
  lemma DeferralIsAnnounced(id: Pid, p: Prog, env: Env, w: Pid, i: nat)
    requires env.captured && Legal(id, p, Tick(env, Some(w))) && w != id
    requires AfterTrigger(id, p, env).state.Running? && FirstDue(id, AfterTrigger(id, p, env), i, env)
    requires AfterTrigger(id, p, env).doc.watches[i].steps != []
    ensures var (t, steps) := (TickProgram(id, p, env, Some(w)), AfterTrigger(id, p, env).doc.watches[i].steps);
            && Emit(ActionDeferred(id, steps, w)) in t.effects && t.fired.None?
            && Attempts(t.effects) == [] && WatchSends(i, t.effects) == []
  {
    var q := AfterTrigger(id, p, env);
    FirstFireIsFirstDue(id, q, i, env);
    var o := WatchPhase(id, q, env, Some(w));
    assert o.effects[0] == Emit(ActionDeferred(id, q.doc.watches[i].steps, w)) && o.effects[0] in o.effects;
    NothingElseDispatches(id, p, env, Some(w), i);
  }

  lemma BurstFiresNothing(id: Pid, watch: nat, steps: seq<Step>, env: Env, i: nat)
    ensures Emit(WatchFired(id, i)) !in RunSteps(id, watch, steps, env).effects
  {
    BurstFailsNobody(id, watch, steps, env, 0);
  }

  lemma PhaseAnnouncesFire(id: Pid, q: Prog, env: Env, winner: Option<Pid>, i: nat)
    requires q.state.Running? && (Contends(id, q, env) ==> winner.Some?)
    ensures var o := WatchPhase(id, q, env, winner); Emit(WatchFired(id, i)) in o.effects <==> o.fired == Some(i)
  {
    var f, o := FirstFire(id, q, env), WatchPhase(id, q, env, winner);
    if f.Some? { BurstFiresNothing(id, f.value, q.doc.watches[f.value].steps, env, i); }
    if o.fired == Some(i) { assert o.effects[|o.effects| - 1] == Emit(WatchFired(id, i)); }
  }

  /** A fire is announced, and nothing else is announced as one. */
  lemma FireIsAnnounced(id: Pid, p: Prog, env: Env, winner: Option<Pid>, i: nat)
    requires env.captured && Legal(id, p, Tick(env, winner))
    ensures var t := TickProgram(id, p, env, winner); t.fired == Some(i) <==> Emit(WatchFired(id, i)) in t.effects
  {
    var q := AfterTrigger(id, p, env);
    TriggerUndispatched(id, p, env);
    if q.state.Running? {
      var o := WatchPhase(id, q, env, winner);
      PhaseAnnouncesFire(id, q, env, winner, i);
      BodyUndispatched(id, AfterWatches(id, q, env, o), env);
      if o.failed { FailedFiresNothing(id, q, env, winner); }
    }
  }

  // ----- What a tick does to the body -----

  /** A dispatching watch breaks off, which ends the program's tick. */
  ghost predicate BreaksOff(id: Pid, q: Prog, env: Env, winner: Option<Pid>) {
    exists i: nat, n: nat ::
      MayDispatch(id, q, env, winner, i) && Reaches(id, q.doc.watches[i].steps, env, n) && n < |q.doc.watches[i].steps|
  }

  lemma ReachIsUnique(id: Pid, steps: seq<Step>, env: Env, m: nat, n: nat)
    requires Reaches(id, steps, env, m) && Reaches(id, steps, env, n)
    ensures m == n
  {
  }

  lemma BreaksOffIsFailed(id: Pid, q: Prog, env: Env, winner: Option<Pid>)
    requires q.state.Running? && (Contends(id, q, env) ==> winner.Some?)
    ensures WatchPhase(id, q, env, winner).failed <==> BreaksOff(id, q, env, winner)
  {
    var f := FirstFire(id, q, env);
    if f.Some? { FirstFireIsFirstDue(id, q, f.value, env); }
    if f.Some? && MayDispatch(id, q, env, winner, f.value) {
      var n := PhaseDispatches(id, q, env, winner, f.value);
    }
    forall i: nat, n: nat | MayDispatch(id, q, env, winner, i) && Reaches(id, q.doc.watches[i].steps, env, n)
      ensures WatchPhase(id, q, env, winner).failed <==> n < |q.doc.watches[i].steps|
    {
      var m := PhaseDispatches(id, q, env, winner, i);
      ReachIsUnique(id, q.doc.watches[i].steps, env, m, n);
    }
  }

  /** The tick in which the body of a running program gets its step. */
  ghost predicate BodyTurn(id: Pid, p: Prog, env: Env, winner: Option<Pid>) {
    && env.captured && Inv(p) && Legal(id, p, Tick(env, winner))
    && AfterTrigger(id, p, env).state.Running? && !BreaksOff(id, AfterTrigger(id, p, env), env, winner)
  }

  lemma PhaseFailsNobody(id: Pid, q: Prog, env: Env, winner: Option<Pid>)
    requires q.state.Running? && (Contends(id, q, env) ==> winner.Some?) && !WatchPhase(id, q, env, winner).failed
    ensures forall e :: Emit(ProgramFailed(id, e)) !in WatchPhase(id, q, env, winner).effects
    ensures Emit(ProgramCompleted(id)) !in WatchPhase(id, q, env, winner).effects
  {
    var f := FirstFire(id, q, env);
    if f.Some? { BurstFailsNobody(id, f.value, q.doc.watches[f.value].steps, env, 0); }
  }

  lemma {:induction false} BurstFailsNobody(id: Pid, watch: nat, steps: seq<Step>, env: Env, k: nat)
    requires k <= |steps|
    ensures forall e :: e in RunSteps(id, watch, steps, env, k).effects ==> e.Sent? || e.event.ActionDispatched?
    decreases |steps| - k
  {
    if k < |steps| { BurstFailsNobody(id, watch, steps, env, k + 1); }
  }

  /** The tick and the one body step it makes. */
  lemma TurnStepsBody(id: Pid, p: Prog, env: Env, winner: Option<Pid>)
    requires BodyTurn(id, p, env, winner)
    ensures var (t, r) := (TickProgram(id, p, env, winner), StepOnce(id, p.doc.body, p.Cursor(), p.deferred, env));
            && t.prog.Cursor() == p.Cursor() + (if r.outcome.Advanced? then 1 else 0) && t.prog.deferred == r.deferred
            && (t.prog.state.Failed? <==> r.outcome.StepFailed?)
            && (forall e :: FailsWith(t, id, e) <==> r.outcome == StepFailed(e))
            && (r.outcome.Stalled? ==> t.prog.state.Running?)
            && BodySends(t.effects) == if r.input.Some? then [(p.Cursor(), r.input.value)] else []
  {
    var q := AfterTrigger(id, p, env);
    var o := WatchPhase(id, q, env, winner);
    BreaksOffIsFailed(id, q, env, winner);
    WatchesLeaveBody(id, p, env, o);
    RunningTickMovesBody(id, p, env, winner);
    PhaseFailsNobody(id, q, env, winner);
    TriggerUndispatched(id, p, env);
    BodyFails(id, AfterWatches(id, q, env, o), env);
  }

  lemma BodyFails(id: Pid, r: Prog, env: Env)
    requires r.state.Running?
    ensures var s := StepOnce(id, r.doc.body, r.Cursor(), r.deferred, env);
            && (AfterBody(id, r, env).state.Failed? <==> s.outcome.StepFailed?)
            && (forall e :: Emit(ProgramFailed(id, e)) in BodyEffects(id, r, env) <==> s.outcome == StepFailed(e))
            && (s.outcome.Stalled? ==> AfterBody(id, r, env).state.Running?)
            && (AfterBody(id, r, env).state.Completed? <==> Emit(ProgramCompleted(id)) in BodyEffects(id, r, env))
  {
    var s := StepOnce(id, r.doc.body, r.Cursor(), r.deferred, env);
    if s.outcome.StepFailed? {
      var es := BodyEffects(id, r, env);
      assert es[|es| - 1] == Emit(ProgramFailed(id, s.outcome.error));
    } else if AfterBody(id, r, env).state.Completed? {
      var es := BodyEffects(id, r, env);
      assert es[|es| - 1] == Emit(ProgramCompleted(id));
    }
  }

  /** The cursor passes the step it is at. */
  ghost predicate Passes(p: Prog, t: Tock) {
    t.prog.Cursor() == p.Cursor() + 1 && t.prog.deferred.None? && !t.prog.state.Failed?
  }

  /** The program stays at its step, still running. */
  ghost predicate Stays(p: Prog, t: Tock, d: Option<Defer>) {
    t.prog.Cursor() == p.Cursor() && t.prog.deferred == d && t.prog.state.Running?
  }

  /** An assert is passed exactly on truth, or on a falsehood it tolerates. It fails the
      program exactly on a falsehood it does not, or when there is no result. */
  lemma AssertIsExact(id: Pid, p: Prog, env: Env, winner: Option<Pid>)
    requires BodyTurn(id, p, env, winner) && p.deferred.None? && p.Cursor() < |p.doc.body| && p.doc.body[p.Cursor()].Assert?
    ensures var (t, step) := (TickProgram(id, p, env, winner), p.doc.body[p.Cursor()]);
            var truth := env.truth(id, Named(step.name));
            && (Passes(p, t) <==> truth == Some(true) || (truth == Some(false) && step.onFail.FailureContinues?))
            && (FailsWith(t, id, AssertFailed) <==> truth == Some(false) && step.onFail.FailureFails?)
            && (FailsWith(t, id, PerceptionError) <==> truth == None)
            && (!Passes(p, t) ==> t.prog.Cursor() == p.Cursor())
  {
    TurnStepsBody(id, p, env, winner);
    AssertOutcome(id, p.doc.body, p.Cursor(), env);
  }

  /** A sleep or a wait that is reached begins: it passes in a later tick only. */
  lemma DeferralBegins(id: Pid, p: Prog, env: Env, winner: Option<Pid>)
    requires BodyTurn(id, p, env, winner) && p.deferred.None? && p.Cursor() < |p.doc.body|
    requires p.doc.body[p.Cursor()].SleepMs? || p.doc.body[p.Cursor()].WaitFor?
    ensures var d := match p.doc.body[p.Cursor()]
              case SleepMs(ms) => Some(Sleep(SatAdd(env.now, ms)))
              case WaitFor(name, ms, onTimeout) => Some(Wait(name, SatAdd(env.now, ms), onTimeout))
              case _ => None;
            Stays(p, TickProgram(id, p, env, winner), d)
  {
    TurnStepsBody(id, p, env, winner);
  }

  /** A pending sleep passes exactly when its time has come. */
  lemma SleepIsExact(id: Pid, p: Prog, env: Env, winner: Option<Pid>)
    requires BodyTurn(id, p, env, winner) && p.deferred.Some? && p.deferred.value.Sleep?
    ensures var t := TickProgram(id, p, env, winner);
            && (Passes(p, t) <==> env.now >= p.deferred.value.wakeAt)
            && (Stays(p, t, p.deferred) <==> env.now < p.deferred.value.wakeAt)
  {
    TurnStepsBody(id, p, env, winner);
  }

  /** A pending wait passes exactly on truth, or on falsehood past a deadline it tolerates.
      Past a deadline it does not tolerate it fails, without a result it fails, and
      otherwise it goes on waiting. */
  lemma WaitIsExact(id: Pid, p: Prog, env: Env, winner: Option<Pid>)
    requires BodyTurn(id, p, env, winner) && p.deferred.Some? && p.deferred.value.Wait?
    ensures var (t, d) := (TickProgram(id, p, env, winner), p.deferred.value);
            var (truth, late) := (env.truth(id, Named(d.name)), env.now >= d.deadline);
            && (Passes(p, t) <==> truth == Some(true) || (truth == Some(false) && late && !d.onTimeout.TimeoutFails?))
            && (FailsWith(t, id, WaitForTimeout) <==> truth == Some(false) && late && d.onTimeout.TimeoutFails?)
            && (FailsWith(t, id, PerceptionError) <==> truth == None)
            && (Stays(p, t, p.deferred) <==> truth == Some(false) && !late)
            && t.prog.deferred == (if truth == None || (truth == Some(false) && !late) then p.deferred else None)
  {
    TurnStepsBody(id, p, env, winner);
  }

  lemma FailedStepSendsNothing(id: Pid, body: seq<Step>, c: nat, d: Option<Defer>, env: Env)
    ensures var r := StepOnce(id, body, c, d, env); r.outcome.StepFailed? ==> r.input.None?
  {
  }

  /** A body step that fails leaves the program at it, and sends nothing. */
  lemma FailureStaysAtStep(id: Pid, p: Prog, env: Env, winner: Option<Pid>)
    requires BodyTurn(id, p, env, winner) && TickProgram(id, p, env, winner).prog.state.Failed?
    ensures var t := TickProgram(id, p, env, winner); t.prog.Cursor() == p.Cursor() && BodySends(t.effects) == []
  {
    TurnStepsBody(id, p, env, winner);
    FailedStepSendsNothing(id, p.doc.body, p.Cursor(), p.deferred, env);
  }

  lemma ActionOutcome(id: Pid, body: seq<Step>, c: nat, env: Env)
    requires c < |body| && body[c].IsAction()
    ensures var (r, accepted) := (StepOnce(id, body, c, None, env), env.bodySink(id));
            && r.deferred.None?
            && (r.outcome.Advanced? <==> !Blocked(id, body[c], env, accepted))
            && (r.outcome.Advanced? ==> r.input.Some? && Performs(id, body[c], env, r.input.value))
            && (!r.outcome.Advanced? ==> r.outcome.StepFailed? && r.input.None?)
            && (forall e :: r.outcome == StepFailed(e) <==> StepFails(id, body[c], env, accepted, e))
  {
    var done := Perform(id, body[c], env, env.bodySink(id));
    PerformDoesTheStep(id, body[c], env, env.bodySink(id));
    if done.Err? { assert StepFails(id, body[c], env, env.bodySink(id), done.error); }
  }

  lemma AssertOutcome(id: Pid, body: seq<Step>, c: nat, env: Env)
    requires c < |body| && body[c].Assert?
    ensures var (r, truth) := (StepOnce(id, body, c, None, env), env.truth(id, Named(body[c].name)));
            && r.deferred.None?
            && (r.outcome.Advanced? <==> truth == Some(true) || (truth == Some(false) && body[c].onFail.FailureContinues?))
            && (r.outcome == StepFailed(AssertFailed) <==> truth == Some(false) && body[c].onFail.FailureFails?)
            && (r.outcome == StepFailed(PerceptionError) <==> truth == None)
            && (r.outcome.Advanced? || r.outcome.StepFailed?)
  {
    match env.truth(id, Named(body[c].name))
    case None =>
    case Some(t) => if t { assert Some(t) == Some(true); } else { assert Some(t) == Some(false); }
  }

  /** An action is passed exactly when nothing blocks it, with its one input sent; else the
      program fails with the reason and sends nothing. */
  lemma ActionIsExact(id: Pid, p: Prog, env: Env, winner: Option<Pid>)
    requires BodyTurn(id, p, env, winner) && p.deferred.None? && p.Cursor() < |p.doc.body| && p.doc.body[p.Cursor()].IsAction()
    ensures var (t, step) := (TickProgram(id, p, env, winner), p.doc.body[p.Cursor()]);
            && (Passes(p, t) <==> !Blocked(id, step, env, env.bodySink(id)))
            && (Passes(p, t) ==> |BodySends(t.effects)| == 1 && BodySends(t.effects)[0].0 == p.Cursor()
                                 && Performs(id, step, env, BodySends(t.effects)[0].1))
            && (!Passes(p, t) ==> BodySends(t.effects) == [] && t.prog.Cursor() == p.Cursor())
            && (forall e :: FailsWith(t, id, e) <==> StepFails(id, step, env, env.bodySink(id), e))
  {
    TurnStepsBody(id, p, env, winner);
    ActionOutcome(id, p.doc.body, p.Cursor(), env);
  }

  // ----- What a tick does to a waiting program -----

  /** The program has just started: at its first step, nothing deferred, the clock read,
      a live record for every watch. */
  ghost predicate JustStarted(p: Prog, q: Prog, now: int) {
    && q.doc == p.doc && q.state.Running? && q.runningSince == Some(now) && q.cursor == Some(0) && q.deferred.None?
    && (forall i: nat :: i in q.watchState <==> i < |p.doc.watches|)
    && (forall i :: i in q.watchState ==> q.watchState[i] == WatchRuntime(None, false, false))
  }

  /** A waiting program starts on the first captured tick if it is to start on submission,
      when its predicate is true if it waits for one, and never by itself if it is manual.
      A predicate without a result fails it. */
  lemma TriggerIsExact(id: Pid, p: Prog, env: Env)
    requires Inv(p) && p.state.Waiting?
    ensures var (q, es, trigger) := (AfterTrigger(id, p, env), TriggerEffects(id, p, env), p.doc.trigger);
            var truth := if trigger.OnPredicate? then env.truth(id, Named(trigger.name)) else None;
            && (JustStarted(p, q, env.now) <==> trigger.OnSubmit? || truth == Some(true))
            && (q == p <==> trigger.Manual? || truth == Some(false))
            && (q.state.Failed? <==> trigger.OnPredicate? && truth == None)
            && (JustStarted(p, q, env.now) ==> es == [Emit(StateChanged(id, Waiting, Running))])
            && (q == p ==> es == []) && (q.state.Failed? ==> es == [Emit(ProgramFailed(id, PerceptionError))])
  {
    if p.doc.trigger.OnPredicate? {
      match env.truth(id, Named(p.doc.trigger.name))
      case None =>
      case Some(t) => if t { assert Some(t) == Some(true); } else { assert Some(t) == Some(false); }
    }
  }

  /** A tick in which the program does not run is its trigger alone. */
  lemma IdleTick(id: Pid, p: Prog, env: Env, winner: Option<Pid>)
    requires Legal(id, p, Tick(env, winner)) && !AfterTrigger(id, p, env).state.Running?
    ensures TickProgram(id, p, env, winner)
         == if env.captured then Tock(AfterTrigger(id, p, env), TriggerEffects(id, p, env), None) else Tock(p, [], None)
  {
  }

  lemma ManualTick(id: Pid, p: Prog, env: Env, winner: Option<Pid>)
    requires Inv(p) && p.state.Waiting? && p.doc.trigger.Manual? && Legal(id, p, Tick(env, winner))
    ensures TickProgram(id, p, env, winner).prog == p
  {
    TriggerIsExact(id, p, env);
    IdleTick(id, p, env, winner);
  }

  lemma ManualStays(id: Pid, p: Prog, h: Happening)
    requires Inv(p) && p.state.Waiting? && p.doc.trigger.Manual? && Legal(id, p, h) && (h.Tick? || h.Idle?)
    ensures Next(id, p, h) == p
  {
    if h.Tick? { ManualTick(id, p, h.env, h.winner); }
  }

  lemma ManualStaysAt(id: Pid, ps: seq<Prog>, hs: seq<Happening>, t: nat)
    requires Life(id, ps, hs) && t < |hs| && (hs[t].Tick? || hs[t].Idle?)
    requires ps[t].state.Waiting? && ps[t].doc.trigger.Manual?
    ensures ps[t + 1] == ps[t]
  {
    LifeKeeps(id, ps, hs, t);
    ManualStays(id, ps[t], hs[t]);
  }

  /** No command reaches the program between `a` and `b`. */
  ghost predicate Undisturbed(hs: seq<Happening>, a: nat, b: nat) {
    forall t :: a <= t < b && t < |hs| ==> hs[t].Tick? || hs[t].Idle?
  }

  /** A manual program leaves `Waiting` only by command. */
  lemma {:induction false} ManualWaits(id: Pid, ps: seq<Prog>, hs: seq<Happening>, a: nat, b: nat)
    requires Life(id, ps, hs) && a <= b < |ps| && Undisturbed(hs, a, b)
    requires ps[a].state.Waiting? && ps[a].doc.trigger.Manual?
    ensures ps[b] == ps[a]
  {
    if a < b {
      ManualWaits(id, ps, hs, a, b - 1);
      ManualStaysAt(id, ps, hs, b - 1);
    }
  }

  // ----- What a tick leaves in a watch's record -----

  /** The predicate the watch waits for. */
  ghost function TruthOf(id: Pid, q: Prog, i: nat, env: Env): Option<bool>
    requires i < |q.doc.watches|
  {
    env.truth(id, match q.doc.watches[i].when case ByName(n) => Named(n) case Inline => InlineOf(i))
  }

  /** The record of watch `i` before and after a tick of the running program `q`. */
  ghost predicate RecordLaw(id: Pid, q: Prog, i: nat, env: Env, fired: bool, r: WatchRuntime, r': WatchRuntime)
    requires i < |q.doc.watches|
  {
    var (w, truth) := (q.doc.watches[i], TruthOf(id, q, i, env));
    var tripped := w.lifetime.UntilPredicate? && env.truth(id, Named(w.lifetime.name)) == Some(true);
    var over := w.lifetime.TimeoutMs? && env.now - q.runningSince.GetOr(env.now) >= w.lifetime.ms;
    if r.retired then r' == r
    else if tripped then r' == r.(retired := true)
    else if truth.None? then r' == r
    else
      && r'.lastTruthy == truth.value
      && r'.lastFired == (if fired then Some(env.now) else r.lastFired)
      && (r'.retired <==> over || (fired && w.lifetime.OneShot?))
  }

  lemma RecordAfterPhase(id: Pid, q: Prog, env: Env, winner: Option<Pid>, i: nat)
    requires q.state.Running? && i < |q.doc.watches| && (Contends(id, q, env) ==> winner.Some?)
    ensures var o := WatchPhase(id, q, env, winner);
            RecordLaw(id, q, i, env, o.fired == Some(i), q.Watching(i), AfterWatches(id, q, env, o).Watching(i))
  {
    var o := WatchPhase(id, q, env, winner);
    if o.fired == Some(i) {
      FirstFireIsFirstDue(id, q, i, env);
    } else {
      assert AfterWatches(id, q, env, o).Watching(i) == Observed(id, q, i, env);
    }
    LookIsTruth(id, q, i, env);
  }

  lemma LookIsTruth(id: Pid, q: Prog, i: nat, env: Env)
    requires i < |q.doc.watches|
    ensures RecordLaw(id, q, i, env, false, q.Watching(i), Observed(id, q, i, env))
  {
  }

  /** A running tick leaves each watch's record as its observation and its firing demand. */
  lemma RecordIsExact(id: Pid, p: Prog, env: Env, winner: Option<Pid>, i: nat)
    requires env.captured && Inv(p) && Legal(id, p, Tick(env, winner)) && AfterTrigger(id, p, env).state.Running? && i < |p.doc.watches|
    ensures var (q, t) := (AfterTrigger(id, p, env), TickProgram(id, p, env, winner));
            q.doc == p.doc && RecordLaw(id, q, i, env, t.fired == Some(i), q.Watching(i), t.prog.Watching(i))
  {
    var q := AfterTrigger(id, p, env);
    AfterTriggerKeeps(id, p, env);
    var o := WatchPhase(id, q, env, winner);
    RecordAfterPhase(id, q, env, winner, i);
    if o.failed { FailedFiresNothing(id, q, env, winner); } else { BodyKeepsRecords(id, AfterWatches(id, q, env, o), env); }
  }

  lemma FailedFiresNothing(id: Pid, q: Prog, env: Env, winner: Option<Pid>)
    requires q.state.Running? && (Contends(id, q, env) ==> winner.Some?) && WatchPhase(id, q, env, winner).failed
    ensures WatchPhase(id, q, env, winner).fired.None?
  {
  }

  lemma BodyKeepsRecords(id: Pid, r: Prog, env: Env)
    ensures AfterBody(id, r, env).watchState == r.watchState
  {
  }

  // ----- When a tick completes a program -----

  /** A running tick completes the program exactly when it ends with the body done and no
      live watch on record, and announces that. */
  lemma CompletionIsExact(id: Pid, p: Prog, env: Env, winner: Option<Pid>)
    requires BodyTurn(id, p, env, winner)
    ensures var t := TickProgram(id, p, env, winner);
            && (t.prog.state.Completed? <==> !t.prog.state.Failed? && t.prog.Cursor() >= |p.doc.body|
                                             && forall i :: i in t.prog.watchState ==> t.prog.watchState[i].retired)
            && (t.prog.state.Completed? <==> Emit(ProgramCompleted(id)) in t.effects)
            && (t.prog.state.Running? || t.prog.state.Failed? || t.prog.state.Completed?)
  {
    var q := AfterTrigger(id, p, env);
    var o := WatchPhase(id, q, env, winner);
    var r := AfterWatches(id, q, env, o);
    BreaksOffIsFailed(id, q, env, winner);
    AfterWatchesKeeps(id, q, env, winner) by { AfterTriggerKeeps(id, p, env); }
    WatchesLeaveBody(id, p, env, o);
    PhaseFailsNobody(id, q, env, winner);
    BodyFails(id, r, env);
    BodyCompletes(id, r, env);
    assert Emit(ProgramCompleted(id)) !in TriggerEffects(id, p, env);
  }

  lemma BodyCompletes(id: Pid, r: Prog, env: Env)
    requires Inv(r) && r.state.Running?
    ensures var r' := AfterBody(id, r, env);
            r'.state.Completed? <==> !r'.state.Failed? && r'.Cursor() >= |r.doc.body|
                                     && forall i :: i in r'.watchState ==> r'.watchState[i].retired
  {
    var r' := AfterBody(id, r, env);
    assert (forall i :: i in r'.watchState ==> r'.watchState[i].retired) <==> r'.ActiveWatches() == {} by {
      forall i | i in r'.watchState && !r'.watchState[i].retired ensures r'.ActiveWatches() != {} { assert i in r'.ActiveWatches(); }
    }
  }
}
