/** Body execution over a whole life: which inputs reach the sink, and when a
    sleep or a wait may end. */
module Bodies {
  import opened Common
  import opened Program
  import opened Lives

  /** The body's share of one happening: untouched, or one call of `StepOnce`. */
  ghost predicate BodyMoved(id: Pid, p: Prog, h: Happening, p': Prog, log: seq<(nat, InputCall)>) {
    || (p'.Cursor() == p.Cursor() && p'.deferred == p.deferred && log == [])
    || (h.Tick? && BodyStepped(id, p, h.env, p', log))
  }

  ghost predicate BodyStepped(id: Pid, p: Prog, env: Env, p': Prog, log: seq<(nat, InputCall)>) {
    var r := StepOnce(id, p.doc.body, p.Cursor(), p.deferred, env);
    && p'.deferred == r.deferred
    && p'.Cursor() == p.Cursor() + (if r.outcome.Advanced? then 1 else 0)
    && log == if r.input.Some? then [(p.Cursor(), r.input.value)] else []
  }

  /** The successful body inputs of one happening, each with its step's index. */
  ghost function BodyInputs(id: Pid, p: Prog, h: Happening): seq<(nat, InputCall)>
    requires Legal(id, p, h)
  {
    if h.Tick? then BodySends(TickProgram(id, p, h.env, h.winner).effects) else []
  }

  /** The body inputs among some effects. */
  ghost function BodySends(es: seq<Effect>): seq<(nat, InputCall)> {
    if es == [] then []
    else
      var e := es[|es| - 1];
      BodySends(es[..|es| - 1]) + if e.Sent? && e.origin.ByBody? then [(e.origin.step, e.call)] else []
  }

  lemma {:induction false} BodySendsConcat(a: seq<Effect>, b: seq<Effect>)
    ensures BodySends(a + b) == BodySends(a) + BodySends(b)
  {
    if b == [] {
      assert a + b == a;
    } else {
      BodySendsConcat(a, b[..|b| - 1]);
      assert (a + b)[..|a + b| - 1] == a + b[..|b| - 1];
    }
  }

  lemma {:induction false} NoBodySends(es: seq<Effect>)
    requires forall e :: e in es ==> !(e.Sent? && e.origin.ByBody?)
    ensures BodySends(es) == []
  {
    if es != [] { NoBodySends(es[..|es| - 1]); }
  }

  lemma {:induction false} BurstIsByWatch(id: Pid, watch: nat, steps: seq<Step>, env: Env, k: nat)
    requires k <= |steps|
    ensures forall e :: e in RunSteps(id, watch, steps, env, k).effects ==> !(e.Sent? && e.origin.ByBody?)
    decreases |steps| - k
  {
    if k < |steps| { BurstIsByWatch(id, watch, steps, env, k + 1); }
  }

  lemma WatchPhaseSendsNoBody(id: Pid, p: Prog, q: Prog, env: Env, winner: Option<Pid>)
    requires q.state.Running? && (Contends(id, q, env) ==> winner.Some?)
    ensures BodySends(TriggerEffects(id, p, env) + WatchPhase(id, q, env, winner).effects) == []
  {
    var f := FirstFire(id, q, env);
    if f.Some? { BurstIsByWatch(id, f.value, q.doc.watches[f.value].steps, env, 0); }
    NoBodySends(TriggerEffects(id, p, env) + WatchPhase(id, q, env, winner).effects);
  }

  lemma BodyTailIsEvents(id: Pid, r: Prog, env: Env)
    ensures var s := StepOnce(id, r.doc.body, r.Cursor(), r.deferred, env);
            var n := if s.input.Some? then 1 else 0;
            n <= |BodyEffects(id, r, env)| && forall e :: e in BodyEffects(id, r, env)[n..] ==> e.Emit?
  {
  }

  lemma BodyEffectsSends(id: Pid, r: Prog, env: Env)
    ensures var s := StepOnce(id, r.doc.body, r.Cursor(), r.deferred, env);
            BodySends(BodyEffects(id, r, env)) == if s.input.Some? then [(r.Cursor(), s.input.value)] else []
  {
    var s := StepOnce(id, r.doc.body, r.Cursor(), r.deferred, env);
    var head := if s.input.Some? then [Sent(id, ByBody(r.Cursor()), s.input.value)] else [];
    var tail := BodyEffects(id, r, env)[|head|..];
    assert BodyEffects(id, r, env) == head + tail;
    BodySendsConcat(head, tail);
    BodyTailIsEvents(id, r, env);
    NoBodySends(tail);
    assert head != [] ==> head[..|head| - 1] == [];
  }

  lemma AfterBodyMoves(id: Pid, r: Prog, env: Env)
    ensures var (s, p') := (StepOnce(id, r.doc.body, r.Cursor(), r.deferred, env), AfterBody(id, r, env));
            p'.deferred == s.deferred && p'.Cursor() == r.Cursor() + if s.outcome.Advanced? then 1 else 0
  {
  }

  /** The body's step in a program whose body the watches left alone. */
  lemma BodyStepsBehind(id: Pid, p: Prog, r: Prog, env: Env, front: seq<Effect>)
    requires r.doc == p.doc && r.Cursor() == p.Cursor() && r.deferred == p.deferred && BodySends(front) == []
    ensures BodyStepped(id, p, env, AfterBody(id, r, env), BodySends(front + BodyEffects(id, r, env)))
  {
    BodySendsConcat(front, BodyEffects(id, r, env));
    BodyEffectsSends(id, r, env);
    AfterBodyMoves(id, r, env);
  }

  lemma WatchesLeaveBody(id: Pid, p: Prog, env: Env, o: WatchOutcome)
    requires Inv(p) && (o.fired.Some? ==> o.fired.value < |p.doc.watches|)
    ensures var q := AfterTrigger(id, p, env); q.doc == p.doc && q.Cursor() == p.Cursor() && q.deferred == p.deferred
    ensures var r := AfterWatches(id, AfterTrigger(id, p, env), env, o);
            r.doc == p.doc && r.Cursor() == p.Cursor() && r.deferred == p.deferred
  {
    AfterTriggerKeeps(id, p, env);
  }

  lemma RunningTickMovesBody(id: Pid, p: Prog, env: Env, winner: Option<Pid>)
    requires Inv(p) && env.captured && Legal(id, p, Tick(env, winner))
    requires AfterTrigger(id, p, env).state.Running?
    ensures var t := TickProgram(id, p, env, winner);
            if WatchPhase(id, AfterTrigger(id, p, env), env, winner).failed
            then t.prog.Cursor() == p.Cursor() && t.prog.deferred == p.deferred && BodySends(t.effects) == []
            else BodyStepped(id, p, env, t.prog, BodySends(t.effects))
  {
    var q := AfterTrigger(id, p, env);
    var o := WatchPhase(id, q, env, winner);
    WatchPhaseSendsNoBody(id, p, q, env, winner);
    WatchesLeaveBody(id, p, env, o);
    if !o.failed { BodyStepsBehind(id, p, AfterWatches(id, q, env, o), env, TriggerEffects(id, p, env) + o.effects); }
  }

  lemma TickMovesBody(id: Pid, p: Prog, h: Happening)
    requires Inv(p) && Legal(id, p, h)
    ensures BodyMoved(id, p, h, Next(id, p, h), BodyInputs(id, p, h))
  {
    if h.Tick? && h.env.captured {
      AfterTriggerKeeps(id, p, h.env);
      if AfterTrigger(id, p, h.env).state.Running? {
        RunningTickMovesBody(id, p, h.env, h.winner);
      } else {
        NoBodySends(TriggerEffects(id, p, h.env));
      }
    }
  }

  lemma PerformDoesTheStep(id: Pid, step: Step, env: Env, accepted: bool)
    ensures var r := Perform(id, step, env, accepted);
            && (r.Ok? ==> accepted && Performs(id, step, env, r.value) && forall e :: !StepFails(id, step, env, accepted, e))
            && (r.Err? ==> forall e :: StepFails(id, step, env, accepted, e) <==> e == r.error)
  {
  }

  // ----- Inputs -----

  /** Indices of the action steps of body[a..b]. */
  ghost function ActionSteps(body: seq<Step>, a: nat, b: nat): seq<nat>
    requires a <= b
  {
    if a == b then []
    else ActionSteps(body, a, b - 1) + if b - 1 < |body| && body[b - 1].IsAction() then [b - 1] else []
  }

  ghost function StepIndices(log: seq<(nat, InputCall)>): seq<nat> {
    seq(|log|, k requires 0 <= k < |log| => log[k].0)
  }

  ghost function BodyLog(id: Pid, ps: seq<Prog>, hs: seq<Happening>, n: nat): seq<(nat, InputCall)>
    requires Life(id, ps, hs) && n <= |hs|
  {
    if n == 0 then [] else BodyLog(id, ps, hs, n - 1) + BodyInputs(id, ps[n - 1], hs[n - 1])
  }

  /** Each input of one happening is the right call for its step. */
  ghost predicate Faithful(id: Pid, body: seq<Step>, h: Happening, log: seq<(nat, InputCall)>) {
    forall e :: e in log ==> h.Tick? && e.0 < |body| && Performs(id, body[e.0], h.env, e.1)
  }

  lemma BodyStepLogs(id: Pid, p: Prog, h: Happening, p': Prog, log: seq<(nat, InputCall)>)
    requires Inv(p) && BodyMoved(id, p, h, p', log)
    ensures p.Cursor() <= p'.Cursor() <= p.Cursor() + 1
    ensures StepIndices(log) == ActionSteps(p.doc.body, p.Cursor(), p'.Cursor())
    ensures Faithful(id, p.doc.body, h, log)
  {
    var c := p.Cursor();
    assert ActionSteps(p.doc.body, c, c) == [];
    if h.Tick? && !(p'.Cursor() == c && p'.deferred == p.deferred && log == []) {
      if p.deferred.None? && c < |p.doc.body| { PerformDoesTheStep(id, p.doc.body[c], h.env, h.env.bodySink(id)); }
    }
  }

  lemma {:induction false} ActionStepsSplit(body: seq<Step>, a: nat, b: nat, c: nat)
    requires a <= b <= c
    ensures ActionSteps(body, a, c) == ActionSteps(body, a, b) + ActionSteps(body, b, c)
  {
    if b < c { ActionStepsSplit(body, a, b, c - 1); }
  }

  lemma LogGrows(body: seq<Step>, log: seq<(nat, InputCall)>, more: seq<(nat, InputCall)>, a: nat, b: nat, c: nat)
    requires a <= b <= c && StepIndices(log) == ActionSteps(body, a, b) && StepIndices(more) == ActionSteps(body, b, c)
    ensures StepIndices(log + more) == ActionSteps(body, a, c)
  {
    ActionStepsSplit(body, a, b, c);
    assert StepIndices(log + more) == StepIndices(log) + StepIndices(more);
  }

  /** The successful body inputs are exactly the action steps between where the
      program started and its cursor, in order and once each. */
  lemma {:induction false} BodyRefinement(id: Pid, ps: seq<Prog>, hs: seq<Happening>, n: nat)
    requires Life(id, ps, hs) && n <= |hs|
    ensures ps[0].Cursor() <= ps[n].Cursor()
    ensures StepIndices(BodyLog(id, ps, hs, n)) == ActionSteps(ps[0].doc.body, ps[0].Cursor(), ps[n].Cursor())
    ensures forall t: nat :: t < n ==> Faithful(id, ps[0].doc.body, hs[t], BodyInputs(id, ps[t], hs[t]))
    ensures DeferralMatches(ps[n])
    ensures n > 0 ==> ps[n - 1].Cursor() <= ps[n].Cursor() <= ps[n - 1].Cursor() + 1
  {
    LifeKeeps(id, ps, hs, n);
    if n > 0 {
      BodyRefinement(id, ps, hs, n - 1);
      LifeKeeps(id, ps, hs, n - 1);
      TickMovesBody(id, ps[n - 1], hs[n - 1]);
      var log, more := BodyLog(id, ps, hs, n - 1), BodyInputs(id, ps[n - 1], hs[n - 1]);
      BodyStepLogs(id, ps[n - 1], hs[n - 1], ps[n], more);
      LogGrows(ps[0].doc.body, log, more, ps[0].Cursor(), ps[n - 1].Cursor(), ps[n].Cursor());
    }
  }

  // ----- Sleeps and waits -----

  /** The deferral a step begins when first reached at time `now`. */
  ghost function DeferralOf(step: Step, now: int): Option<Defer> {
    match step
    case SleepMs(ms) => Some(Sleep(SatAdd(now, ms)))
    case WaitFor(name, ms, onTimeout) => Some(Wait(name, SatAdd(now, ms), onTimeout))
    case _ => None
  }

  /** At happening `b` the step at cursor `c` was reached and began `d`. */
  ghost predicate BeganAt(ps: seq<Prog>, hs: seq<Happening>, b: nat, c: nat, d: Option<Defer>)
    requires |ps| == |hs| + 1
  {
    b < |hs| && hs[b].Tick? && ps[b].Cursor() == c < |ps[0].doc.body|
      && d == DeferralOf(ps[0].doc.body[c], hs[b].env.now)
  }

  lemma BodyStepDefers(id: Pid, p: Prog, h: Happening, p': Prog, log: seq<(nat, InputCall)>)
    requires Inv(p) && BodyMoved(id, p, h, p', log) && p'.deferred.Some?
    ensures p'.Cursor() == p.Cursor()
    ensures p'.deferred == p.deferred
            || (h.Tick? && p.Cursor() < |p.doc.body| && p'.deferred == DeferralOf(p.doc.body[p.Cursor()], h.env.now))
  {
    if h.Tick? && p'.deferred != p.deferred {
    }
  }

  /** A life seen through its body moves alone. */
  ghost predicate BodyRun(id: Pid, ps: seq<Prog>, hs: seq<Happening>, logs: seq<seq<(nat, InputCall)>>) {
    && |ps| == |hs| + 1 == |logs| + 1
    && ps[0].deferred.None?
    && forall t :: 0 <= t < |hs| ==>
         Inv(ps[t]) && ps[t].doc == ps[0].doc && BodyMoved(id, ps[t], hs[t], ps[t + 1], logs[t])
  }

  lemma LifeIsBodyRun(id: Pid, ps: seq<Prog>, hs: seq<Happening>) returns (logs: seq<seq<(nat, InputCall)>>)
    requires Life(id, ps, hs)
    ensures BodyRun(id, ps, hs, logs)
  {
    logs := seq(|hs|, t requires 0 <= t < |hs| => BodyInputs(id, ps[t], hs[t]));
    forall t | 0 <= t < |hs|
      ensures Inv(ps[t]) && ps[t].doc == ps[0].doc && BodyMoved(id, ps[t], hs[t], ps[t + 1], logs[t])
    {
      LifeKeeps(id, ps, hs, t);
      TickMovesBody(id, ps[t], hs[t]);
    }
  }

  lemma {:induction false} DeferralBegan(id: Pid, ps: seq<Prog>, hs: seq<Happening>,
                                         logs: seq<seq<(nat, InputCall)>>, n: nat)
    returns (b: nat)
    requires BodyRun(id, ps, hs, logs) && n < |ps| && ps[n].deferred.Some?
    ensures b < n && BeganAt(ps, hs, b, ps[n].Cursor(), ps[n].deferred)
  {
    var m := n - 1;
    BodyStepDefers(id, ps[m], hs[m], ps[n], logs[m]);
    if ps[n].deferred == ps[m].deferred {
      b := DeferralBegan(id, ps, hs, logs, m);
    } else {
      b := m;
    }
  }

  lemma BodyStepAdvances(id: Pid, p: Prog, h: Happening, p': Prog, log: seq<(nat, InputCall)>)
    requires Inv(p) && BodyMoved(id, p, h, p', log)
    requires p.Cursor() < |p.doc.body| && p'.Cursor() == p.Cursor() + 1
    requires p.doc.body[p.Cursor()].SleepMs? || p.doc.body[p.Cursor()].WaitFor?
    ensures h.Tick? && p.deferred.Some?
    ensures match p.deferred.value
            case Sleep(wakeAt) => h.env.now >= wakeAt
            case Wait(name, deadline, onTimeout) =>
              h.env.truth(id, Named(name)) == Some(true) || (h.env.now >= deadline && !onTimeout.TimeoutFails?)
  {
  }

  /** How long the deferring step `step`, begun at `began`, lasts. */
  ghost predicate MayEnd(id: Pid, step: Step, began: int, env: Env) {
    match step
    case SleepMs(ms) => env.now >= SatAdd(began, ms)
    case WaitFor(name, ms, onTimeout) =>
      env.truth(id, Named(name)) == Some(true) || (env.now >= SatAdd(began, ms) && !onTimeout.TimeoutFails?)
    case _ => false
  }

  lemma AdvancedAfterBeginning(id: Pid, ps: seq<Prog>, hs: seq<Happening>, logs: seq<seq<(nat, InputCall)>>, t: nat)
    returns (b: nat)
    requires BodyRun(id, ps, hs, logs) && t < |hs| && ps[t].Cursor() < |ps[0].doc.body|
    requires ps[t + 1].Cursor() == ps[t].Cursor() + 1
    requires ps[0].doc.body[ps[t].Cursor()].SleepMs? || ps[0].doc.body[ps[t].Cursor()].WaitFor?
    ensures b < t && hs[b].Tick? && hs[t].Tick? && ps[b].Cursor() == ps[t].Cursor()
    ensures MayEnd(id, ps[0].doc.body[ps[t].Cursor()], hs[b].env.now, hs[t].env)
  {
    BodyStepAdvances(id, ps[t], hs[t], ps[t + 1], logs[t]);
    b := DeferralBegan(id, ps, hs, logs, t);
  }

  /** A sleep never ends early, and a wait ends only when its predicate is true
      or its deadline has passed and the step does not fail on timeout. `b` is the
      tick that reached the step. */
  lemma DeferralsNeverEndEarly(id: Pid, ps: seq<Prog>, hs: seq<Happening>, t: nat) returns (b: nat)
    requires Life(id, ps, hs) && t < |hs| && ps[t].Cursor() < |ps[0].doc.body|
    requires ps[t + 1].Cursor() == ps[t].Cursor() + 1
    requires ps[0].doc.body[ps[t].Cursor()].SleepMs? || ps[0].doc.body[ps[t].Cursor()].WaitFor?
    ensures b < t && hs[b].Tick? && hs[t].Tick? && ps[b].Cursor() == ps[t].Cursor()
    ensures MayEnd(id, ps[0].doc.body[ps[t].Cursor()], hs[b].env.now, hs[t].env)
  {
    var logs := LifeIsBodyRun(id, ps, hs);
    b := AdvancedAfterBeginning(id, ps, hs, logs, t);
  }
}
