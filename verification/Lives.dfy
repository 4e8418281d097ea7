/** The whole life of one program inside the scheduler: from the command that
    inserts it until it is replaced, under every interleaving of ticks with
    `Start` and `Cancel` commands and with what happens to other programs. */
module Lives {
  import opened Common
  import opened Program

  datatype Happening = Tick(env: Env, winner: Option<Pid>) | StartCommand(now: int) | CancelCommand | Idle

  ghost predicate Legal(id: Pid, p: Prog, h: Happening) {
    h.Tick? && h.env.captured && Contends(id, AfterTrigger(id, p, h.env), h.env) ==> h.winner.Some?
  }

  ghost function Next(id: Pid, p: Prog, h: Happening): Prog
    requires Legal(id, p, h)
  {
    match h
    case Tick(env, winner) => TickProgram(id, p, env, winner).prog
    case StartCommand(now) => p.(state := Running, runningSince := Some(now))
    case CancelCommand => p.(state := Cancelled)
    case Idle => p
  }

  /** A program record as `SubmitValidated` or `ResumeRunning` creates it. */
  ghost predicate Inserted(p: Prog) {
    || p == PendingProg(p.doc).(state := Waiting)
    || (p.cursor.Some? && p.runningSince.Some?
        && p == PendingProg(p.doc).(state := Running, runningSince := p.runningSince, cursor := p.cursor))
  }

  ghost predicate Life(id: Pid, ps: seq<Prog>, hs: seq<Happening>) {
    && |ps| == |hs| + 1
    && Inserted(ps[0])
    && forall t :: 0 <= t < |hs| ==> Legal(id, ps[t], hs[t]) && ps[t + 1] == Next(id, ps[t], hs[t])
  }

  // ----- What every happening keeps -----

  /** A pending deferral is the one the step at the cursor asks for. */
  ghost predicate DeferralMatches(p: Prog) {
    p.deferred.Some? ==>
      && p.Cursor() < |p.doc.body|
      && match p.deferred.value
         case Sleep(_) => p.doc.body[p.Cursor()].SleepMs?
         case Wait(name, _, onTimeout) =>
           var step := p.doc.body[p.Cursor()];
           step.WaitFor? && step.name == name && step.onTimeout == onTimeout
  }

  ghost predicate Inv(p: Prog) {
    && (p.state.Waiting? ==> p == PendingProg(p.doc).(state := Waiting))
    && (forall i :: i in p.watchState ==> i < |p.doc.watches|)
    && (forall i :: i in p.watchState && p.watchState[i].retired ==> !p.doc.watches[i].lifetime.Persistent?)
    && DeferralMatches(p)
    && (p.state.Completed? ==> p.BodyComplete() && p.ActiveWatches() == {})
  }

  lemma AfterTriggerKeeps(id: Pid, p: Prog, env: Env)
    requires Inv(p)
    ensures Inv(AfterTrigger(id, p, env))
    ensures AfterTrigger(id, p, env).doc == p.doc
    ensures AfterTrigger(id, p, env).Cursor() == p.Cursor()
    ensures AfterTrigger(id, p, env).deferred == p.deferred
    ensures forall i: nat :: AfterTrigger(id, p, env).Watching(i) == p.Watching(i)
    ensures p.watchState.Keys <= AfterTrigger(id, p, env).watchState.Keys
  {
  }

  lemma AfterWatchesKeeps(id: Pid, q: Prog, env: Env, winner: Option<Pid>)
    requires Inv(q) && q.state.Running?
    requires Contends(id, q, env) ==> winner.Some?
    ensures var r := AfterWatches(id, q, env, WatchPhase(id, q, env, winner));
            Inv(r) && r.doc == q.doc && (r.state.Running? || r.state.Failed?)
  {
    var o := WatchPhase(id, q, env, winner);
    WatchRecordsKeep(id, q, env, o);
  }

  /** Observing and firing retire only watches that can be retired. */
  lemma WatchRecordsKeep(id: Pid, q: Prog, env: Env, o: WatchOutcome)
    requires Inv(q) && (o.fired.Some? ==> o.fired.value < |q.doc.watches|)
    ensures var ws := AfterWatches(id, q, env, o).watchState;
            forall i :: i in ws ==> i < |q.doc.watches| && (ws[i].retired ==> !q.doc.watches[i].lifetime.Persistent?)
  {
  }

  lemma AfterBodyKeeps(id: Pid, q: Prog, env: Env)
    requires Inv(q) && q.state.Running?
    ensures Inv(AfterBody(id, q, env))
    ensures var r := AfterBody(id, q, env);
            r.watchState == q.watchState && r.doc == q.doc && !r.state.Waiting?
  {
    StepDefers(id, q, env);
  }

  /** A deferral left by a body step is the one of the step at the cursor. */
  lemma StepDefers(id: Pid, q: Prog, env: Env)
    requires DeferralMatches(q)
    ensures DeferralMatches(AfterBody(id, q, env))
  {
  }

  lemma NextKeeps(id: Pid, p: Prog, h: Happening)
    requires Inv(p) && Legal(id, p, h)
    ensures Inv(Next(id, p, h)) && Next(id, p, h).doc == p.doc
  {
    match h
    case Tick(env, winner) => if env.captured { TickKeeps(id, p, env, winner); }
    case StartCommand(_) =>
    case CancelCommand =>
    case Idle =>
  }

  lemma TickKeeps(id: Pid, p: Prog, env: Env, winner: Option<Pid>)
    requires Inv(p) && env.captured
    requires Contends(id, AfterTrigger(id, p, env), env) ==> winner.Some?
    ensures Inv(TickProgram(id, p, env, winner).prog) && TickProgram(id, p, env, winner).prog.doc == p.doc
  {
    AfterTriggerKeeps(id, p, env);
    var q := AfterTrigger(id, p, env);
    if q.state.Running? {
      AfterWatchesKeeps(id, q, env, winner);
      var o := WatchPhase(id, q, env, winner);
      if !o.failed {
        AfterBodyKeeps(id, AfterWatches(id, q, env, o), env);
      }
    }
  }

  lemma {:induction false} LifeKeeps(id: Pid, ps: seq<Prog>, hs: seq<Happening>, n: nat)
    requires Life(id, ps, hs) && n < |ps|
    ensures Inv(ps[n]) && ps[n].doc == ps[0].doc
  {
    if n > 0 {
      LifeKeeps(id, ps, hs, n - 1);
      NextKeeps(id, ps[n - 1], hs[n - 1]);
    }
  }

  // ----- Watch discipline -----

  ghost predicate ObservesFalsy(id: Pid, p: Prog, i: nat, env: Env) {
    var q := AfterTrigger(id, p, env);
    env.captured && q.state.Running? && i < |q.doc.watches| && LookAt(id, q, i, env).Seen?
      && !LookAt(id, q, i, env).truthy
  }

  /** What a happening means to one watch: did it fire, was it seen falsy, and when. */
  datatype Mark = Mark(fired: bool, falsy: bool, now: int)

  ghost function MarkOf(id: Pid, p: Prog, h: Happening, i: nat): Mark
    requires Legal(id, p, h)
  {
    match h
    case Tick(env, winner) => Mark(TickProgram(id, p, env, winner).fired == Some(i), ObservesFalsy(id, p, i, env), env.now)
    case _ => Mark(false, false, 0)
  }

  /** The automaton of one watch. */
  ghost predicate WatchStep(w: Watch, s: WatchRuntime, m: Mark, s': WatchRuntime) {
    && (s.retired ==> s'.retired && !m.fired)
    && (s.lastTruthy && !s'.lastTruthy ==> m.falsy)
    && (m.fired ==>
          && !s.lastTruthy && s'.lastTruthy && s'.lastFired == Some(m.now)
          && (s.lastFired.Some? ==> m.now - s.lastFired.value >= w.throttleMs)
          && (w.lifetime.OneShot? ==> s'.retired))
    && (!m.fired ==> s'.lastFired == s.lastFired)
  }

  ghost predicate WatchRun(w: Watch, rs: seq<WatchRuntime>, ms: seq<Mark>) {
    && |rs| == |ms| + 1
    && rs[0] == FreshWatch
    && forall t :: 0 <= t < |ms| ==> WatchStep(w, rs[t], ms[t], rs[t + 1])
  }

  ghost function Records(ps: seq<Prog>, i: nat): seq<WatchRuntime> {
    seq(|ps|, t requires 0 <= t < |ps| => ps[t].Watching(i))
  }

  ghost function Marks(id: Pid, ps: seq<Prog>, hs: seq<Happening>, i: nat): seq<Mark>
    requires Life(id, ps, hs)
  {
    seq(|hs|, t requires 0 <= t < |hs| => MarkOf(id, ps[t], hs[t], i))
  }

  lemma WatchRecordMoves(id: Pid, q: Prog, env: Env, winner: Option<Pid>, i: nat)
    requires Inv(q) && q.state.Running? && i < |q.doc.watches|
    requires Contends(id, q, env) ==> winner.Some?
    ensures var o := WatchPhase(id, q, env, winner);
            var falsy := LookAt(id, q, i, env).Seen? && !LookAt(id, q, i, env).truthy;
            WatchStep(q.doc.watches[i], q.Watching(i), Mark(o.fired == Some(i), falsy, env.now),
                      AfterWatches(id, q, env, o).Watching(i))
    ensures WatchPhase(id, q, env, winner).failed ==> WatchPhase(id, q, env, winner).fired.None?
  {
    var o := WatchPhase(id, q, env, winner);
    assert o.fired != Some(i) ==> AfterWatches(id, q, env, o).Watching(i) == Observed(id, q, i, env);
  }

  lemma TickMovesWatch(id: Pid, p: Prog, env: Env, winner: Option<Pid>, i: nat)
    requires Inv(p) && i < |p.doc.watches|
    requires Legal(id, p, Tick(env, winner))
    ensures WatchStep(p.doc.watches[i], p.Watching(i), MarkOf(id, p, Tick(env, winner), i),
                      TickProgram(id, p, env, winner).prog.Watching(i))
  {
    if env.captured {
      AfterTriggerKeeps(id, p, env);
      var q := AfterTrigger(id, p, env);
      if q.state.Running? {
        var o := WatchPhase(id, q, env, winner);
        WatchRecordMoves(id, q, env, winner, i);
        if !o.failed {
          AfterWatchesKeeps(id, q, env, winner);
          AfterBodyKeeps(id, AfterWatches(id, q, env, o), env);
        }
      }
    }
  }

  /** Every life drives every one of its watches through the automaton. */
  lemma LifeIsWatchRun(id: Pid, ps: seq<Prog>, hs: seq<Happening>, i: nat)
    requires Life(id, ps, hs) && i < |ps[0].doc.watches|
    ensures WatchRun(ps[0].doc.watches[i], Records(ps, i), Marks(id, ps, hs, i))
  {
    forall t | 0 <= t < |hs|
      ensures WatchStep(ps[0].doc.watches[i], ps[t].Watching(i), MarkOf(id, ps[t], hs[t], i), ps[t + 1].Watching(i))
    {
      LifeKeeps(id, ps, hs, t);
      if hs[t].Tick? { TickMovesWatch(id, ps[t], hs[t].env, hs[t].winner, i); }
    }
  }

  lemma {:induction false} RetiredForever(w: Watch, rs: seq<WatchRuntime>, ms: seq<Mark>, a: nat, b: nat)
    requires WatchRun(w, rs, ms) && a <= b < |rs| && rs[a].retired
    ensures rs[b].retired && (b < |ms| ==> !ms[b].fired)
  {
    if a < b { RetiredForever(w, rs, ms, a, b - 1); }
    assert b < |ms| ==> WatchStep(w, rs[b], ms[b], rs[b + 1]);
  }

  lemma {:induction false} TruthyUntilFalsy(w: Watch, rs: seq<WatchRuntime>, ms: seq<Mark>, a: nat, b: nat)
    requires WatchRun(w, rs, ms) && a <= b < |rs| && rs[a].lastTruthy
    ensures rs[b].lastTruthy || exists t :: a <= t < b && ms[t].falsy
  {
    if a < b { TruthyUntilFalsy(w, rs, ms, a, b - 1); }
  }

  ghost function FireCount(ms: seq<Mark>, a: nat, b: nat): nat
    requires a <= b <= |ms|
  {
    if a == b then 0 else FireCount(ms, a, b - 1) + if ms[b - 1].fired then 1 else 0
  }

  /** After a fire at `a`, the last-fired stamp is `FireCount` throttles later. */
  lemma {:induction false} StampsSpread(w: Watch, rs: seq<WatchRuntime>, ms: seq<Mark>, a: nat, b: nat)
    requires WatchRun(w, rs, ms) && a < b <= |ms| && ms[a].fired
    ensures rs[b].lastFired.Some? && rs[b].lastFired.value - ms[a].now >= FireCount(ms, a + 1, b) * w.throttleMs
  {
    if a + 1 < b {
      StampsSpread(w, rs, ms, a, b - 1);
      if ms[b - 1].fired {
        assert FireCount(ms, a + 1, b) * w.throttleMs == FireCount(ms, a + 1, b - 1) * w.throttleMs + w.throttleMs;
      }
    }
  }

  /** What the automaton promises of any two moments of a run. */
  ghost predicate Disciplined(w: Watch, rs: seq<WatchRuntime>, ms: seq<Mark>, a: nat, b: nat)
    requires a < b < |ms| <= |rs|
  {
    && (rs[a].retired ==> !ms[b].fired && rs[b].retired)
    && (ms[a].fired && ms[b].fired ==>
          && !w.lifetime.OneShot?
          && (exists t :: a < t < b && ms[t].falsy)
          && ms[b].now - ms[a].now >= FireCount(ms, a + 1, b + 1) * w.throttleMs)
  }

  lemma RunIsDisciplined(w: Watch, rs: seq<WatchRuntime>, ms: seq<Mark>, a: nat, b: nat)
    requires WatchRun(w, rs, ms) && a < b < |ms|
    ensures Disciplined(w, rs, ms, a, b)
  {
    assert WatchStep(w, rs[a], ms[a], rs[a + 1]) && WatchStep(w, rs[b], ms[b], rs[b + 1]);
    if rs[a].retired { RetiredForever(w, rs, ms, a, b); }
    if ms[a].fired && ms[b].fired {
      if w.lifetime.OneShot? { RetiredForever(w, rs, ms, a + 1, b); assert false; }
      TruthyUntilFalsy(w, rs, ms, a + 1, b);
      StampsSpread(w, rs, ms, a, b + 1);
    }
  }

  /** Watch discipline over a whole life: a retired watch never fires; a one-shot
      watch fires at most once; between two fires the watch was seen falsy; and
      k fires span at least (k - 1) throttle windows. */
  lemma WatchDiscipline(id: Pid, ps: seq<Prog>, hs: seq<Happening>, i: nat, a: nat, b: nat)
    requires Life(id, ps, hs) && i < |ps[0].doc.watches| && a < b < |hs|
    ensures Disciplined(ps[0].doc.watches[i], Records(ps, i), Marks(id, ps, hs, i), a, b)
  {
    LifeIsWatchRun(id, ps, hs, i);
    RunIsDisciplined(ps[0].doc.watches[i], Records(ps, i), Marks(id, ps, hs, i), a, b);
  }

  lemma TimeoutWindowClosed(id: Pid, p: Prog, env: Env, winner: Option<Pid>, i: nat)
    requires !p.state.Waiting? && i < |p.doc.watches| && p.doc.watches[i].lifetime.TimeoutMs?
    requires Legal(id, p, Tick(env, winner))
    requires p.runningSince.Some? && env.now - p.runningSince.value >= p.doc.watches[i].lifetime.ms
    ensures !MarkOf(id, p, Tick(env, winner), i).fired
  {
  }

  lemma SinceKept(id: Pid, p: Prog, h: Happening)
    requires Legal(id, p, h) && !p.state.Waiting? && !h.StartCommand?
    ensures Next(id, p, h).runningSince == p.runningSince && !Next(id, p, h).state.Waiting?
  {
  }

  /** A timeout watch never fires once its window has elapsed. The window opens
      when the program enters `Running` (moment `a`), and only `Start` reopens it. */
  lemma {:induction false} TimeoutWatchFallsSilent(id: Pid, ps: seq<Prog>, hs: seq<Happening>, i: nat, a: nat, b: nat)
    requires Life(id, ps, hs) && a <= b < |hs| && i < |ps[0].doc.watches| && ps[0].doc.watches[i].lifetime.TimeoutMs?
    requires ps[a].state.Running? && ps[a].runningSince.Some?
    requires forall t :: a <= t < b ==> !hs[t].StartCommand?
    requires hs[b].Tick? && hs[b].env.now - ps[a].runningSince.value >= ps[0].doc.watches[i].lifetime.ms
    ensures !MarkOf(id, ps[b], hs[b], i).fired
  {
    SinceKeptFrom(id, ps, hs, a, b);
    LifeKeeps(id, ps, hs, b);
    TimeoutWindowClosed(id, ps[b], hs[b].env, hs[b].winner, i);
  }

  lemma {:induction false} SinceKeptFrom(id: Pid, ps: seq<Prog>, hs: seq<Happening>, a: nat, b: nat)
    requires Life(id, ps, hs) && a <= b < |ps| && !ps[a].state.Waiting?
    requires forall t :: a <= t < b ==> !hs[t].StartCommand?
    ensures ps[b].runningSince == ps[a].runningSince && !ps[b].state.Waiting?
  {
    if a < b {
      SinceKeptFrom(id, ps, hs, a, b - 1);
      SinceKept(id, ps[b - 1], hs[b - 1]);
    }
  }

  // ----- When a watch does fire -----

  /** A rising edge that nothing suppresses: live, past its throttle, inside its window. */
  ghost predicate Due(id: Pid, q: Prog, i: nat, env: Env) {
    && i < |q.doc.watches|
    && var (w, s) := (q.doc.watches[i], q.Watching(i));
    && env.truth(id, match w.when case ByName(n) => Named(n) case Inline => InlineOf(i)) == Some(true)
    && !s.lastTruthy && !s.retired
    && (s.lastFired.Some? ==> env.now - s.lastFired.value >= w.throttleMs)
    && (w.lifetime.TimeoutMs? ==> env.now - q.runningSince.GetOr(env.now) < w.lifetime.ms)
    && (w.lifetime.UntilPredicate? ==> env.truth(id, Named(w.lifetime.name)) != Some(true))
  }

  lemma DueMeansFire(id: Pid, q: Prog, i: nat, env: Env)
    ensures Fires(id, q, i, env) <==> Due(id, q, i, env)
  {
  }

  ghost predicate FirstDue(id: Pid, q: Prog, i: nat, env: Env) {
    Due(id, q, i, env) && forall j: nat :: j < i ==> !Due(id, q, j, env)
  }

  lemma FirstFireIsFirstDue(id: Pid, q: Prog, i: nat, env: Env)
    ensures FirstFire(id, q, env) == Some(i) <==> FirstDue(id, q, i, env)
  {
    forall j: nat ensures Fires(id, q, j, env) <==> Due(id, q, j, env) { DueMeansFire(id, q, j, env); }
  }

  /** The watch has no steps, or they won arbitration and all of them dispatched. */
  ghost predicate Dispatches(id: Pid, q: Prog, i: nat, env: Env, winner: Option<Pid>)
    requires i < |q.doc.watches|
  {
    q.doc.watches[i].steps != [] ==> winner == Some(id) && RunSteps(id, i, q.doc.watches[i].steps, env).error.None?
  }

  lemma PhaseFires(id: Pid, q: Prog, env: Env, winner: Option<Pid>, i: nat)
    requires q.state.Running? && (Contends(id, q, env) ==> winner.Some?)
    ensures var o := WatchPhase(id, q, env, winner);
            && (o.fired == Some(i) <==> FirstFire(id, q, env) == Some(i) && Dispatches(id, q, i, env, winner))
            && (o.failed ==> o.fired.None?)
  {
  }

  /** A watch fires in a tick exactly when the program runs, the watch is its first due
      one, and its steps, if any, won arbitration and all dispatched. */
  lemma FiresExactlyWhenDue(id: Pid, p: Prog, env: Env, winner: Option<Pid>, i: nat)
    requires Legal(id, p, Tick(env, winner))
    ensures var q := AfterTrigger(id, p, env);
            TickProgram(id, p, env, winner).fired == Some(i) <==>
              env.captured && q.state.Running? && FirstDue(id, q, i, env) && Dispatches(id, q, i, env, winner)
  {
    var q := AfterTrigger(id, p, env);
    if env.captured && q.state.Running? {
      FirstFireIsFirstDue(id, q, i, env);
      PhaseFires(id, q, env, winner, i);
    }
  }

  /** The tick's outcome for a contender that loses arbitration. */
  ghost predicate LosesEdge(id: Pid, p: Prog, h: Happening, i: nat) {
    && h.Tick? && h.env.captured && h.winner != Some(id)
    && var q := AfterTrigger(id, p, h.env);
    q.state.Running? && FirstFire(id, q, h.env) == Some(i) && q.doc.watches[i].steps != []
  }

  lemma LoserSeesTruthy(id: Pid, p: Prog, h: Happening, i: nat)
    requires Inv(p) && Legal(id, p, h) && LosesEdge(id, p, h, i)
    ensures Next(id, p, h).Watching(i).lastTruthy && !MarkOf(id, p, h, i).fired
  {
    AfterTriggerKeeps(id, p, h.env);
    var q := AfterTrigger(id, p, h.env);
    var o := WatchPhase(id, q, h.env, h.winner);
    assert AfterWatches(id, q, h.env, o).Watching(i) == Observed(id, q, i, h.env);
  }

  /** Losing arbitration consumes the rising edge: the deferred watch fires again only
      after its predicate has been seen falsy. */
  lemma LoserForfeitsEdge(id: Pid, ps: seq<Prog>, hs: seq<Happening>, i: nat, a: nat, b: nat)
    requires Life(id, ps, hs) && i < |ps[0].doc.watches| && a < b < |hs| && LosesEdge(id, ps[a], hs[a], i)
    requires MarkOf(id, ps[b], hs[b], i).fired
    ensures exists t :: a < t < b && MarkOf(id, ps[t], hs[t], i).falsy
  {
    LifeKeeps(id, ps, hs, a);
    LoserSeesTruthy(id, ps[a], hs[a], i);
    LifeIsWatchRun(id, ps, hs, i);
    var w, rs, ms := ps[0].doc.watches[i], Records(ps, i), Marks(id, ps, hs, i);
    assert WatchStep(w, rs[b], ms[b], rs[b + 1]) && rs[a + 1].lastTruthy;
    TruthyUntilFalsy(w, rs, ms, a + 1, b);
  }
}
