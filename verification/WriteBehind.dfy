/** The daemon as a transition system: request handlers, the command channel, the
    scheduler, the event channel and the pump that folds events into the store,
    in every interleaving and across restarts. */
module WriteBehind {
  import opened Common
  import opened Program
  import opened Scheduler
  import Store

  // ----- The event pump -----

  /** The state an event stands for, if it stands for one. */
  function StateIn(e: Event): Option<(Pid, ProgramState)> {
    match e
    case StateChanged(id, _, to) => Some((id, to))
    case ProgramCompleted(id) => Some((id, Completed))
    case ProgramFailed(id, _) => Some((id, Failed))
    case ProgramResumed(id, _) => Some((id, Running))
    case _ => None
  }

  /** What the pump does to one row on one event. */
  function PersistRow(row: Store.Row, e: Event, at: int): Store.Row
    requires StateIn(e).Some?
  {
    var row' := Store.StateSet(row, StateIn(e).value.1, at);
    match e
    case ProgramFailed(_, reason) => row'.(errorCode := Some(ReasonText(reason)), errorMsg := Some(ReasonText(reason)))
    case ProgramResumed(_, fromStep) => row'.(cursor := fromStep)
    case _ => row'
  }

  function Persist(rows: Store.Rows, e: Event, at: int): Store.Rows {
    match StateIn(e)
    case Some((id, _)) => if id in rows then rows[id := PersistRow(rows[id], e, at)] else rows
    case None => rows
  }

  /** What an event makes of the row of `id`, told by its fields. */
  ghost predicate Pumped(id: Pid, row: Store.Row, e: Event, at: int, row': Store.Row) {
    match e
    case StateChanged(pid, _, to) => if pid == id then Store.StateUpdated(row, to, at, row') else row' == row
    case ProgramCompleted(pid) => if pid == id then Store.StateUpdated(row, Completed, at, row') else row' == row
    case ProgramFailed(pid, reason) =>
      if pid == id then
        && Store.StateUpdated(row, Failed, at, row'.(errorCode := row.errorCode, errorMsg := row.errorMsg))
        && row'.errorCode == Some(ReasonText(reason)) && row'.errorMsg == Some(ReasonText(reason))
      else row' == row
    case ProgramResumed(pid, fromStep) =>
      if pid == id then Store.StateUpdated(row, Running, at, row'.(cursor := row.cursor)) && row'.cursor == fromStep
      else row' == row
    case _ => row' == row
  }

  /** The pump's body for one event. A missing row is logged and ignored. */
  method PumpOne(db: Store.Db, e: Event, at: int)
    modifies db
    ensures db.rows == Persist(old(db.rows), e, at)
    ensures db.rows.Keys == old(db.rows).Keys
    ensures forall id :: id in db.rows ==> Pumped(id, old(db.rows)[id], e, at, db.rows[id])
  {
    match e {
      case StateChanged(id, _, to) =>
        var _ := db.UpdateState(id, to, at);
      case ProgramCompleted(id) =>
        var _ := db.UpdateState(id, Completed, at);
      case ProgramFailed(id, reason) =>
        var _ := db.UpdateState(id, Failed, at);
        db.SetLastError(id, ReasonText(reason), ReasonText(reason));
      case ProgramResumed(id, fromStep) =>
        var _ := db.UpdateState(id, Running, at);
        var _ := db.SetBodyCursor(id, fromStep);
      case _ =>
    }
  }

  /** The state of `id` once the queued events have been folded onto `s`. */
  ghost function Fold(id: Pid, s: ProgramState, es: seq<Event>): ProgramState {
    if es == [] then s
    else
      var e := StateIn(es[|es| - 1]);
      if e.Some? && e.value.0 == id then e.value.1 else Fold(id, s, es[..|es| - 1])
  }

  lemma {:induction false} FoldConcat(id: Pid, s: ProgramState, a: seq<Event>, b: seq<Event>)
    ensures Fold(id, s, a + b) == Fold(id, Fold(id, s, a), b)
  {
    if b == [] {
      assert a + b == a;
    } else {
      FoldConcat(id, s, a, b[..|b| - 1]);
      assert (a + b)[..|a + b| - 1] == a + b[..|b| - 1];
    }
  }

  /** The events among some effects. */
  function Events(es: seq<Effect>): seq<Event> {
    if es == [] then []
    else Events(es[..|es| - 1]) + match es[|es| - 1] case Emit(e) => [e] case Sent(_, _, _) => []
  }

  lemma {:induction false} EventsConcat(a: seq<Effect>, b: seq<Effect>)
    ensures Events(a + b) == Events(a) + Events(b)
  {
    if b == [] {
      assert a + b == a;
    } else {
      EventsConcat(a, b[..|b| - 1]);
      assert (a + b)[..|a + b| - 1] == a + b[..|b| - 1];
    }
  }

  /** The state `e` gives `id`, over the state it had. */
  ghost function Told(id: Pid, s: ProgramState, e: Effect): ProgramState {
    if e.Emit? && StateIn(e.event).Some? && StateIn(e.event).value.0 == id then StateIn(e.event).value.1 else s
  }

  lemma FoldSnoc(id: Pid, s: ProgramState, es: seq<Effect>, e: Effect)
    ensures Fold(id, s, Events(es + [e])) == Told(id, Fold(id, s, Events(es)), e)
  {
    assert (es + [e])[..|es|] == es;
    if e.Emit? {
      assert (Events(es) + [e.event])[..|Events(es)|] == Events(es);
    } else {
      assert Events(es + [e]) == Events(es);
    }
  }

  predicate Silent(e: Effect) {
    e.Sent? || StateIn(e.event).None?
  }

  lemma {:induction false} FoldSilent(id: Pid, s: ProgramState, es: seq<Effect>)
    requires forall e :: e in es ==> Silent(e)
    ensures Fold(id, s, Events(es)) == s
  {
    if es != [] {
      FoldSilent(id, s, es[..|es| - 1]);
      FoldSnoc(id, s, es[..|es| - 1], es[|es| - 1]);
      assert es == es[..|es| - 1] + [es[|es| - 1]];
      assert Silent(es[|es| - 1]);
    }
  }

  /** The last event decides, if it tells a state of `id`. */
  lemma FoldLast(id: Pid, s: ProgramState, es: seq<Effect>, s': ProgramState)
    requires es != [] && es[|es| - 1].Emit? && StateIn(es[|es| - 1].event) == Some((id, s'))
    ensures Fold(id, s, Events(es)) == s'
  {
    FoldSnoc(id, s, es[..|es| - 1], es[|es| - 1]);
    assert es == es[..|es| - 1] + [es[|es| - 1]];
  }

  /** Folding for `id` looks only at the effects of `id`. */
  lemma {:induction false} FoldIsLocal(id: Pid, s: ProgramState, es: seq<Effect>)
    ensures Fold(id, s, Events(es)) == Fold(id, s, Events(EffectsOf(id, es)))
  {
    if es != [] {
      var init, last := es[..|es| - 1], es[|es| - 1];
      assert es == init + [last];
      FoldIsLocal(id, s, init);
      FoldSnoc(id, s, init, last);
      if Owned(last, id) {
        FoldSnoc(id, s, EffectsOf(id, init), last);
      } else {
        assert EffectsOf(id, es) == EffectsOf(id, init);
      }
    }
  }

  // ----- A tick's events tell its state change -----

  lemma {:induction false} BurstIsSilent(id: Pid, watch: nat, steps: seq<Step>, env: Env, k: nat)
    requires k <= |steps|
    ensures forall e :: e in RunSteps(id, watch, steps, env, k).effects ==> Silent(e)
    decreases |steps| - k
  {
    if k < |steps| { BurstIsSilent(id, watch, steps, env, k + 1); }
  }

  lemma WatchPhaseFolds(id: Pid, q: Prog, env: Env, winner: Option<Pid>)
    requires q.state.Running? && (Contends(id, q, env) ==> winner.Some?)
    ensures var o := WatchPhase(id, q, env, winner);
            Fold(id, Running, Events(o.effects)) == if o.failed then Failed else Running
  {
    var o := WatchPhase(id, q, env, winner);
    if o.failed {
      FoldLast(id, Running, o.effects, Failed);
    } else {
      var f := FirstFire(id, q, env);
      if f.Some? { BurstIsSilent(id, f.value, q.doc.watches[f.value].steps, env, 0); }
      FoldSilent(id, Running, o.effects);
    }
  }

  lemma BodyFolds(id: Pid, q: Prog, env: Env)
    requires q.state.Running?
    ensures Fold(id, Running, Events(BodyEffects(id, q, env))) == AfterBody(id, q, env).state
  {
    var p, es := AfterBody(id, q, env), BodyEffects(id, q, env);
    if p.state.Running? {
      FoldSilent(id, Running, es);
    } else {
      FoldLast(id, Running, es, p.state);
    }
  }

  lemma FoldTwo(id: Pid, s: ProgramState, a: seq<Effect>, b: seq<Effect>)
    ensures Fold(id, s, Events(a + b)) == Fold(id, Fold(id, s, Events(a)), Events(b))
  {
    EventsConcat(a, b);
    FoldConcat(id, s, Events(a), Events(b));
  }

  lemma TriggerFolds(id: Pid, p: Prog, env: Env)
    ensures Fold(id, p.state, Events(TriggerEffects(id, p, env))) == AfterTrigger(id, p, env).state
  {
    var e := TriggerEffects(id, p, env);
    if e != [] { FoldLast(id, p.state, e, AfterTrigger(id, p, env).state); }
  }

  /** The watches and the body of a running program, behind the effects of its trigger. */
  lemma RunningFolds(id: Pid, s: ProgramState, e: seq<Effect>, q: Prog, env: Env, winner: Option<Pid>)
    requires q.state.Running? && (Contends(id, q, env) ==> winner.Some?) && Fold(id, s, Events(e)) == Running
    ensures var o := WatchPhase(id, q, env, winner);
            var r := AfterWatches(id, q, env, o);
            && Fold(id, s, Events(e + o.effects)) == r.state
            && (!o.failed ==> Fold(id, s, Events(e + o.effects + BodyEffects(id, r, env))) == AfterBody(id, r, env).state)
  {
    var o := WatchPhase(id, q, env, winner);
    var r := AfterWatches(id, q, env, o);
    WatchPhaseFolds(id, q, env, winner);
    FoldTwo(id, s, e, o.effects);
    if !o.failed {
      BodyFolds(id, r, env);
      FoldTwo(id, s, e + o.effects, BodyEffects(id, r, env));
    }
  }

  /** Folding a tick's events onto the state before it gives the state after it. */
  lemma TickFolds(id: Pid, p: Prog, env: Env, winner: Option<Pid>)
    requires env.captured && Contends(id, AfterTrigger(id, p, env), env) ==> winner.Some?
    ensures var t := TickProgram(id, p, env, winner); Fold(id, p.state, Events(t.effects)) == t.prog.state
  {
    if env.captured {
      var q, e := AfterTrigger(id, p, env), TriggerEffects(id, p, env);
      TriggerFolds(id, p, env);
      if q.state.Running? { RunningFolds(id, p.state, e, q, env, winner); }
    }
  }

  // ----- The daemon -----

  /** `outgoing` holds commands whose handler has written the store but not yet
      reached the channel; `inbox` and `queue` are the two channels. */
  datatype Daemon = Daemon(
    rows: Store.Rows,
    outgoing: seq<Command>,
    inbox: seq<Command>,
    programs: map<Pid, Prog>,
    queue: seq<Event>)

  datatype Act =
    | HandleSubmit(id: Pid, doc: Document)
    | HandleResume(id: Pid, fromStart: bool, now: int, loaded: Option<Document>)
    | HandleRequest(command: Command)
    | Deliver(k: nat)
    | DrainOne(now: int)
    | SchedulerTick(env: Env, winner: Option<Pid>, out: seq<Effect>)
    | Pump(at: int)
    | CollectPrograms(cutoff: int)
    | Restart(recovered: seq<Pid>, reload: seq<Command>)

  function RecoveryEvents(ids: seq<Pid>): seq<Event> {
    if ids == [] then [DaemonStarted]
    else [StateChanged(ids[0], Running, Failed), ProgramFailed(ids[0], DaemonRestarted)] + RecoveryEvents(ids[1..])
  }

  ghost predicate Does(s: Daemon, a: Act, s': Daemon) {
    match a
    case HandleSubmit(id, doc) =>
      s' == if id in s.rows then s
            else s.(rows := s.rows[id := Store.NewRow], outgoing := s.outgoing + [SubmitValidated(id, doc)])
    case HandleResume(id, fromStart, now, loaded) =>
      // When reloading the document fails the row has already been rewritten.
      if id in s.rows && Store.Resumable(s.rows[id]) then
        s' == s.(rows := s.rows[id := Store.ResumeSet(s.rows[id], fromStart, now)],
                 outgoing := s.outgoing + match loaded
                   case Some(doc) => [ResumeRunning(id, Store.ResumeCursor(s.rows[id], fromStart), doc)]
                   case None => [])
      else s' == s
    case HandleRequest(c) => (c.Cancel? || c.Start? || c.Shutdown?) && s' == s.(outgoing := s.outgoing + [c])
    case Deliver(k) =>
      k < |s.outgoing|
      && s' == s.(outgoing := s.outgoing[..k] + s.outgoing[k + 1..], inbox := s.inbox + [s.outgoing[k]])
    case DrainOne(now) =>
      s.inbox != []
      && s' == s.(inbox := s.inbox[1..], programs := Execute(s.programs, s.inbox[0], now),
                  queue := s.queue + Events(Announce(s.programs, s.inbox[0])))
    case SchedulerTick(env, winner, out) =>
      Ticked(env, winner, s.programs, s'.programs, out)
      && s' == s.(programs := s'.programs, queue := s.queue + Events(out))
    case Pump(at) => s.queue != [] && s' == s.(rows := Persist(s.rows, s.queue[0], at), queue := s.queue[1..])
    case CollectPrograms(cutoff) =>
      s' == s.(rows := map id | id in s.rows && !Store.Expired(s.rows[id], cutoff) :: s.rows[id])
    case Restart(recovered, reload) =>
      && Distinct(recovered) && (forall id :: id in recovered <==> id in s.rows && s.rows[id].state.Running?)
      && (forall c :: c in reload ==> c.SubmitValidated? && c.pid in s.rows && s.rows[c.pid].state.Waiting?)
      && s' == Daemon(Store.Recover(s.rows), [], reload, map[], RecoveryEvents(recovered))
  }

  /** A command that will install a fresh record for `id` is on its way. */
  ghost predicate Incoming(s: Daemon, id: Pid) {
    exists c :: c in s.outgoing + s.inbox && (c.SubmitValidated? || c.ResumeRunning?) && c.pid == id
  }

  /** Write-behind agreement for one program. */
  ghost predicate Agrees(s: Daemon, id: Pid) {
    id in s.programs && id in s.rows && !Incoming(s, id) ==>
      Fold(id, s.rows[id].state, s.queue) == s.programs[id].state
  }

  /** Recovery marks belong to rows the scheduler does not know, and such rows stay
      failed. Without this, a resume that fails to reload would break agreement. */
  ghost predicate MarksApart(s: Daemon) {
    forall id :: Store.Marked(s.rows, id) ==>
      && s.rows[id].state.Failed?
      && id !in s.programs && !Incoming(s, id)
      && forall e :: e in s.queue && StateIn(e).Some? && StateIn(e).value.0 == id ==> StateIn(e).value.1.Failed?
  }

  ghost predicate Sound(s: Daemon) {
    MarksApart(s) && forall id :: Agrees(s, id)
  }

  /** The store as any earlier run may have left it, seen by a fresh process. */
  ghost predicate Boot(s: Daemon) {
    && s.outgoing == [] && s.inbox == [] && s.queue == [] && s.programs == map[]
    && forall id :: Store.Marked(s.rows, id) ==> s.rows[id].state.Failed?
  }

  ghost predicate DaemonRun(ss: seq<Daemon>, acts: seq<Act>) {
    && |ss| == |acts| + 1
    && Boot(ss[0])
    && forall t: nat :: t < |acts| ==> DoesAt(ss, acts, t)
  }

  ghost predicate DoesAt(ss: seq<Daemon>, acts: seq<Act>, t: nat)
    requires t < |acts| && |ss| == |acts| + 1
  {
    Does(ss[t], acts[t], ss[t + 1])
  }

  /** What draining a command announces. */
  lemma DrainAnnounces(s: Daemon, now: int, s': Daemon)
    requires Does(s, DrainOne(now), s')
    ensures var c := s.inbox[0];
            s'.queue == s.queue + match c
              case SubmitValidated(id, _) => [ProgramSubmitted(id), StateChanged(id, Pending, Waiting)]
              case ResumeRunning(id, fromStep, _) => [StateChanged(id, Failed, Running), ProgramResumed(id, fromStep)]
              case Start(id) => if id in s.programs then [StateChanged(id, s.programs[id].state, Running)] else []
              case Cancel(id) => if id in s.programs then [StateChanged(id, s.programs[id].state, Cancelled)] else []
              case Shutdown => []
  {
    var es := Announce(s.programs, s.inbox[0]);
    if |es| == 1 { EventsOfOne(es[0]); assert es == [es[0]]; }
    if |es| == 2 { EventsOfTwo(es[0], es[1]); assert es == [es[0], es[1]]; }
  }

  lemma EventsOfOne(e: Effect)
    requires e.Emit?
    ensures Events([e]) == [e.event]
  {
    assert [e][..0] == [];
  }

  lemma EventsOfTwo(e: Effect, f: Effect)
    requires e.Emit? && f.Emit?
    ensures Events([e, f]) == [e.event, f.event]
  {
    EventsOfOne(e);
    EventsOfOne(f);
    EventsConcat([e], [f]);
    assert [e, f] == [e] + [f];
  }

  // ----- Agreement is kept by every act -----

  lemma {:induction false} FoldPops(id: Pid, s: ProgramState, es: seq<Event>)
    requires es != []
    ensures var e := StateIn(es[0]);
            Fold(id, s, es) == Fold(id, if e.Some? && e.value.0 == id then e.value.1 else s, es[1..])
  {
    assert es == [es[0]] + es[1..];
    FoldConcat(id, s, [es[0]], es[1..]);
    assert [es[0]][..0] == [];
  }

  lemma ReasonIsNoMark(e: RuntimeError)
    ensures ReasonText(e) != Store.RESTART_CODE
  {
    assert ReasonText(e)[0] != Store.RESTART_CODE[0] || |ReasonText(e)| != |Store.RESTART_CODE|;
  }

  lemma PumpKeeps(s: Daemon, at: int, s': Daemon)
    requires Sound(s) && Does(s, Pump(at), s')
    ensures Sound(s')
  {
    var e := s.queue[0];
    if e.ProgramFailed? { ReasonIsNoMark(e.reason); }
    forall id ensures Incoming(s', id) == Incoming(s, id) { }
    forall id | Store.Marked(s'.rows, id) ensures Store.Marked(s.rows, id) && s'.rows[id].state.Failed? {
      assert e in s.queue;
    }
    forall id ensures Agrees(s', id) {
      assert Agrees(s, id);
      if id in s.rows { FoldPops(id, s.rows[id].state, s.queue); }
    }
  }

  /** What a command announces is about its own program, and tells its new state. */
  lemma AnnounceFolds(programs: map<Pid, Prog>, c: Command, now: int, id: Pid, x: ProgramState)
    requires !c.Shutdown?
    ensures var es, after := Announce(programs, c), Execute(programs, c, now);
            if c.pid == id then id in after ==> Fold(id, x, Events(es)) == after[id].state
            else Fold(id, x, Events(es)) == x && EffectsOf(id, es) == []
  {
    var es, after := Announce(programs, c), Execute(programs, c, now);
    if c.pid == id {
      if id in after { FoldLast(id, x, es, after[id].state); }
    } else {
      EffectsOfOwner(id, c.pid, es);
      FoldIsLocal(id, x, es);
    }
  }

  lemma ForeignEventsAbsent(id: Pid, out: seq<Effect>, e: Event)
    requires EffectsOf(id, out) == [] && e in Events(out) && StateIn(e).Some?
    ensures StateIn(e).value.0 != id
  {
    EventIsEmitted(out, e);
    if Owned(Emit(e), id) { EffectsOfKeepsOwned(id, out, Emit(e)); }
  }

  lemma {:induction false} EventIsEmitted(es: seq<Effect>, e: Event)
    requires e in Events(es)
    ensures Emit(e) in es
  {
    if e in Events(es[..|es| - 1]) { EventIsEmitted(es[..|es| - 1], e); }
  }

  lemma DrainKeeps(s: Daemon, now: int, s': Daemon)
    requires Sound(s) && Does(s, DrainOne(now), s')
    ensures Sound(s')
  {
    var c := s.inbox[0];
    var es := Announce(s.programs, c);
    assert c in s.outgoing + s.inbox;
    forall id ensures Incoming(s', id) ==> Incoming(s, id) { }
    forall id ensures !c.Shutdown? && id == c.pid && id in s'.programs ==> !Store.Marked(s.rows, id) { }
    forall id, e | Store.Marked(s'.rows, id) && e in Events(es) && StateIn(e).Some? ensures StateIn(e).value.0 != id {
      if !c.Shutdown? && id != c.pid {
        AnnounceFolds(s.programs, c, now, id, Failed);
        ForeignEventsAbsent(id, es, e);
      }
    }
    forall id ensures Agrees(s', id) {
      if id in s'.programs && id in s'.rows && !Incoming(s', id) {
        DrainAgrees(s, now, s', id);
      }
    }
  }

  lemma DrainAgrees(s: Daemon, now: int, s': Daemon, id: Pid)
    requires Agrees(s, id) && Does(s, DrainOne(now), s')
    requires id in s'.programs && id in s'.rows && !Incoming(s', id)
    ensures Agrees(s', id)
  {
    var c, x := s.inbox[0], s.rows[id].state;
    FoldConcat(id, x, s.queue, Events(Announce(s.programs, c)));
    if !c.Shutdown? {
      AnnounceFolds(s.programs, c, now, id, Fold(id, x, s.queue));
    }
    if c.Shutdown? || c.pid != id {
      assert s.inbox == [c] + s.inbox[1..];
      assert !Incoming(s, id);
    }
  }

  /** The scheduler's whole drain is one such act per command before a shutdown. */
  lemma {:induction false} WholeDrainKeeps(s: Daemon, clock: nat -> int, k: nat)
    requires Sound(s)
    ensures var cs := BeforeShutdown(s.inbox);
            && |cs| <= |s.inbox|
            && Sound(s.(inbox := s.inbox[|cs|..], programs := ExecuteAll(s.programs, cs, clock, k),
                        queue := s.queue + Events(AnnounceAll(s.programs, cs, clock, k))))
    decreases |s.inbox|
  {
    if s.inbox == [] || s.inbox[0].Shutdown? {
      assert s.queue + [] == s.queue;
    } else {
      var c, cs := s.inbox[0], BeforeShutdown(s.inbox[1..]);
      var es, s1 := Announce(s.programs, c), s.(inbox := s.inbox[1..], programs := Execute(s.programs, s.inbox[0], clock(k)),
                                                queue := s.queue + Events(Announce(s.programs, s.inbox[0])));
      DrainKeeps(s, clock(k), s1);
      WholeDrainKeeps(s1, clock, k + 1);
      var more := AnnounceAll(s1.programs, cs, clock, k + 1);
      EventsConcat(es, more);
      assert ([c] + cs)[1..] == cs && s1.inbox[|cs|..] == s.inbox[|cs| + 1..];
      assert s.queue + Events(es + more) == s.queue + Events(es) + Events(more);
    }
  }

  lemma TickKeeps(s: Daemon, env: Env, winner: Option<Pid>, out: seq<Effect>, s': Daemon)
    requires Sound(s) && Does(s, SchedulerTick(env, winner, out), s')
    ensures Sound(s')
  {
    forall id ensures Incoming(s', id) == Incoming(s, id) { }
    forall id, e | id !in s.programs && e in Events(out) && StateIn(e).Some? ensures StateIn(e).value.0 != id {
      if env.captured {
        ForeignEventsAbsent(id, out, e);
      } else {
        EventIsEmitted(out, e);
      }
    }
    forall id ensures Agrees(s', id) {
      assert Agrees(s, id);
      if id in s.programs && id in s.rows {
        FoldConcat(id, s.rows[id].state, s.queue, Events(out));
        TickTells(s.programs, env, winner, s'.programs, out, id);
      }
    }
  }

  lemma TickTells(before: map<Pid, Prog>, env: Env, winner: Option<Pid>, after: map<Pid, Prog>, out: seq<Effect>,
                  id: Pid)
    requires Ticked(env, winner, before, after, out) && id in before
    ensures id in after && Fold(id, before[id].state, Events(out)) == after[id].state
  {
    if env.captured {
      assert TickedOne(env, winner, id, before, after, out);
      FoldIsLocal(id, before[id].state, out);
      TickFolds(id, before[id], env, winner);
    } else {
      FoldSilent(id, before[id].state, out);
    }
  }

  lemma HandlersKeep(s: Daemon, a: Act, s': Daemon)
    requires Sound(s) && Does(s, a, s')
    requires a.HandleSubmit? || a.HandleResume? || a.HandleRequest? || a.Deliver? || a.CollectPrograms?
    ensures Sound(s')
  {
    forall id | Incoming(s', id) && !Incoming(s, id) ensures !Store.Marked(s'.rows, id) {
      if a.Deliver? { DeliverMoves(s, a.k, s', id); }
    }
    forall id | Incoming(s, id) ensures Incoming(s', id) { IncomingStays(s, a, s', id); }
    forall id ensures Agrees(s', id) { assert Agrees(s, id); }
  }

  lemma DeliverMoves(s: Daemon, k: nat, s': Daemon, id: Pid)
    requires Does(s, Deliver(k), s')
    ensures Incoming(s', id) ==> Incoming(s, id)
  {
    forall c | c in s'.outgoing + s'.inbox ensures c in s.outgoing + s.inbox { }
  }

  lemma IncomingStays(s: Daemon, a: Act, s': Daemon, id: Pid)
    requires Does(s, a, s') && Incoming(s, id)
    requires a.HandleSubmit? || a.HandleResume? || a.HandleRequest? || a.Deliver? || a.CollectPrograms?
    ensures Incoming(s', id)
  {
    var c :| c in s.outgoing + s.inbox && (c.SubmitValidated? || c.ResumeRunning?) && c.pid == id;
    if a.Deliver? {
      var k := a.k;
      assert s.outgoing == s.outgoing[..k] + [s.outgoing[k]] + s.outgoing[k + 1..];
    }
    assert c in s'.outgoing + s'.inbox;
  }

  lemma {:induction false} RecoveryEventsFail(ids: seq<Pid>, e: Event)
    requires e in RecoveryEvents(ids) && StateIn(e).Some?
    ensures StateIn(e).value.1.Failed?
  {
    if ids != [] && e in RecoveryEvents(ids[1..]) { RecoveryEventsFail(ids[1..], e); }
  }

  lemma RestartKeeps(s: Daemon, recovered: seq<Pid>, reload: seq<Command>, s': Daemon)
    requires forall id :: Store.Marked(s.rows, id) ==> s.rows[id].state.Failed?
    requires Does(s, Restart(recovered, reload), s')
    ensures Sound(s')
  {
    forall e | e in s'.queue && StateIn(e).Some? ensures StateIn(e).value.1.Failed? {
      RecoveryEventsFail(recovered, e);
    }
  }

  /** Write-behind agreement: in every run of the daemon, restarts included, for each
      program the scheduler holds that has a row and no submit or resume on its way,
      folding the queued events onto the stored state gives the state in memory. */
  lemma {:induction false} WriteBehindAgreement(ss: seq<Daemon>, acts: seq<Act>, n: nat)
    requires DaemonRun(ss, acts) && n < |ss|
    ensures Sound(ss[n])
  {
    if n > 0 {
      WriteBehindAgreement(ss, acts, n - 1);
      var s, a, s' := ss[n - 1], acts[n - 1], ss[n];
      assert DoesAt(ss, acts, n - 1);
      match a
      case DrainOne(now) => DrainKeeps(s, now, s');
      case SchedulerTick(env, winner, out) => TickKeeps(s, env, winner, out, s');
      case Pump(at) => PumpKeeps(s, at, s');
      case Restart(recovered, reload) => RestartKeeps(s, recovered, reload, s');
      case _ => HandlersKeep(s, a, s');
    }
  }

  /** So whenever the queue holds nothing about a settled program, store and memory agree. */
  lemma SettledStoreMatches(ss: seq<Daemon>, acts: seq<Act>, n: nat, id: Pid)
    requires DaemonRun(ss, acts) && n < |ss|
    requires id in ss[n].programs && id in ss[n].rows && !Incoming(ss[n], id)
    requires forall e :: e in ss[n].queue && StateIn(e).Some? ==> StateIn(e).value.0 != id
    ensures ss[n].rows[id].state == ss[n].programs[id].state
  {
    WriteBehindAgreement(ss, acts, n);
    assert Agrees(ss[n], id);
    FoldNothing(id, ss[n].rows[id].state, ss[n].queue);
  }

  lemma {:induction false} FoldNothing(id: Pid, s: ProgramState, es: seq<Event>)
    requires forall e :: e in es && StateIn(e).Some? ==> StateIn(e).value.0 != id
    ensures Fold(id, s, es) == s
  {
    if es != [] { FoldNothing(id, s, es[..|es| - 1]); }
  }
}
