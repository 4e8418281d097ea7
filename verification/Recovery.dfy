/** What becomes of the programs a restart recovers: the events startup queues about them
    close the resume that recovery opened, as soon as the pump reaches them. */
module Recovery {
  import opened Common
  import opened Program
  import opened Scheduler
  import opened WriteBehind
  import Store

  /** The failure event startup queues for a recovered program. */
  function Obituary(id: Pid): Event {
    ProgramFailed(id, DaemonRestarted)
  }

  ghost predicate CanResume(s: Daemon, id: Pid) {
    id in s.rows && Store.Resumable(s.rows[id])
  }

  /** No restart among the acts from `a` up to `b`. */
  ghost predicate NoRestart(acts: seq<Act>, a: nat, b: nat) {
    forall t :: a <= t < b && t < |acts| ==> !acts[t].Restart?
  }

  /** Persisting an event leaves a resumable row resumable exactly when the event tells
      nothing about it, or only restates that it failed. */
  lemma PumpClosesResume(rows: Store.Rows, id: Pid, e: Event, at: int)
    requires id in rows && Store.Resumable(rows[id])
    ensures Store.Resumable(Persist(rows, e, at)[id])
       <==> StateIn(e).None? || StateIn(e).value.0 != id || (e.StateChanged? && e.to.Failed?)
  {
    if e.ProgramFailed? { ReasonIsNoMark(e.reason); }
  }

  // ----- Marks are made by restarts only, and each has its event queued -----

  lemma NoNewMark(s: Daemon, a: Act, s': Daemon, id: Pid)
    requires Does(s, a, s') && !a.Restart?
    ensures Store.Marked(s'.rows, id) ==> Store.Marked(s.rows, id)
    ensures Store.Marked(s'.rows, id) && Obituary(id) in s.queue ==> Obituary(id) in s'.queue
  {
    if a.Pump? {
      var e := s.queue[0];
      if e.ProgramFailed? { ReasonIsNoMark(e.reason); }
      assert s.queue == [e] + s.queue[1..];
    }
  }

  lemma {:induction false} ObituaryQueued(ids: seq<Pid>, id: Pid)
    requires id in ids
    ensures Obituary(id) in RecoveryEvents(ids)
  {
    if id != ids[0] { ObituaryQueued(ids[1..], id); }
  }

  /** Until the next restart, a recovered program can be resumed only while the failure
      event startup queued about it is still waiting for the pump. */
  lemma {:induction false} ResumableOnlyUntilPumped(ss: seq<Daemon>, acts: seq<Act>, a: nat, n: nat, id: Pid)
    requires DaemonRun(ss, acts) && a < n < |ss| && NoRestart(acts, a + 1, n)
    requires acts[a].Restart? && id in acts[a].recovered
    ensures Store.Marked(ss[n].rows, id) ==> Obituary(id) in ss[n].queue
    ensures CanResume(ss[n], id) ==> Obituary(id) in ss[n].queue
  {
    if n == a + 1 {
      assert DoesAt(ss, acts, a);
      ObituaryQueued(acts[a].recovered, id);
    } else {
      ResumableOnlyUntilPumped(ss, acts, a, n - 1, id);
      assert DoesAt(ss, acts, n - 1);
      NoNewMark(ss[n - 1], acts[n - 1], ss[n], id);
    }
  }

  /** Once the pump has taken that event, the program cannot be resumed again before the
      next restart, whatever else happens. */
  lemma {:induction false} RecoveredRowCannotBeResumedAfterPump(ss: seq<Daemon>, acts: seq<Act>, a: nat, n: nat,
                                                                m: nat, id: Pid)
    requires DaemonRun(ss, acts) && a < n <= m < |ss| && NoRestart(acts, a + 1, m)
    requires acts[a].Restart? && id in acts[a].recovered && Obituary(id) !in ss[n].queue
    ensures !Store.Marked(ss[m].rows, id) && !CanResume(ss[m], id)
  {
    if n == m {
      ResumableOnlyUntilPumped(ss, acts, a, n, id);
    } else {
      RecoveredRowCannotBeResumedAfterPump(ss, acts, a, n, m - 1, id);
      assert DoesAt(ss, acts, m - 1);
      NoNewMark(ss[m - 1], acts[m - 1], ss[m], id);
    }
  }

  // ----- And until then it can be -----

  /** The queued events that tell a state of `id`. */
  ghost function About(id: Pid, es: seq<Event>): seq<Event> {
    if es == [] then []
    else About(id, es[..|es| - 1]) + if IsAbout(id, es[|es| - 1]) then [es[|es| - 1]] else []
  }

  predicate IsAbout(id: Pid, e: Event) {
    StateIn(e).Some? && StateIn(e).value.0 == id
  }

  lemma {:induction false} AboutConcat(id: Pid, a: seq<Event>, b: seq<Event>)
    ensures About(id, a + b) == About(id, a) + About(id, b)
  {
    if b == [] {
      assert a + b == a;
    } else {
      assert (a + b)[..|a + b| - 1] == a + b[..|b| - 1];
      AboutConcat(id, a, b[..|b| - 1]);
    }
  }

  lemma {:induction false} AboutNothing(id: Pid, es: seq<Event>)
    requires forall e :: e in es ==> !IsAbout(id, e)
    ensures About(id, es) == []
  {
    if es != [] { AboutNothing(id, es[..|es| - 1]); }
  }

  lemma {:induction false} AboutHolds(id: Pid, es: seq<Event>, e: Event)
    requires IsAbout(id, e)
    ensures e in es <==> e in About(id, es)
  {
    if es != [] { AboutHolds(id, es[..|es| - 1], e); }
  }

  ghost function Notices(id: Pid): seq<Event> {
    [StateChanged(id, Running, Failed), Obituary(id)]
  }

  lemma {:induction false} RecoveryNotices(ids: seq<Pid>, id: Pid)
    requires Distinct(ids)
    ensures About(id, RecoveryEvents(ids)) == if id in ids then Notices(id) else []
  {
    if ids == [] {
      assert [DaemonStarted][..0] == [];
    } else {
      RecoveryNotices(ids[1..], id);
      FirstNotices(ids, id);
      AboutNotices(id, ids[0]);
      assert id == ids[0] ==> id !in ids[1..];
      assert id in ids <==> id == ids[0] || id in ids[1..];
    }
  }

  lemma FirstNotices(ids: seq<Pid>, id: Pid)
    requires ids != []
    ensures About(id, RecoveryEvents(ids)) == About(id, Notices(ids[0])) + About(id, RecoveryEvents(ids[1..]))
  {
    AboutConcat(id, Notices(ids[0]), RecoveryEvents(ids[1..]));
  }

  lemma AboutNotices(id: Pid, other: Pid)
    ensures About(id, Notices(other)) == if id == other then Notices(id) else []
  {
    var two := Notices(other);
    assert two[..1] == [two[0]] && [two[0]][..0] == [];
    assert About(id, [two[0]]) == if id == other then [two[0]] else [];
  }

  /** A recovered program between the restart and its resume or collection: failed, unknown
      to the scheduler, and marked exactly while startup's notices are still queued. */
  ghost predicate Lying(s: Daemon, id: Pid) {
    && id in s.rows && s.rows[id].state.Failed? && id !in s.programs && !Incoming(s, id)
    && (About(id, s.queue) == Notices(id) || About(id, s.queue) == [Obituary(id)] || About(id, s.queue) == [])
    && (Store.Marked(s.rows, id) <==> About(id, s.queue) != [])
  }

  lemma RestartLies(s: Daemon, a: Act, s': Daemon, id: Pid)
    requires Does(s, a, s') && a.Restart? && id in a.recovered
    ensures Lying(s', id)
  {
    RecoveryNotices(a.recovered, id);
  }

  lemma PumpLies(s: Daemon, at: int, s': Daemon, id: Pid)
    requires Does(s, Pump(at), s') && Lying(s, id)
    ensures Lying(s', id)
  {
    var e := s.queue[0];
    assert s.queue == [e] + s.queue[1..] && [e][..0] == [];
    AboutConcat(id, [e], s.queue[1..]);
    assert About(id, [e]) == if IsAbout(id, e) then [e] else [];
    assert Incoming(s', id) == Incoming(s, id);
    if IsAbout(id, e) {
      assert About(id, s.queue)[0] == e && About(id, s.queue)[1..] == About(id, s.queue[1..]);
      if e.ProgramFailed? { ReasonIsNoMark(e.reason); }
    } else {
      assert About(id, s.queue) == About(id, s.queue[1..]);
    }
  }

  lemma TickLies(s: Daemon, env: Env, winner: Option<Pid>, out: seq<Effect>, s': Daemon, id: Pid)
    requires Does(s, SchedulerTick(env, winner, out), s') && Lying(s, id)
    ensures Lying(s', id)
  {
    forall e | e in Events(out) ensures !IsAbout(id, e) {
      if StateIn(e).Some? {
        if env.captured { ForeignEventsAbsent(id, out, e); } else { EventIsEmitted(out, e); }
      }
    }
    AboutNothing(id, Events(out));
    AboutConcat(id, s.queue, Events(out));
    assert Incoming(s', id) == Incoming(s, id);
  }

  /** Commands about a program the scheduler does not hold announce nothing, unless they
      install it. */
  lemma AnnouncesOthers(programs: map<Pid, Prog>, c: Command, id: Pid)
    requires id !in programs && !((c.SubmitValidated? || c.ResumeRunning?) && c.pid == id)
    ensures About(id, Events(Announce(programs, c))) == []
  {
    forall e | e in Events(Announce(programs, c)) ensures !IsAbout(id, e) { EventIsEmitted(Announce(programs, c), e); }
    AboutNothing(id, Events(Announce(programs, c)));
  }

  lemma DrainTellsNothing(s: Daemon, now: int, s': Daemon, id: Pid)
    requires Does(s, DrainOne(now), s') && id !in s.programs && !Incoming(s, id)
    ensures About(id, s'.queue) == About(id, s.queue)
  {
    var c := s.inbox[0];
    assert c in s.outgoing + s.inbox;
    AnnouncesOthers(s.programs, c, id);
    AboutConcat(id, s.queue, Events(Announce(s.programs, c)));
  }

  lemma DrainInstallsOthers(s: Daemon, now: int, s': Daemon, id: Pid)
    requires Does(s, DrainOne(now), s') && id !in s.programs && !Incoming(s, id)
    ensures id !in s'.programs && !Incoming(s', id) && s'.rows == s.rows
  {
    assert s.inbox[0] in s.outgoing + s.inbox;
    assert forall d :: d in s'.outgoing + s'.inbox ==> d in s.outgoing + s.inbox;
  }

  lemma DrainLies(s: Daemon, now: int, s': Daemon, id: Pid)
    requires Does(s, DrainOne(now), s') && Lying(s, id)
    ensures Lying(s', id)
  {
    DrainTellsNothing(s, now, s', id);
    DrainInstallsOthers(s, now, s', id);
  }

  /** A resume of `id` that the store accepts. */
  ghost predicate ResumesNow(s: Daemon, a: Act, id: Pid) {
    a.HandleResume? && a.id == id && CanResume(s, id)
  }

  lemma HandlersLie(s: Daemon, a: Act, s': Daemon, id: Pid)
    requires Does(s, a, s') && Lying(s, id) && id in s'.rows && !ResumesNow(s, a, id)
    requires a.HandleSubmit? || a.HandleResume? || a.HandleRequest? || a.Deliver? || a.CollectPrograms?
    ensures Lying(s', id)
  {
    if a.Deliver? { DeliverMoves(s, a.k, s', id); }
    assert Incoming(s', id) ==> Incoming(s, id);
  }

  /** The exact condition. Until the next restart, as long as its row is neither resumed
      nor collected, a recovered program can be resumed if and only if the pump has not
      yet taken the failure event that startup queued about it. */
  lemma {:induction false} ResumableExactlyUntilPumped(ss: seq<Daemon>, acts: seq<Act>, a: nat, n: nat, id: Pid)
    requires DaemonRun(ss, acts) && a < n < |ss| && NoRestart(acts, a + 1, n)
    requires acts[a].Restart? && id in acts[a].recovered
    requires forall t :: a < t <= n ==> id in ss[t].rows
    requires forall t :: a < t < n ==> !ResumesNow(ss[t], acts[t], id)
    ensures Lying(ss[n], id)
    ensures CanResume(ss[n], id) <==> Obituary(id) in ss[n].queue
  {
    var t := n - 1;
    var s, act, s' := ss[t], acts[t], ss[n];
    assert DoesAt(ss, acts, t);
    if t == a {
      RestartLies(s, act, s', id);
    } else {
      ResumableExactlyUntilPumped(ss, acts, a, t, id);
      match act
      case DrainOne(now) => DrainLies(s, now, s', id);
      case SchedulerTick(env, winner, out) => TickLies(s, env, winner, out, s', id);
      case Pump(at) => PumpLies(s, at, s', id);
      case _ => HandlersLie(s, act, s', id);
    }
    AboutHolds(id, s'.queue, Obituary(id));
  }
}
