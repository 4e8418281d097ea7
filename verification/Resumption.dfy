/** A resume from the request to the last input: where the program continues, and that no
    step it had passed is performed again. */
module Resumption {
  import opened Common
  import opened Program
  import opened Scheduler
  import opened Lives
  import opened Bodies
  import opened WriteBehind
  import opened Recovery
  import Trajectories
  import Store

  // ----- The command on its way -----

  /** Commands that would resume `id`. */
  predicate IsResume(c: Command, id: Pid) {
    c.ResumeRunning? && c.pid == id
  }

  /** While `cmd` may be on its way: any resume of `id` in the channels is it, and the
      store accepts no other. */
  ghost predicate OnlyResume(s: Daemon, id: Pid, cmd: Command) {
    && !Store.Marked(s.rows, id)
    && forall c :: c in s.outgoing + s.inbox && IsResume(c, id) ==> c == cmd
  }

  lemma OnlyResumeStays(s: Daemon, a: Act, s': Daemon, id: Pid, cmd: Command)
    requires Does(s, a, s') && !a.Restart? && OnlyResume(s, id, cmd)
    ensures OnlyResume(s', id, cmd)
  {
    NoNewMark(s, a, s', id);
    forall c | c in s'.outgoing + s'.inbox && IsResume(c, id) ensures c in s.outgoing + s.inbox {
      if a.Deliver? { assert c in s.outgoing || c in s.inbox; }
    }
  }

  /** An accepted resume puts its command on the way, at the row's cursor or at 0. */
  lemma ResumeStarts(s: Daemon, id: Pid, fromStart: bool, now: int, doc: Document, s': Daemon)
    requires MarksApart(s) && Does(s, HandleResume(id, fromStart, now, Some(doc)), s') && CanResume(s, id)
    ensures var cmd := ResumeRunning(id, if fromStart then 0 else s.rows[id].cursor, doc);
            OnlyResume(s', id, cmd) && cmd in s'.outgoing
  {
    var cmd := ResumeRunning(id, if fromStart then 0 else s.rows[id].cursor, doc);
    assert s'.outgoing == s.outgoing + [cmd];
    assert Store.Marked(s.rows, id);
    assert forall c :: c in s'.outgoing + s'.inbox ==> c == cmd || c in s.outgoing + s.inbox;
  }

  /** An accepted resume among the acts, with the document reloaded. */
  ghost predicate AcceptedAt(ss: seq<Daemon>, acts: seq<Act>, a: nat, id: Pid, fromStart: bool, doc: Document) {
    && |ss| == |acts| + 1 && a < |acts|
    && acts[a].HandleResume? && acts[a].id == id && acts[a].fromStart == fromStart && acts[a].loaded == Some(doc)
    && CanResume(ss[a], id)
  }

  /** The step it continues at. */
  ghost function ContinuesAt(ss: seq<Daemon>, a: nat, id: Pid, fromStart: bool): nat
    requires a < |ss| && id in ss[a].rows
  {
    if fromStart then 0 else ss[a].rows[id].cursor
  }

  lemma {:induction false} OnlyResumeAt(ss: seq<Daemon>, acts: seq<Act>, a: nat, n: nat, id: Pid, fromStart: bool, doc: Document)
    requires DaemonRun(ss, acts) && AcceptedAt(ss, acts, a, id, fromStart, doc) && a < n < |ss| && NoRestart(acts, a + 1, n)
    ensures OnlyResume(ss[n], id, ResumeRunning(id, ContinuesAt(ss, a, id, fromStart), doc))
  {
    assert DoesAt(ss, acts, n - 1);
    if n == a + 1 {
      WriteBehindAgreement(ss, acts, a);
      ResumeStarts(ss[a], id, fromStart, acts[a].now, doc, ss[n]);
    } else {
      OnlyResumeAt(ss, acts, a, n - 1, id, fromStart, doc);
      OnlyResumeStays(ss[n - 1], acts[n - 1], ss[n], id, ResumeRunning(id, ContinuesAt(ss, a, id, fromStart), doc));
    }
  }

  /** The act that drains the resume of `id`. */
  ghost predicate DrainsResume(ss: seq<Daemon>, acts: seq<Act>, d: nat, id: Pid) {
    |ss| == |acts| + 1 && d < |acts| && acts[d].DrainOne? && ss[d].inbox != [] && IsResume(ss[d].inbox[0], id)
  }

  /** The command is on its way until it is drained. */
  lemma {:induction false} ResumeArrives(ss: seq<Daemon>, acts: seq<Act>, a: nat, n: nat, id: Pid, fromStart: bool, doc: Document)
    requires DaemonRun(ss, acts) && AcceptedAt(ss, acts, a, id, fromStart, doc) && a < n < |ss| && NoRestart(acts, a + 1, n)
    requires forall d: nat :: a < d < n ==> !DrainsResume(ss, acts, d, id)
    ensures ResumeRunning(id, ContinuesAt(ss, a, id, fromStart), doc) in ss[n].outgoing + ss[n].inbox
  {
    var cmd := ResumeRunning(id, ContinuesAt(ss, a, id, fromStart), doc);
    assert DoesAt(ss, acts, n - 1);
    if n == a + 1 {
      WriteBehindAgreement(ss, acts, a);
      ResumeStarts(ss[a], id, fromStart, acts[a].now, doc, ss[n]);
    } else {
      ResumeArrives(ss, acts, a, n - 1, id, fromStart, doc);
      assert !DrainsResume(ss, acts, n - 1, id);
      InFlightStays(ss[n - 1], acts[n - 1], ss[n], cmd);
    }
  }

  lemma InFlightStays(s: Daemon, a: Act, s': Daemon, cmd: Command)
    requires Does(s, a, s') && !a.Restart? && cmd in s.outgoing + s.inbox
    requires a.DrainOne? ==> s.inbox[0] != cmd
    ensures cmd in s'.outgoing + s'.inbox
  {
    if a.Deliver? && cmd in s.outgoing {
      assert s.outgoing == s.outgoing[..a.k] + [s.outgoing[a.k]] + s.outgoing[a.k + 1..];
    }
    if a.DrainOne? { assert s.inbox == [s.inbox[0]] + s.inbox[1..]; }
  }

  // ----- Where it continues -----

  /** In every run of the daemon, the program that an accepted resume leads to, when its
      command is drained, runs the reloaded document from the stored cursor, or from the
      first step if that was asked for, with no watch seen and nothing deferred. */
  lemma ResumeContinuesAtCursor(ss: seq<Daemon>, acts: seq<Act>, a: nat, d: nat, id: Pid, fromStart: bool, doc: Document)
    requires DaemonRun(ss, acts) && AcceptedAt(ss, acts, a, id, fromStart, doc)
    requires a < d < |acts| && NoRestart(acts, a + 1, d) && DrainsResume(ss, acts, d, id)
    ensures id in ss[d + 1].programs
    ensures var p := ss[d + 1].programs[id];
            && p.doc == doc && p.state.Running? && p.watchState == map[] && p.deferred.None?
            && p.cursor == Some(if fromStart then 0 else ss[a].rows[id].cursor) && p.runningSince == Some(acts[d].now)
  {
    OnlyResumeAt(ss, acts, a, d, id, fromStart, doc);
    assert ss[d].inbox[0] in ss[d].outgoing + ss[d].inbox;
    assert DoesAt(ss, acts, d);
    Trajectories.CommandsLead(ss[d].programs, ss[d].inbox[0], acts[d].now, ss[d + 1].programs);
  }

  // ----- And what it does from there -----

  /** What an act means to one program. */
  ghost function HappeningAt(s: Daemon, act: Act, id: Pid): Happening {
    match act
    case SchedulerTick(env, winner, out) => Trajectories.HappeningOf(Trajectories.Ticking(env, winner, out), id)
    case DrainOne(now) =>
      if s.inbox == [] then Idle else Trajectories.HappeningOf(Trajectories.Commanded(s.inbox[0], now), id)
    case _ => Idle
  }

  /** The act replaces the program: a restart, or another submission or resume of it. */
  ghost predicate Replaces(s: Daemon, act: Act, id: Pid) {
    act.Restart? || (act.DrainOne? && s.inbox != [] && Trajectories.Installs(Trajectories.Commanded(s.inbox[0], act.now), id))
  }

  lemma ActMoves(s: Daemon, act: Act, s': Daemon, id: Pid)
    requires Does(s, act, s') && id in s.programs && !Replaces(s, act, id)
    ensures id in s'.programs && Legal(id, s.programs[id], HappeningAt(s, act, id))
    ensures s'.programs[id] == Next(id, s.programs[id], HappeningAt(s, act, id))
  {
    match act
    case SchedulerTick(env, winner, out) =>
      Trajectories.OneMove(s.programs, Trajectories.Ticking(env, winner, out), s'.programs, id);
    case DrainOne(now) =>
      Trajectories.OneMove(s.programs, Trajectories.Commanded(s.inbox[0], now), s'.programs, id);
    case _ =>
  }

  /** The program's path through the states from `b` to `n`. */
  ghost predicate PathOf(ss: seq<Daemon>, acts: seq<Act>, b: nat, n: nat, id: Pid, ps: seq<Prog>, hs: seq<Happening>) {
    && |ss| == |acts| + 1 && b <= n < |ss| && |ps| == n - b + 1 == |hs| + 1
    && (forall t: nat :: t < |ps| ==> HeldAt(ss, b + t, id, ps[t]))
    && (forall t: nat :: t < |hs| ==> MeantAt(ss, acts, b + t, id, hs[t]))
  }

  ghost predicate HeldAt(ss: seq<Daemon>, t: nat, id: Pid, p: Prog) {
    t < |ss| && id in ss[t].programs && ss[t].programs[id] == p
  }

  ghost predicate MeantAt(ss: seq<Daemon>, acts: seq<Act>, t: nat, id: Pid, h: Happening) {
    t < |ss| && t < |acts| && h == HappeningAt(ss[t], acts[t], id)
  }

  lemma PathExtends(ss: seq<Daemon>, acts: seq<Act>, b: nat, m: nat, id: Pid, ps: seq<Prog>, hs: seq<Happening>, p: Prog, h: Happening)
    requires PathOf(ss, acts, b, m, id, ps, hs) && m + 1 < |ss|
    requires HeldAt(ss, m + 1, id, p) && MeantAt(ss, acts, m, id, h)
    ensures PathOf(ss, acts, b, m + 1, id, ps + [p], hs + [h])
  {
  }

  lemma {:induction false} PathIsLife(ss: seq<Daemon>, acts: seq<Act>, b: nat, n: nat, id: Pid) returns (ps: seq<Prog>, hs: seq<Happening>)
    requires DaemonRun(ss, acts) && b <= n < |ss| && id in ss[b].programs && Inserted(ss[b].programs[id])
    requires forall t: nat :: b <= t < n ==> !Replaces(ss[t], acts[t], id)
    ensures PathOf(ss, acts, b, n, id, ps, hs) && Life(id, ps, hs)
    decreases n
  {
    if n == b {
      ps, hs := [ss[b].programs[id]], [];
    } else {
      var m := n - 1;
      ps, hs := PathIsLife(ss, acts, b, m, id);
      assert DoesAt(ss, acts, m);
      assert HeldAt(ss, b + (m - b), id, ps[m - b]);
      ActMoves(ss[m], acts[m], ss[n], id);
      LifeExtends(id, ps, hs, HappeningAt(ss[m], acts[m], id));
      PathExtends(ss, acts, b, m, id, ps, hs, ss[n].programs[id], HappeningAt(ss[m], acts[m], id));
      ps, hs := ps + [ss[n].programs[id]], hs + [HappeningAt(ss[m], acts[m], id)];
    }
  }

  lemma LifeExtends(id: Pid, ps: seq<Prog>, hs: seq<Happening>, h: Happening)
    requires Life(id, ps, hs) && Legal(id, ps[|hs|], h)
    ensures Life(id, ps + [Next(id, ps[|hs|], h)], hs + [h])
  {
  }

  /** Indices from `a` up to `b`, ascending. */
  ghost predicate Ascends(s: seq<nat>, a: nat, b: nat) {
    && (forall k :: 0 <= k < |s| ==> a <= s[k] < b)
    && (forall j, k :: 0 <= j < k < |s| ==> s[j] < s[k])
  }

  /** A life sends no step before the one it began at, and none twice. */
  lemma NoEarlierStep(id: Pid, ps: seq<Prog>, hs: seq<Happening>, n: nat)
    requires Life(id, ps, hs) && n <= |hs|
    ensures Ascends(StepIndices(BodyLog(id, ps, hs, n)), ps[0].Cursor(), ps[n].Cursor())
  {
    BodyRefinement(id, ps, hs, n);
    ActionStepsAscend(ps[0].doc.body, ps[0].Cursor(), ps[n].Cursor());
  }

  lemma {:induction false} ActionStepsAscend(body: seq<Step>, a: nat, b: nat)
    requires a <= b
    ensures Ascends(ActionSteps(body, a, b), a, b)
  {
    if a < b {
      ActionStepsAscend(body, a, b - 1);
      AscendsMore(ActionSteps(body, a, b - 1), a, b - 1);
    }
  }

  lemma AscendsMore(s: seq<nat>, a: nat, b: nat)
    requires Ascends(s, a, b) && a <= b
    ensures Ascends(s + [], a, b + 1) && Ascends(s + [b], a, b + 1)
  {
  }

  /** From the drain of its command on, until it is replaced, a resumed program lives one
      life from its stored cursor: no step below it is sent again, and none twice. */
  lemma ResumedProgramGoesOn(ss: seq<Daemon>, acts: seq<Act>, a: nat, d: nat, n: nat, id: Pid, fromStart: bool, doc: Document)
    returns (ps: seq<Prog>, hs: seq<Happening>)
    requires DaemonRun(ss, acts) && AcceptedAt(ss, acts, a, id, fromStart, doc)
    requires a < d < n < |ss| && NoRestart(acts, a + 1, d) && DrainsResume(ss, acts, d, id)
    requires forall t: nat :: d < t < n ==> !Replaces(ss[t], acts[t], id)
    ensures PathOf(ss, acts, d + 1, n, id, ps, hs) && Life(id, ps, hs) && ps[0].doc == doc
    ensures Ascends(StepIndices(BodyLog(id, ps, hs, |hs|)), if fromStart then 0 else ss[a].rows[id].cursor, ps[|hs|].Cursor())
  {
    ResumeContinuesAtCursor(ss, acts, a, d, id, fromStart, doc);
    ps, hs := PathIsLife(ss, acts, d + 1, n, id);
    assert HeldAt(ss, d + 1 + 0, id, ps[0]);
    NoEarlierStep(id, ps, hs, |hs|);
  }
}
