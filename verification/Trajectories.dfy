/** Every program's path through a run of the scheduler is one of the lives of
    module Lives, so what is proved of lives holds of the scheduler. */
module Trajectories {
  import opened Common
  import opened Program
  import opened Scheduler
  import opened Lives

  datatype Move = Commanded(command: Command, now: int) | Ticking(env: Env, winner: Option<Pid>, out: seq<Effect>)

  ghost predicate SchedulerRun(maps: seq<map<Pid, Prog>>, moves: seq<Move>) {
    && |maps| == |moves| + 1
    && forall t :: 0 <= t < |moves| ==> Moves(maps[t], moves[t], maps[t + 1])
  }

  ghost predicate Moves(before: map<Pid, Prog>, m: Move, after: map<Pid, Prog>) {
    match m
    case Commanded(c, now) => after == Execute(before, c, now)
    case Ticking(env, winner, out) => Ticked(env, winner, before, after, out)
  }

  ghost predicate Installs(m: Move, id: Pid) {
    m.Commanded? && (m.command.SubmitValidated? || m.command.ResumeRunning?) && m.command.pid == id
  }

  ghost function HappeningOf(m: Move, id: Pid): Happening {
    match m
    case Ticking(env, winner, _) => Tick(env, winner)
    case Commanded(c, now) =>
      if c.Start? && c.pid == id then StartCommand(now) else if c.Cancel? && c.pid == id then CancelCommand else Idle
  }

  lemma OneMove(before: map<Pid, Prog>, m: Move, after: map<Pid, Prog>, id: Pid)
    requires Moves(before, m, after) && id in before && !Installs(m, id)
    ensures id in after && Legal(id, before[id], HappeningOf(m, id))
    ensures after[id] == Next(id, before[id], HappeningOf(m, id))
  {
    if m.Ticking? && m.env.captured { assert TickedOne(m.env, m.winner, id, before, after, m.out); }
  }

  // ----- Where commands lead -----

  /** A record with nothing done yet: no watch seen, nothing deferred. */
  ghost predicate Untouched(p: Prog, doc: Document) {
    p.doc == doc && p.watchState == map[] && p.deferred.None?
  }

  /** A submission waits, from its beginning; a resumed program runs on from the step it was
      given; a start and a cancellation change a held program's state alone, apart from the
      clock a start reads. Nothing else changes. */
  lemma CommandsLead(before: map<Pid, Prog>, c: Command, now: int, after: map<Pid, Prog>)
    requires Moves(before, Commanded(c, now), after)
    ensures c.SubmitValidated? ==>
      c.pid in after && Untouched(after[c.pid], c.doc) && after[c.pid].state.Waiting?
      && after[c.pid].cursor.None? && after[c.pid].runningSince.None?
    ensures c.ResumeRunning? ==>
      c.pid in after && Untouched(after[c.pid], c.doc) && after[c.pid].state.Running?
      && after[c.pid].cursor == Some(c.fromStep) && after[c.pid].runningSince == Some(now)
    ensures c.Start? && c.pid in before ==>
      c.pid in after && after[c.pid] == before[c.pid].(state := Running, runningSince := Some(now))
    ensures c.Cancel? && c.pid in before ==>
      c.pid in after && after[c.pid] == before[c.pid].(state := Cancelled)
    ensures (c.Start? || c.Cancel?) && c.pid !in before ==> c.pid !in after
    ensures forall id :: c.Shutdown? || id != c.pid ==>
      (id in after <==> id in before) && (id in before ==> after[id] == before[id])
  {
  }

  /** The commands executed in one drain are those before the first shutdown. */
  lemma {:induction false} DrainStopsAtShutdown(cs: seq<Command>)
    ensures var r := BeforeShutdown(cs);
            && r <= cs && Shutdown !in r && (|r| < |cs| ==> cs[|r|] == Shutdown)
  {
    if cs != [] && !cs[0].Shutdown? {
      DrainStopsAtShutdown(cs[1..]);
      assert cs == [cs[0]] + cs[1..];
    }
  }

  /** A drain executes its commands one after another, each at its own clock reading, and
      says what each has to say, in that order. */
  lemma {:induction false} DrainIsRun(programs: map<Pid, Prog>, cs: seq<Command>, clock: nat -> int, k: nat)
    returns (maps: seq<map<Pid, Prog>>)
    ensures SchedulerRun(maps, Commands(cs, clock, k)) && maps[0] == programs
    ensures maps[|cs|] == ExecuteAll(programs, cs, clock, k)
    decreases |cs|
  {
    if cs == [] {
      maps := [programs];
    } else {
      var next := Execute(programs, cs[0], clock(k));
      var rest := DrainIsRun(next, cs[1..], clock, k + 1);
      maps := [programs] + rest;
      var moves := Commands(cs, clock, k);
      forall t | 0 <= t < |moves| ensures Moves(maps[t], moves[t], maps[t + 1]) {
        if t > 0 {
          assert moves[t] == Commands(cs[1..], clock, k + 1)[t - 1];
          assert Moves(rest[t - 1], Commands(cs[1..], clock, k + 1)[t - 1], rest[t]);
        }
      }
    }
  }

  ghost function Commands(cs: seq<Command>, clock: nat -> int, k: nat): seq<Move> {
    seq(|cs|, t requires 0 <= t < |cs| => Commanded(cs[t], clock(k + t)))
  }

  lemma {:induction false} StaysHeld(maps: seq<map<Pid, Prog>>, moves: seq<Move>, a: nat, b: nat, id: Pid)
    requires SchedulerRun(maps, moves) && a < b <= |moves| && Installs(moves[a], id)
    requires forall t :: a < t < b ==> !Installs(moves[t], id)
    ensures id in maps[b]
  {
    assert Moves(maps[b - 1], moves[b - 1], maps[b]);
    if a + 1 < b {
      StaysHeld(maps, moves, a, b - 1, id);
      OneMove(maps[b - 1], moves[b - 1], maps[b], id);
    }
  }

  /** From the command that installs `id` at move `a` up to move `b`, the program lives
      one life, move by move. */
  lemma TrajectoryIsLife(maps: seq<map<Pid, Prog>>, moves: seq<Move>, a: nat, b: nat, id: Pid)
    returns (ps: seq<Prog>, hs: seq<Happening>)
    requires SchedulerRun(maps, moves) && a < b <= |moves| && Installs(moves[a], id)
    requires forall t :: a < t < b ==> !Installs(moves[t], id)
    ensures Life(id, ps, hs) && |ps| == b - a
    ensures forall t :: 0 <= t < |ps| ==> id in maps[a + 1 + t] && ps[t] == maps[a + 1 + t][id]
    ensures forall t :: 0 <= t < |hs| ==> hs[t] == HappeningOf(moves[a + 1 + t], id)
  {
    forall t | a < t <= b ensures id in maps[t] { StaysHeld(maps, moves, a, t, id); }
    ps := seq(b - a, t requires 0 <= t < b - a => maps[a + 1 + t][id]);
    hs := seq(b - a - 1, t requires 0 <= t < b - a - 1 => HappeningOf(moves[a + 1 + t], id));
    assert Moves(maps[a], moves[a], maps[a + 1]);
    forall t | 0 <= t < |hs| ensures Legal(id, ps[t], hs[t]) && ps[t + 1] == Next(id, ps[t], hs[t]) {
      assert Moves(maps[a + 1 + t], moves[a + 1 + t], maps[a + 2 + t]);
      OneMove(maps[a + 1 + t], moves[a + 1 + t], maps[a + 2 + t], id);
    }
  }

  // ----- A tick of two programs -----

  lemma TickOwned(id: Pid, p: Prog, env: Env, winner: Option<Pid>)
    requires env.captured && (Contends(id, AfterTrigger(id, p, env), env) ==> winner.Some?)
    ensures AllOwned(id, TickProgram(id, p, env, winner).effects)
  {
    var q := AfterTrigger(id, p, env);
    assert AllOwned(id, TriggerEffects(id, p, env));
    if q.state.Running? { RunningOwned(id, TriggerEffects(id, p, env), q, env, winner); }
  }

  lemma RunningOwned(id: Pid, e: seq<Effect>, q: Prog, env: Env, winner: Option<Pid>)
    requires q.state.Running? && (Contends(id, q, env) ==> winner.Some?) && AllOwned(id, e)
    ensures var o := WatchPhase(id, q, env, winner);
            && AllOwned(id, e + o.effects)
            && AllOwned(id, e + o.effects + BodyEffects(id, AfterWatches(id, q, env, o), env))
  {
    var o := WatchPhase(id, q, env, winner);
    WatchPhaseOwned(id, q, env, winner);
    BodyOwned(id, AfterWatches(id, q, env, o), env);
    OwnedConcat(id, e, o.effects, BodyEffects(id, AfterWatches(id, q, env, o), env));
  }

  lemma OwnedConcat(id: Pid, a: seq<Effect>, b: seq<Effect>, c: seq<Effect>)
    requires AllOwned(id, a) && AllOwned(id, b) && AllOwned(id, c)
    ensures AllOwned(id, a + b) && AllOwned(id, a + b + c)
  {
  }

  lemma WinnerIsThere(env: Env, winner: Option<Pid>, ps: map<Pid, Prog>, id: Pid)
    requires IsWinner(ps, env, winner) && id in ps
    ensures Contends(id, AfterTrigger(id, ps[id], env), env) ==> winner.Some?
  {
    assert Contender(ps, env, id) <==> Contends(id, AfterTrigger(id, ps[id], env), env);
  }

  ghost function TockOf(env: Env, winner: Option<Pid>, ps: map<Pid, Prog>, id: Pid): Tock
    requires env.captured && IsWinner(ps, env, winner) && id in ps
  {
    WinnerIsThere(env, winner, ps, id);
    TickProgram(id, ps[id], env, winner)
  }

  lemma OneTicks(env: Env, winner: Option<Pid>, before: map<Pid, Prog>, after: map<Pid, Prog>, out: seq<Effect>, id: Pid)
    requires env.captured && IsWinner(before, env, winner) && id in before && id in after
    requires after[id] == TockOf(env, winner, before, id).prog
    requires EffectsOf(id, out) == TockOf(env, winner, before, id).effects
    ensures TickedOne(env, winner, id, before, after, out)
  {
    WinnerIsThere(env, winner, before, id);
  }

  lemma TockOwned(env: Env, winner: Option<Pid>, ps: map<Pid, Prog>, id: Pid)
    requires env.captured && IsWinner(ps, env, winner) && id in ps
    ensures AllOwned(id, TockOf(env, winner, ps, id).effects)
  {
    WinnerIsThere(env, winner, ps, id);
    TickOwned(id, ps[id], env, winner);
  }

  lemma AllTick(env: Env, winner: Option<Pid>, before: map<Pid, Prog>, after: map<Pid, Prog>, out: seq<Effect>)
    requires env.captured && IsWinner(before, env, winner) && after.Keys == before.Keys
    requires forall id :: id in before ==> TickedOne(env, winner, id, before, after, out)
    requires forall id :: id !in before ==> EffectsOf(id, out) == []
    ensures Ticked(env, winner, before, after, out)
  {
  }

  /** Any two programs can tick under the winner arbitration gives them. */
  lemma PairTicks(env: Env, winner: Option<Pid>, before: map<Pid, Prog>, a: Pid, b: Pid)
    returns (after: map<Pid, Prog>, out: seq<Effect>)
    requires a != b && before.Keys == {a, b} && env.captured && IsWinner(before, env, winner)
    ensures Ticked(env, winner, before, after, out)
    ensures after == map[a := TockOf(env, winner, before, a).prog, b := TockOf(env, winner, before, b).prog]
  {
    var ea, eb := TockOf(env, winner, before, a).effects, TockOf(env, winner, before, b).effects;
    after := map[a := TockOf(env, winner, before, a).prog, b := TockOf(env, winner, before, b).prog];
    out := ea + eb;
    TockOwned(env, winner, before, a);
    TockOwned(env, winner, before, b);
    forall id ensures EffectsOf(id, out) == if id == a then ea else if id == b then eb else [] {
      PairShares(a, b, ea, eb, id);
    }
    forall id | id in before ensures TickedOne(env, winner, id, before, after, out) {
      OneTicks(env, winner, before, after, out, id);
    }
    AllTick(env, winner, before, after, out);
  }

  lemma PairShares(a: Pid, b: Pid, ea: seq<Effect>, eb: seq<Effect>, id: Pid)
    requires a != b && AllOwned(a, ea) && AllOwned(b, eb)
    ensures EffectsOf(id, ea + eb) == if id == a then ea else if id == b then eb else []
  {
    EffectsOfConcat(id, ea, eb);
    EffectsOfOwner(id, a, ea);
    EffectsOfOwner(id, b, eb);
  }

  // ----- The forfeited edge, in a run of the scheduler -----

  const TYPING := Watch(ByName("x"), [Type("a")], 0, Persistent)

  /** A running program with that one watch. */
  ghost function Typist(ws: map<nat, WatchRuntime>): Prog {
    Prog(Document(Manual, [TYPING], [], 0), Running, Some(0), Some(0), ws, None)
  }

  /** The predicate is true whenever it is asked, and the sink accepts everything. */
  ghost function Sunny(): Env {
    Env(true, 0, (id, ref) => Some(true), (id, e) => Err(ExpressionUnresolved), (id, k) => true, id => true)
  }

  lemma FirstLook(id: Pid)
    ensures Contends(id, Typist(map[]), Sunny()) && FirstFire(id, Typist(map[]), Sunny()) == Some(0)
    ensures ObservedAll(id, Typist(map[]), Sunny()) == map[0 := FreshWatch.(lastTruthy := true)]
  {
    assert LookAt(id, Typist(map[]), 0, Sunny()) == Seen(true, Fire);
    assert Fires(id, Typist(map[]), 0, Sunny());
  }

  lemma SecondLook(id: Pid, w: WatchRuntime)
    requires w.lastTruthy && !w.retired
    ensures FirstFire(id, Typist(map[0 := w]), Sunny()).None? && !Contends(id, Typist(map[0 := w]), Sunny())
  {
    assert LookAt(id, Typist(map[0 := w]), 0, Sunny()) == Seen(true, Skip);
  }

  lemma TypistWaits(id: Pid, ws: map<nat, WatchRuntime>)
    requires 0 in ws && !ws[0].retired
    ensures AfterBody(id, Typist(ws), Sunny()) == Typist(ws)
  {
    assert 0 in Typist(ws).ActiveWatches();
  }

  /** The loser's first tick: it has seen its predicate true and not fired. */
  lemma LosesFirst(id: Pid, winner: Pid)
    requires winner != id
    ensures Contends(id, Typist(map[]), Sunny())
    ensures TickProgram(id, Typist(map[]), Sunny(), Some(winner)).prog
            == Typist(map[0 := FreshWatch.(lastTruthy := true)])
    ensures LosesEdge(id, Typist(map[]), Tick(Sunny(), Some(winner)), 0)
  {
    FirstLook(id);
    TypistWaits(id, map[0 := FreshWatch.(lastTruthy := true)]);
  }

  /** The winner's first tick. */
  lemma WinsFirst(id: Pid)
    ensures Contends(id, Typist(map[]), Sunny())
    ensures TickProgram(id, Typist(map[]), Sunny(), Some(id)).prog
            == Typist(map[0 := WatchRuntime(Some(0), true, false)])
  {
    FirstLook(id);
    var steps := TYPING.steps;
    assert RunSteps(id, 0, steps, Sunny(), 1) == Burst([], None);
    assert RunSteps(id, 0, steps, Sunny()).error.None?;
    TypistWaits(id, map[0 := WatchRuntime(Some(0), true, false)]);
  }

  const SEEN := FreshWatch.(lastTruthy := true)
  const FIRED := WatchRuntime(Some(0), true, false)

  /** Both contend, program 2 wins. */
  lemma FirstTick() returns (out: seq<Effect>)
    ensures Ticked(Sunny(), Some(2), map[1 := Typist(map[]), 2 := Typist(map[])],
                   map[1 := Typist(map[0 := SEEN]), 2 := Typist(map[0 := FIRED])], out)
  {
    var after;
    LosesFirst(1, 2);
    WinsFirst(2);
    var before := map[1 := Typist(map[]), 2 := Typist(map[])];
    assert IsWinner(before, Sunny(), Some(2));
    after, out := PairTicks(Sunny(), Some(2), before, 1, 2);
  }

  /** Neither contends. */
  lemma SecondTick() returns (after: map<Pid, Prog>, out: seq<Effect>)
    ensures Ticked(Sunny(), None, map[1 := Typist(map[0 := SEEN]), 2 := Typist(map[0 := FIRED])], after, out)
  {
    SecondLook(1, SEEN);
    SecondLook(2, FIRED);
    var before := map[1 := Typist(map[0 := SEEN]), 2 := Typist(map[0 := FIRED])];
    assert IsWinner(before, Sunny(), None);
    after, out := PairTicks(Sunny(), None, before, 1, 2);
  }

  lemma SecondTickIsSilent(id: Pid)
    ensures var (p, h) := (Typist(map[0 := SEEN]), Tick(Sunny(), None)); Legal(id, p, h) && !MarkOf(id, p, h, 0).fired
  {
    SecondLook(id, SEEN);
  }

  lemma FourMoves(m0: map<Pid, Prog>, x0: Move, m1: map<Pid, Prog>, x1: Move, m2: map<Pid, Prog>, x2: Move,
                  m3: map<Pid, Prog>,
                  x3: Move, m4: map<Pid, Prog>)
    requires Moves(m0, x0, m1) && Moves(m1, x1, m2) && Moves(m2, x2, m3) && Moves(m3, x3, m4)
    ensures SchedulerRun([m0, m1, m2, m3, m4], [x0, x1, x2, x3])
  {
  }

  lemma TypistResumes(ps: map<Pid, Prog>, id: Pid)
    ensures Moves(ps, Commanded(ResumeRunning(id, 0, Typist(map[]).doc), 0), ps[id := Typist(map[])])
  {
  }

  /** The forfeited edge in a run of the scheduler: two programs resume, both watches fire
      at once and program 2 wins. In the next tick program 1's predicate is still true and
      nobody contends, and yet it does not fire. */
  lemma LoserStaysSilent() returns (m4: map<Pid, Prog>, out: seq<Effect>, out': seq<Effect>)
    ensures var (doc, p) := (Typist(map[]).doc, Typist(map[]));
            SchedulerRun([map[], map[1 := p], map[1 := p, 2 := p], map[1 := Typist(map[0 := SEEN]), 2 := Typist(map[0 := FIRED])], m4],
                         [Commanded(ResumeRunning(1, 0, doc), 0), Commanded(ResumeRunning(2, 0, doc), 0),
                          Ticking(Sunny(), Some(2), out), Ticking(Sunny(), None, out')])
    ensures LosesEdge(1, Typist(map[]), Tick(Sunny(), Some(2)), 0)
    ensures var (p, h) := (Typist(map[0 := SEEN]), Tick(Sunny(), None));
            Legal(1, p, h) && h.env.truth(1, Named("x")) == Some(true) && !MarkOf(1, p, h, 0).fired
  {
    var doc, p := Typist(map[]).doc, Typist(map[]);
    LosesFirst(1, 2);
    SecondTickIsSilent(1);
    out := FirstTick();
    m4, out' := SecondTick();
    TypistResumes(map[], 1);
    TypistResumes(map[1 := p], 2);
    assert map[1 := p][2 := p] == map[1 := p, 2 := p];
    FourMoves(map[], Commanded(ResumeRunning(1, 0, doc), 0), map[1 := p], Commanded(ResumeRunning(2, 0, doc), 0),
              map[1 := p, 2 := p], Ticking(Sunny(), Some(2), out),
              map[1 := Typist(map[0 := SEEN]), 2 := Typist(map[0 := FIRED])], Ticking(Sunny(), None, out'), m4);
  }
}
