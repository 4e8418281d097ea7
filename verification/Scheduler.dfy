/** The scheduler: a map of programs and what it sends to the outside, driven by
    commands and ticks. Each phase of a tick is a loop over programs; its contract
    is the per-program function of module Program. */
module Scheduler {
  import opened Common
  import opened Program
  import Arbiter

  datatype Command =
    | SubmitValidated(pid: Pid, doc: Document)
    | Cancel(pid: Pid)
    | Start(pid: Pid)
    | ResumeRunning(pid: Pid, fromStep: nat, doc: Document)
    | Shutdown

  // ----- One program's view of the effects -----

  predicate Owned(e: Effect, id: Pid) {
    match e
    case Sent(pid, _, _) => pid == id
    case Emit(ev) => !ev.TickFrameSkipped? && !ev.DaemonStarted? && ev.pid == id
  }

  function EffectsOf(id: Pid, es: seq<Effect>): seq<Effect> {
    if es == [] then []
    else EffectsOf(id, es[..|es| - 1]) + if Owned(es[|es| - 1], id) then [es[|es| - 1]] else []
  }

  lemma {:induction false} EffectsOfConcat(id: Pid, a: seq<Effect>, b: seq<Effect>)
    ensures EffectsOf(id, a + b) == EffectsOf(id, a) + EffectsOf(id, b)
  {
    if b == [] {
      assert a + b == a;
    } else {
      EffectsOfConcat(id, a, b[..|b| - 1]);
      assert (a + b)[..|a + b| - 1] == a + b[..|b| - 1];
    }
  }

  ghost predicate AllOwned(id: Pid, es: seq<Effect>) {
    forall e :: e in es ==> Owned(e, id)
  }

  lemma {:induction false} EffectsOfOwner(id: Pid, owner: Pid, es: seq<Effect>)
    requires AllOwned(owner, es)
    ensures EffectsOf(id, es) == if id == owner then es else []
  {
    if es != [] {
      EffectsOfOwner(id, owner, es[..|es| - 1]);
      assert es == es[..|es| - 1] + [es[|es| - 1]];
      assert Owned(es[|es| - 1], owner);
    }
  }

  lemma AppendOwned(owner: Pid, es: seq<Effect>, more: seq<Effect>)
    requires AllOwned(owner, more)
    ensures forall id :: EffectsOf(id, es + more) == EffectsOf(id, es) + if id == owner then more else []
  {
    forall id ensures EffectsOf(id, es + more) == EffectsOf(id, es) + if id == owner then more else [] {
      EffectsOfConcat(id, es, more);
      EffectsOfOwner(id, owner, more);
    }
  }

  /** A loop over programs, part way: the programs in `done` have reached `goal` and
      sent their `share`; the others are as `before`. */
  ghost predicate Sweep(before: map<Pid, Prog>, goal: map<Pid, Prog>, share: map<Pid, seq<Effect>>, base: seq<Effect>,
                        done: set<Pid>, now: map<Pid, Prog>, sent: seq<Effect>)
  {
    && before.Keys == goal.Keys == share.Keys == now.Keys
    && done <= before.Keys
    && base <= sent
    && (forall id :: id in before ==> now[id] == if id in done then goal[id] else before[id])
    && (forall id :: EffectsOf(id, sent) == EffectsOf(id, base) + if id in done then share[id] else [])
  }

  lemma SweepStep(before: map<Pid, Prog>, goal: map<Pid, Prog>, share: map<Pid, seq<Effect>>, base: seq<Effect>,
                  done: set<Pid>, now: map<Pid, Prog>, sent: seq<Effect>, id: Pid)
    requires Sweep(before, goal, share, base, done, now, sent)
    requires id in before && id !in done && AllOwned(id, share[id])
    ensures Sweep(before, goal, share, base, done + {id}, now[id := goal[id]], sent + share[id])
  {
    AppendOwned(id, sent, share[id]);
  }

  /** `done` is what the first `n` of `ids` name. */
  ghost predicate Done(ids: seq<Pid>, n: nat, done: set<Pid>) {
    && (forall k :: 0 <= k < n && k < |ids| ==> ids[k] in done)
    && (forall k :: n <= k < |ids| ==> ids[k] !in done)
  }

  lemma DoneStep(ids: seq<Pid>, n: nat, done: set<Pid>)
    requires n < |ids| && Distinct(ids) && Done(ids, n, done)
    ensures Done(ids, n + 1, done + {ids[n]})
  {
  }

  /** A finished sweep: everything has reached its goal and `sent` grew by the shares. */
  ghost predicate Swept(before: map<Pid, Prog>, goal: map<Pid, Prog>, share: map<Pid, seq<Effect>>, base: seq<Effect>,
                        now: map<Pid, Prog>, sent: seq<Effect>)
  {
    && before.Keys == share.Keys
    && now == goal
    && Grown(base, sent, share)
  }

  /** `sent` extends `base` by each program's share and nothing else. */
  ghost predicate Grown(base: seq<Effect>, sent: seq<Effect>, share: map<Pid, seq<Effect>>) {
    base <= sent && forall id :: EffectsOf(id, sent) == EffectsOf(id, base) + ShareOf(share, id)
  }

  ghost function ShareOf(share: map<Pid, seq<Effect>>, id: Pid): seq<Effect> {
    if id in share then share[id] else []
  }

  lemma SweepEnd(before: map<Pid, Prog>, goal: map<Pid, Prog>, share: map<Pid, seq<Effect>>, base: seq<Effect>,
                 done: set<Pid>, now: map<Pid, Prog>, sent: seq<Effect>)
    requires Sweep(before, goal, share, base, done, now, sent)
    requires forall id :: id in before && id !in done ==> goal[id] == before[id] && share[id] == []
    ensures Swept(before, goal, share, base, now, sent)
  {
    assert now == goal;
  }

  lemma {:induction false} BurstOwned(id: Pid, watch: nat, steps: seq<Step>, env: Env, k: nat)
    requires k <= |steps|
    ensures AllOwned(id, RunSteps(id, watch, steps, env, k).effects)
    decreases |steps| - k
  {
    if k < |steps| { BurstOwned(id, watch, steps, env, k + 1); }
  }

  lemma TriggerOwned(id: Pid, p: Prog, env: Env)
    ensures AllOwned(id, TriggerEffects(id, p, env))
  {
  }

  lemma BodyOwned(id: Pid, q: Prog, env: Env)
    ensures AllOwned(id, BodyEffects(id, q, env))
  {
  }

  // ----- What a tick is -----

  ghost predicate Distinct<T(!new)>(s: seq<T>) {
    forall i, j :: 0 <= i < j < |s| ==> s[i] != s[j]
  }

  /** `order` lists the programs once each: the order the hash map yields them. */
  ghost predicate Enumerates(order: seq<Pid>, programs: map<Pid, Prog>) {
    Distinct(order) && forall id :: id in order <==> id in programs
  }

  /** `id` takes part in this tick's arbitration. */
  ghost predicate Contender(programs: map<Pid, Prog>, env: Env, id: Pid) {
    id in programs && Contends(id, AfterTrigger(id, programs[id], env), env)
  }

  /** A lower priority, or the same and no greater id. */
  ghost predicate AtMost(programs: map<Pid, Prog>, id: Pid, w: Pid)
    requires id in programs && w in programs
  {
    programs[id].doc.priority < programs[w].doc.priority
    || (programs[id].doc.priority == programs[w].doc.priority && id <= w)
  }

  /** The program whose watch steps dispatch: the (priority, id) maximum. */
  ghost predicate IsWinner(programs: map<Pid, Prog>, env: Env, winner: Option<Pid>) {
    match winner
    case None => forall id :: !Contender(programs, env, id)
    case Some(w) =>
      Contender(programs, env, w)
      && (forall id :: Contender(programs, env, id) ==> AtMost(programs, id, w))
  }

  /** One tick: every program moves by `TickProgram` and `out` is what was sent. */
  ghost predicate Ticked(env: Env, winner: Option<Pid>, before: map<Pid, Prog>, after: map<Pid, Prog>,
                         out: seq<Effect>) {
    if !env.captured then after == before && out == [Emit(TickFrameSkipped)]
    else
      && IsWinner(before, env, winner)
      && after.Keys == before.Keys
      && (forall id :: id in before ==> TickedOne(env, winner, id, before, after, out))
      && (forall id :: id !in before ==> EffectsOf(id, out) == [])
  }

  ghost predicate TickedOne(env: Env, winner: Option<Pid>, id: Pid, before: map<Pid, Prog>, after: map<Pid, Prog>,
                            out: seq<Effect>)
    requires id in before && id in after
  {
    && (Contender(before, env, id) ==> winner.Some?)
    && after[id] == TickProgram(id, before[id], env, winner).prog
    && EffectsOf(id, out) == TickProgram(id, before[id], env, winner).effects
  }

  /** One program in at most one state per command: what a command does. */
  function Execute(programs: map<Pid, Prog>, c: Command, now: int): map<Pid, Prog> {
    match c
    case SubmitValidated(id, doc) => programs[id := PendingProg(doc).(state := Waiting)]
    case Cancel(id) => if id in programs then programs[id := programs[id].(state := Cancelled)] else programs
    case Start(id) =>
      if id in programs then programs[id := programs[id].(state := Running, runningSince := Some(now))] else programs
    case ResumeRunning(id, fromStep, doc) =>
      programs[id := PendingProg(doc).(state := Running, runningSince := Some(now), cursor := Some(fromStep))]
    case Shutdown => programs
  }

  function Announce(programs: map<Pid, Prog>, c: Command): seq<Effect> {
    match c
    case SubmitValidated(id, _) => [Emit(ProgramSubmitted(id)), Emit(StateChanged(id, Pending, Waiting))]
    case Cancel(id) => if id in programs then [Emit(StateChanged(id, programs[id].state, Cancelled))] else []
    case Start(id) => if id in programs then [Emit(StateChanged(id, programs[id].state, Running))] else []
    case ResumeRunning(id, fromStep, _) => [Emit(StateChanged(id, Failed, Running)), Emit(ProgramResumed(id, fromStep))]
    case Shutdown => []
  }

  /** Commands up to the first `Shutdown`, or all of them. */
  function BeforeShutdown(cs: seq<Command>): seq<Command> {
    if cs == [] || cs[0].Shutdown? then [] else [cs[0]] + BeforeShutdown(cs[1..])
  }

  /** Commands in order; `clock(k)` is the reading taken for the k-th one. */
  function ExecuteAll(programs: map<Pid, Prog>, cs: seq<Command>, clock: nat -> int, k: nat := 0): map<Pid, Prog>
    decreases cs
  {
    if cs == [] then programs else ExecuteAll(Execute(programs, cs[0], clock(k)), cs[1..], clock, k + 1)
  }

  function AnnounceAll(programs: map<Pid, Prog>, cs: seq<Command>, clock: nat -> int, k: nat := 0): seq<Effect>
    decreases cs
  {
    if cs == [] then [] else Announce(programs, cs[0]) + AnnounceAll(Execute(programs, cs[0], clock(k)), cs[1..], clock, k + 1)
  }

  lemma AnnounceAllStep(programs: map<Pid, Prog>, sent: seq<Effect>, c: Command, rest: seq<Command>,
                        clock: nat -> int, k: nat)
    ensures var after := Execute(programs, c, clock(k));
            && ExecuteAll(programs, [c] + rest, clock, k) == ExecuteAll(after, rest, clock, k + 1)
            && sent + AnnounceAll(programs, [c] + rest, clock, k)
            == sent + Announce(programs, c) + AnnounceAll(after, rest, clock, k + 1)
  {
    assert ([c] + rest)[0] == c && ([c] + rest)[1..] == rest;
    SentInOrder(sent, Announce(programs, c), AnnounceAll(Execute(programs, c, clock(k)), rest, clock, k + 1));
  }

  lemma SentInOrder(sent: seq<Effect>, a: seq<Effect>, b: seq<Effect>)
    ensures sent + (a + b) == sent + a + b
  {
  }

  // ----- The scheduler object -----

  /** What the watch loop collects for one program. */
  datatype Eval = Eval(id: Pid, truthies: seq<(nat, bool)>, retires: seq<nat>)

  type Payload = (nat, seq<Step>)

  ghost predicate GoodEval(e: Eval, q: Prog, env: Env) {
    && (forall i: nat, t: bool :: (i, t) in e.truthies <==>
          i < |q.doc.watches| && LookAt(e.id, q, i, env).Seen? && LookAt(e.id, q, i, env).truthy == t)
    && (forall i: nat :: i in e.retires <==> i < |q.doc.watches| && Retires(LookAt(e.id, q, i, env)))
  }

  predicate Retires(look: Look) {
    look.Tripped? || (look.Seen? && look.decision.Retire?)
  }

  function Restrict(order: seq<Pid>, programs: map<Pid, Prog>, state: ProgramState): (r: seq<Pid>)
    requires forall id :: id in order ==> id in programs
    ensures forall id :: id in r <==> id in order && programs[id].state == state
    ensures Distinct(order) ==> Distinct(r)
  {
    if order == [] then []
    else
      var rest := Restrict(order[1..], programs, state);
      if programs[order[0]].state == state then [order[0]] + rest else rest
  }

  // What each phase makes of every program, and what each program sends in it.

  ghost function Triggered(ps: map<Pid, Prog>, env: Env): map<Pid, Prog> {
    map id | id in ps :: AfterTrigger(id, ps[id], env)
  }

  ghost function TriggerShares(ps: map<Pid, Prog>, env: Env): map<Pid, seq<Effect>> {
    map id | id in ps :: TriggerEffects(id, ps[id], env)
  }

  /** Every contending program has a winner to lose to. */
  ghost predicate Arbitrated(ps: map<Pid, Prog>, env: Env, winner: Option<Pid>) {
    forall id {:trigger Contends(id, ps[id], env)} :: id in ps && Contends(id, ps[id], env) ==> winner.Some?
  }

  ghost function Outcome(ps: map<Pid, Prog>, env: Env, winner: Option<Pid>, id: Pid): WatchOutcome
    requires id in ps && Arbitrated(ps, env, winner)
  {
    if ps[id].state.Running? then WatchPhase(id, ps[id], env, winner) else WatchOutcome([], None, false)
  }

  ghost function Dispatched(ps: map<Pid, Prog>, env: Env, winner: Option<Pid>): map<Pid, Prog>
    requires Arbitrated(ps, env, winner)
  {
    map id | id in ps :: if Outcome(ps, env, winner, id).failed then ps[id].(state := Failed) else ps[id]
  }

  ghost function DispatchShares(ps: map<Pid, Prog>, env: Env, winner: Option<Pid>): map<Pid, seq<Effect>>
    requires Arbitrated(ps, env, winner)
  {
    map id | id in ps :: Outcome(ps, env, winner, id).effects
  }

  /** The candidate a program is, if it fires a watch with steps. */
  function CandidateOf(id: Pid, q: Prog, env: Env): seq<Arbiter.Candidate<Payload>> {
    var f := FirstFire(id, q, env);
    if f.Some? && q.doc.watches[f.value].steps != []
    then [Arbiter.Candidate(id, q.doc.priority, (f.value, q.doc.watches[f.value].steps))]
    else []
  }

  /** The candidates of `running`, in that order. */
  function CandidatesOf(running: seq<Pid>, ps: map<Pid, Prog>, env: Env): seq<Arbiter.Candidate<Payload>>
    requires forall id :: id in running ==> id in ps
  {
    if running == [] then []
    else CandidatesOf(running[..|running| - 1], ps, env) + CandidateOf(running[|running| - 1], ps[running[|running| - 1]], env)
  }

  /** The watch a program fires without arbitration, if it fires one without steps. */
  function DirectFireOf(id: Pid, q: Prog, env: Env): seq<(Pid, nat)> {
    var f := FirstFire(id, q, env);
    if f.Some? && q.doc.watches[f.value].steps == [] then [(id, f.value)] else []
  }

  /** The programs of `running` whose firing watch has nothing to arbitrate. */
  function DirectOf(running: seq<Pid>, ps: map<Pid, Prog>, env: Env): seq<(Pid, nat)>
    requires forall id :: id in running ==> id in ps
  {
    if running == [] then []
    else DirectOf(running[..|running| - 1], ps, env) + DirectFireOf(running[|running| - 1], ps[running[|running| - 1]], env)
  }

  ghost predicate GoodCandidate(c: Arbiter.Candidate<Payload>, ps: map<Pid, Prog>, env: Env) {
    && c.id in ps && Contends(c.id, ps[c.id], env)
    && c.priority == ps[c.id].doc.priority
    && FirstFire(c.id, ps[c.id], env) == Some(c.payload.0)
    && c.payload.1 == ps[c.id].doc.watches[c.payload.0].steps
  }

  /** Enough of a candidate list to add one program's candidate to it. */
  ghost predicate Stands(cs: seq<Arbiter.Candidate<Payload>>, running: seq<Pid>, ps: map<Pid, Prog>, env: Env) {
    && Arbiter.DistinctIds(cs)
    && (forall c :: c in cs ==> c.id in running && GoodCandidate(c, ps, env))
    && forall id :: id in running ==> id in ps && (Contends(id, ps[id], env) ==> exists c :: c in cs && c.id == id)
  }

  lemma OneStands(id: Pid, ps: map<Pid, Prog>, env: Env)
    requires id in ps && ps[id].state.Running?
    ensures var c := CandidateOf(id, ps[id], env);
            |c| <= 1 && (c == [] <==> !Contends(id, ps[id], env)) && (c != [] ==> c[0].id == id && GoodCandidate(c[0], ps, env))
  {
  }

  lemma MoreStand(cs: seq<Arbiter.Candidate<Payload>>, rest: seq<Pid>, id: Pid, one: seq<Arbiter.Candidate<Payload>>,
                  ps: map<Pid, Prog>, env: Env)
    requires Stands(cs, rest, ps, env) && id in ps && id !in rest
    requires |one| <= 1 && (one == [] <==> !Contends(id, ps[id], env))
    requires one != [] ==> one[0].id == id && GoodCandidate(one[0], ps, env)
    ensures Stands(cs + one, rest + [id], ps, env)
  {
    var all := cs + one;
    forall i, j | 0 <= i < j < |all| ensures all[i].id != all[j].id { assert cs[i] in cs; }
    forall c | c in all ensures c.id in rest + [id] && GoodCandidate(c, ps, env) { assert c in cs || c == one[0]; }
    forall x | x in rest + [id] && Contends(x, ps[x], env) ensures exists c :: c in all && c.id == x {
      if x == id { assert one[0] in all; } else { var c :| c in cs && c.id == x; assert c in all; }
    }
  }

  lemma {:induction false} CandidatesAreContenders(running: seq<Pid>, ps: map<Pid, Prog>, env: Env)
    requires Distinct(running) && forall id :: id in running ==> id in ps && ps[id].state.Running?
    ensures Stands(CandidatesOf(running, ps, env), running, ps, env)
  {
    if running != [] {
      var rest, id := running[..|running| - 1], running[|running| - 1];
      assert running == rest + [id] && id !in rest;
      CandidatesAreContenders(rest, ps, env);
      OneStands(id, ps, env);
      MoreStand(CandidatesOf(rest, ps, env), rest, id, CandidateOf(id, ps[id], env), ps, env);
    }
  }

  lemma {:induction false} DirectsFireEmpty(running: seq<Pid>, ps: map<Pid, Prog>, env: Env)
    requires Distinct(running) && forall id :: id in running ==> id in ps && ps[id].state.Running?
    ensures var ds := DirectOf(running, ps, env);
            && (forall i, j :: 0 <= i < j < |ds| ==> ds[i].0 != ds[j].0)
            && (forall id, w :: (id, w) in ds <==>
                  id in running && FirstFire(id, ps[id], env) == Some(w) && ps[id].doc.watches[w].steps == [])
  {
    if running != [] {
      var rest, id := running[..|running| - 1], running[|running| - 1];
      assert running == rest + [id] && id !in rest;
      DirectsFireEmpty(rest, ps, env);
    }
  }

  ghost predicate DirectFire(ps: map<Pid, Prog>, env: Env, d: (Pid, nat)) {
    && d.0 in ps && ps[d.0].state.Running?
    && FirstFire(d.0, ps[d.0], env) == Some(d.1) && ps[d.0].doc.watches[d.1].steps == []
  }

  ghost predicate GoodRuling(ps: map<Pid, Prog>, env: Env, winner: Option<Pid>, r: Arbiter.Ruling<Payload>) {
    && r.id in ps && ps[r.id].state.Running?
    && FirstFire(r.id, ps[r.id], env) == Some(r.payload.0)
    && r.payload.1 == ps[r.id].doc.watches[r.payload.0].steps != []
    && winner.Some? && (r.dispatch <==> winner == Some(r.id)) && (!r.dispatch ==> r.loserOf == winner)
  }

  /** `fires` lists the fired watch of each program in `ids`, `failed` those whose dispatch failed. */
  ghost predicate FiredBy(fires: seq<(Pid, nat)>, failed: set<Pid>, outs: map<Pid, WatchOutcome>, ids: set<Pid>) {
    && ids <= outs.Keys
    && (forall i, j :: 0 <= i < j < |fires| ==> fires[i].0 != fires[j].0)
    && (forall id, w :: (id, w) in fires <==> id in ids && outs[id].fired == Some(w))
    && (forall id :: id in failed <==> id in ids && outs[id].failed)
  }

  lemma FiredByMore(fires: seq<(Pid, nat)>, failed: set<Pid>, outs: map<Pid, WatchOutcome>, ids: set<Pid>, id: Pid)
    requires FiredBy(fires, failed, outs, ids) && id in outs && id !in ids
    ensures FiredBy(if outs[id].fired.Some? then fires + [(id, outs[id].fired.value)] else fires,
                    if outs[id].failed then failed + {id} else failed, outs, ids + {id})
  {
  }

  /** What dispatch has to bring about: each program's outcome, its record and its effects. */
  datatype Plan = Plan(outs: map<Pid, WatchOutcome>, goal: map<Pid, Prog>, share: map<Pid, seq<Effect>>)

  ghost function PlanOf(ps: map<Pid, Prog>, env: Env, winner: Option<Pid>): Plan
    requires Arbitrated(ps, env, winner)
  {
    Plan(map id | id in ps :: Outcome(ps, env, winner, id), Dispatched(ps, env, winner), DispatchShares(ps, env, winner))
  }

  /** The plan for one running program is its watch phase. */
  ghost predicate Fits(plan: Plan, ps: map<Pid, Prog>, env: Env, winner: Option<Pid>, id: Pid) {
    && id in ps && id in plan.outs && id in plan.goal && id in plan.share
    && ps[id].state.Running? && (Contends(id, ps[id], env) ==> winner.Some?)
    && var o := WatchPhase(id, ps[id], env, winner);
    && plan.outs[id] == o
    && plan.goal[id] == (if o.failed then ps[id].(state := Failed) else ps[id])
    && plan.share[id] == o.effects && AllOwned(id, o.effects)
  }

  lemma PlanFits(ps: map<Pid, Prog>, env: Env, winner: Option<Pid>, id: Pid)
    requires Arbitrated(ps, env, winner) && id in ps && ps[id].state.Running?
    ensures Fits(PlanOf(ps, env, winner), ps, env, winner, id)
  {
    WatchPhaseOwned(id, ps[id], env, winner);
  }

  lemma WatchPhaseOwned(id: Pid, q: Prog, env: Env, winner: Option<Pid>)
    requires q.state.Running? && (Contends(id, q, env) ==> winner.Some?)
    ensures AllOwned(id, WatchPhase(id, q, env, winner).effects)
  {
    var f := FirstFire(id, q, env);
    if f.Some? { BurstOwned(id, f.value, q.doc.watches[f.value].steps, env, 0); }
  }

  ghost function FiredIds(fires: seq<(Pid, nat)>, n: nat): set<Pid>
    requires n <= |fires|
  {
    set k | 0 <= k < n :: fires[k].0
  }

  /** Fires without steps that can be announced one after another. */
  ghost predicate Firable(direct: seq<(Pid, nat)>, ps: map<Pid, Prog>, env: Env, winner: Option<Pid>, plan: Plan) {
    && (forall i, j :: 0 <= i < j < |direct| ==> direct[i].0 != direct[j].0)
    && forall d :: d in direct ==> DirectFire(ps, env, d) && Fits(plan, ps, env, winner, d.0)
  }

  lemma FirableAt(direct: seq<(Pid, nat)>, ps: map<Pid, Prog>, env: Env, winner: Option<Pid>, plan: Plan, n: nat)
    requires Firable(direct, ps, env, winner, plan) && n < |direct|
    ensures DirectFire(ps, env, direct[n]) && Fits(plan, ps, env, winner, direct[n].0)
    ensures direct[n].0 !in FiredIds(direct, n) && FiredIds(direct, n + 1) == FiredIds(direct, n) + {direct[n].0}
  {
    assert direct[n] in direct;
  }

  ghost function RuledIds(rulings: seq<Arbiter.Ruling<Payload>>, n: nat): set<Pid>
    requires n <= |rulings|
  {
    set k | 0 <= k < n :: rulings[k].id
  }

  /** Rulings the dispatch loop can act on one after another. */
  ghost predicate Rulable(rulings: seq<Arbiter.Ruling<Payload>>, ps: map<Pid, Prog>, env: Env, winner: Option<Pid>,
                          plan: Plan, done: set<Pid>) {
    && (forall i, j :: 0 <= i < j < |rulings| ==> rulings[i].id != rulings[j].id)
    && forall r :: r in rulings ==> GoodRuling(ps, env, winner, r) && Fits(plan, ps, env, winner, r.id) && r.id !in done
  }

  lemma RulableAt(rulings: seq<Arbiter.Ruling<Payload>>, ps: map<Pid, Prog>, env: Env, winner: Option<Pid>,
                  plan: Plan, done: set<Pid>, n: nat)
    requires Rulable(rulings, ps, env, winner, plan, done) && n < |rulings|
    ensures GoodRuling(ps, env, winner, rulings[n]) && Fits(plan, ps, env, winner, rulings[n].id)
    ensures rulings[n].id !in done + RuledIds(rulings, n)
    ensures done + RuledIds(rulings, n) + {rulings[n].id} == done + RuledIds(rulings, n + 1)
  {
    assert rulings[n] in rulings;
  }

  /** The dispatch phase, part way through. */
  ghost predicate Dispatching(ps: map<Pid, Prog>, plan: Plan, base: seq<Effect>, done: set<Pid>,
                              now: map<Pid, Prog>, sent: seq<Effect>, fires: seq<(Pid, nat)>, failed: set<Pid>)
  {
    Sweep(ps, plan.goal, plan.share, base, done, now, sent) && FiredBy(fires, failed, plan.outs, done)
  }

  lemma DispatchingStep(ps: map<Pid, Prog>, env: Env, winner: Option<Pid>, plan: Plan, base: seq<Effect>,
                        done: set<Pid>,
                        now: map<Pid, Prog>, sent: seq<Effect>, fires: seq<(Pid, nat)>, failed: set<Pid>, id: Pid)
    requires Dispatching(ps, plan, base, done, now, sent, fires, failed)
    requires Fits(plan, ps, env, winner, id) && id !in done
    ensures var o := plan.outs[id];
            Dispatching(ps, plan, base, done + {id}, now[id := plan.goal[id]], sent + plan.share[id],
                        if o.fired.Some? then fires + [(id, o.fired.value)] else fires, if o.failed then failed + {id} else failed)
  {
    SweepStep(ps, plan.goal, plan.share, base, done, now, sent, id);
    FiredByMore(fires, failed, plan.outs, done, id);
  }

  /** `winner` is the (priority, id) maximum of the programs contending in `ps`. */
  ghost predicate Best(ps: map<Pid, Prog>, env: Env, winner: Option<Pid>) {
    match winner
    case None => forall id :: id in ps ==> !Contends(id, ps[id], env)
    case Some(w) =>
      && w in ps && Contends(w, ps[w], env)
      && (forall id :: id in ps && Contends(id, ps[id], env) ==> AtMost(ps, id, w))
  }

  lemma EachIsRuled(cs: seq<Arbiter.Candidate<Payload>>, id: Pid)
    requires (exists c :: c in cs && c.id == id) && |Arbiter.Resolve(cs)| == |cs|
    requires forall k :: 0 <= k < |cs| ==> Arbiter.Resolve(cs)[k].id == cs[k].id
    ensures exists r :: r in Arbiter.Resolve(cs) && r.id == id
  {
    var k :| 0 <= k < |cs| && cs[k].id == id;
    assert Arbiter.Resolve(cs)[k] in Arbiter.Resolve(cs);
  }

  /** Arbitration over the collected candidates picks the best contender, and its
      rulings are what the dispatch loop needs. */
  lemma RulingsAreGood(running: seq<Pid>, ps: map<Pid, Prog>, env: Env) returns (winner: Option<Pid>)
    requires Distinct(running) && forall id :: id in running <==> id in ps && ps[id].state.Running?
    ensures Best(ps, env, winner)
    ensures var rs := Arbiter.Resolve(CandidatesOf(running, ps, env));
            && (forall i, j :: 0 <= i < j < |rs| ==> rs[i].id != rs[j].id)
            && (forall r :: r in rs ==> GoodRuling(ps, env, winner, r))
            && (forall id :: id in ps && Contends(id, ps[id], env) ==> exists r :: r in rs && r.id == id)
  {
    var cs := CandidatesOf(running, ps, env);
    CandidatesAreContenders(running, ps, env);
    if cs == [] {
      winner := None;
    } else {
      var w := Arbiter.ResolveRules(cs);
      winner := Some(w);
      var rs := Arbiter.Resolve(cs);
      forall id | id in ps && Contends(id, ps[id], env) ensures exists r :: r in rs && r.id == id { EachIsRuled(cs, id); }
      forall r | r in rs ensures GoodRuling(ps, env, winner, r) {
        var k :| 0 <= k < |rs| && rs[k] == r;
        assert GoodCandidate(cs[k], ps, env);
      }
    }
  }

  lemma DispatchingEnd(ps: map<Pid, Prog>, env: Env, winner: Option<Pid>, base: seq<Effect>, done: set<Pid>,
                       now: map<Pid, Prog>, sent: seq<Effect>, fires: seq<(Pid, nat)>, failed: set<Pid>)
    requires Arbitrated(ps, env, winner)
    requires Dispatching(ps, PlanOf(ps, env, winner), base, done, now, sent, fires, failed)
    requires forall id :: id in ps && ps[id].state.Running? && id !in done ==> FirstFire(id, ps[id], env).None?
    ensures Swept(ps, Dispatched(ps, env, winner), DispatchShares(ps, env, winner), base, now, sent)
    ensures FiredBy(fires, failed, PlanOf(ps, env, winner).outs, ps.Keys)
  {
    forall id | id in ps && id !in done ensures Outcome(ps, env, winner, id) == WatchOutcome([], None, false) { }
    SweepEnd(ps, Dispatched(ps, env, winner), DispatchShares(ps, env, winner), base, done, now, sent);
  }

  lemma EveryFireHandled(running: seq<Pid>, ps: map<Pid, Prog>, env: Env, id: Pid)
    requires Distinct(running) && forall id :: id in running <==> id in ps && ps[id].state.Running?
    requires id in ps && ps[id].state.Running? && FirstFire(id, ps[id], env).Some?
    ensures var (ds, rs) := (DirectOf(running, ps, env), Arbiter.Resolve(CandidatesOf(running, ps, env)));
            id in FiredIds(ds, |ds|) + RuledIds(rs, |rs|)
  {
    var (ds, rs) := (DirectOf(running, ps, env), Arbiter.Resolve(CandidatesOf(running, ps, env)));
    if Contends(id, ps[id], env) {
      var _ := RulingsAreGood(running, ps, env);
      var r :| r in rs && r.id == id;
      var k :| 0 <= k < |rs| && rs[k] == r;
    } else {
      DirectsFireEmpty(running, ps, env);
      var d := (id, FirstFire(id, ps[id], env).value);
      assert d in ds;
      var k :| 0 <= k < |ds| && ds[k] == d;
    }
  }

  /** What the two dispatch loops may rely on, and that together they reach every firing
      program. */
  lemma ReadyToDispatch(running: seq<Pid>, ps: map<Pid, Prog>, env: Env, direct: seq<(Pid, nat)>,
                        rulings: seq<Arbiter.Ruling<Payload>>)
    returns (winner: Option<Pid>)
    requires Distinct(running) && forall id :: id in running <==> id in ps && ps[id].state.Running?
    requires direct == DirectOf(running, ps, env) && rulings == Arbiter.Resolve(CandidatesOf(running, ps, env))
    ensures Best(ps, env, winner) && Arbitrated(ps, env, winner)
    ensures Firable(direct, ps, env, winner, PlanOf(ps, env, winner))
    ensures Rulable(rulings, ps, env, winner, PlanOf(ps, env, winner), FiredIds(direct, |direct|))
    ensures forall id :: id in ps && ps[id].state.Running? && id !in FiredIds(direct, |direct|) + RuledIds(rulings, |rulings|) ==>
      FirstFire(id, ps[id], env).None?
  {
    winner := RulingsAreGood(running, ps, env);
    DirectsFireEmpty(running, ps, env);
    DirectsAreFirable(running, ps, env, winner);
    RulingsAreRulable(running, ps, env, winner);
    forall id | id in ps && ps[id].state.Running? && FirstFire(id, ps[id], env).Some?
      ensures id in FiredIds(direct, |direct|) + RuledIds(rulings, |rulings|)
    {
      EveryFireHandled(running, ps, env, id);
    }
  }

  lemma DirectsAreFirable(running: seq<Pid>, ps: map<Pid, Prog>, env: Env, winner: Option<Pid>)
    requires Distinct(running) && (forall id :: id in running <==> id in ps && ps[id].state.Running?) && Arbitrated(ps, env, winner)
    ensures Firable(DirectOf(running, ps, env), ps, env, winner, PlanOf(ps, env, winner))
  {
    DirectsFireEmpty(running, ps, env);
    forall d | d in DirectOf(running, ps, env) ensures DirectFire(ps, env, d) && Fits(PlanOf(ps, env, winner), ps, env, winner, d.0) {
      assert (d.0, d.1) == d;
      PlanFits(ps, env, winner, d.0);
    }
  }

  lemma RulingsAreRulable(running: seq<Pid>, ps: map<Pid, Prog>, env: Env, winner: Option<Pid>)
    requires Distinct(running) && (forall id :: id in running <==> id in ps && ps[id].state.Running?) && Arbitrated(ps, env, winner)
    requires var rs := Arbiter.Resolve(CandidatesOf(running, ps, env));
             (forall i, j :: 0 <= i < j < |rs| ==> rs[i].id != rs[j].id) && forall r :: r in rs ==> GoodRuling(ps, env, winner, r)
    ensures var (ds, rs) := (DirectOf(running, ps, env), Arbiter.Resolve(CandidatesOf(running, ps, env)));
            Rulable(rs, ps, env, winner, PlanOf(ps, env, winner), FiredIds(ds, |ds|))
  {
    var (ds, rs) := (DirectOf(running, ps, env), Arbiter.Resolve(CandidatesOf(running, ps, env)));
    forall r | r in rs ensures Fits(PlanOf(ps, env, winner), ps, env, winner, r.id) && r.id !in FiredIds(ds, |ds|) {
      assert GoodRuling(ps, env, winner, r);
      PlanFits(ps, env, winner, r.id);
      NotDirect(running, ps, env, r.id);
    }
  }

  lemma NotDirect(running: seq<Pid>, ps: map<Pid, Prog>, env: Env, id: Pid)
    requires Distinct(running) && forall id :: id in running ==> id in ps && ps[id].state.Running?
    requires id in ps && FirstFire(id, ps[id], env).Some?
    requires ps[id].doc.watches[FirstFire(id, ps[id], env).value].steps != []
    ensures var ds := DirectOf(running, ps, env); id !in FiredIds(ds, |ds|)
  {
    var ds := DirectOf(running, ps, env);
    DirectsFireEmpty(running, ps, env);
    forall k | 0 <= k < |ds| ensures ds[k].0 != id {
      var (x, w) := ds[k];
      assert (x, w) in ds;
    }
  }

  /** After the observations of this tick are recorded (`ps` is what was looked at). */
  ghost function Looked(ps: map<Pid, Prog>, env: Env, winner: Option<Pid>): map<Pid, Prog>
    requires Arbitrated(ps, env, winner)
  {
    map id | id in ps ::
      if ps[id].state.Running? then Dispatched(ps, env, winner)[id].(watchState := ObservedAll(id, ps[id], env)) else ps[id]
  }

  ghost function Booked(ps: map<Pid, Prog>, env: Env, winner: Option<Pid>): map<Pid, Prog>
    requires Arbitrated(ps, env, winner)
  {
    map id | id in ps ::
      if ps[id].state.Running? then AfterWatches(id, ps[id], env, Outcome(ps, env, winner, id)) else ps[id]
  }

  ghost function Stepped(ps: map<Pid, Prog>, env: Env): map<Pid, Prog> {
    map id | id in ps :: if ps[id].state.Running? then AfterBody(id, ps[id], env) else ps[id]
  }

  ghost function StepShares(ps: map<Pid, Prog>, env: Env): map<Pid, seq<Effect>> {
    map id | id in ps :: if ps[id].state.Running? then BodyEffects(id, ps[id], env) else []
  }

  ghost predicate Moving(before: map<Pid, Prog>, goal: map<Pid, Prog>, done: set<Pid>, now: map<Pid, Prog>) {
    && before.Keys == goal.Keys == now.Keys
    && forall id :: id in before ==> now[id] == if id in done then goal[id] else before[id]
  }

  lemma MovingStep(before: map<Pid, Prog>, goal: map<Pid, Prog>, done: set<Pid>, now: map<Pid, Prog>, id: Pid,
                   now': map<Pid, Prog>)
    requires Moving(before, goal, done, now) && id in before && now' == now[id := goal[id]]
    ensures Moving(before, goal, done + {id}, now')
  {
  }

  lemma MovingEnd(before: map<Pid, Prog>, goal: map<Pid, Prog>, done: set<Pid>, now: map<Pid, Prog>)
    requires Moving(before, goal, done, now)
    requires forall id :: id in before && id !in done ==> goal[id] == before[id]
    ensures now == goal
  {
  }

  /** `p` with its fired watch, if any, marked as fired. */
  ghost predicate Books(p: Prog, o: WatchOutcome, env: Env, p': Prog) {
    && (o.fired.None? ==> p' == p)
    && (o.fired.Some? ==>
          && o.fired.value < |p.doc.watches|
          && p' == p.(watchState := p.watchState[o.fired.value :=
               AfterFire(p.doc.watches[o.fired.value], Record(p.watchState, o.fired.value), env.now)]))
  }

  /** Firing on top of the observations is the whole watch bookkeeping. */
  lemma FireBooks(ps: map<Pid, Prog>, env: Env, winner: Option<Pid>, id: Pid)
    requires id in ps && Arbitrated(ps, env, winner)
    ensures Books(Looked(ps, env, winner)[id], Outcome(ps, env, winner, id), env, Booked(ps, env, winner)[id])
  {
  }

  lemma FireAt(fires: seq<(Pid, nat)>, failed: set<Pid>, outs: map<Pid, WatchOutcome>, before: map<Pid, Prog>,
               goal: map<Pid, Prog>,
               env: Env, n: nat)
    requires before.Keys == outs.Keys == goal.Keys && FiredBy(fires, failed, outs, outs.Keys) && n < |fires|
    requires forall id :: id in before ==> Books(before[id], outs[id], env, goal[id])
    ensures var (id, w) := fires[n];
            && id in before && id !in FiredIds(fires, n) && FiredIds(fires, n + 1) == FiredIds(fires, n) + {id}
            && outs[id].fired == Some(w) && Books(before[id], outs[id], env, goal[id])
  {
    var (id, w) := fires[n];
    assert (id, w) in fires;
  }

  lemma RestUnfired(fires: seq<(Pid, nat)>, failed: set<Pid>, outs: map<Pid, WatchOutcome>, done: set<Pid>, id: Pid)
    requires FiredBy(fires, failed, outs, outs.Keys) && id in outs && id !in done
    requires forall k :: 0 <= k < |fires| ==> fires[k].0 in done
    ensures outs[id].fired.None?
  {
    assert forall w :: outs[id].fired == Some(w) ==> (id, w) in fires;
  }

  ghost predicate SeenAt(id: Pid, q: Prog, i: nat, env: Env) {
    i < |q.doc.watches| && LookAt(id, q, i, env).Seen?
  }

  function Record(ws: map<nat, WatchRuntime>, i: nat): WatchRuntime {
    if i in ws then ws[i] else FreshWatch
  }

  /** Truthy edges and then retirements are what observing every watch records. */
  lemma RetiredIsObserved(e: Eval, q: Prog, env: Env, ws1: map<nat, WatchRuntime>, ws: map<nat, WatchRuntime>)
    requires GoodEval(e, q, env)
    requires forall i: nat :: i in ws1 <==> i in q.watchState || SeenAt(e.id, q, i, env)
    requires forall i :: i in ws1 ==>
      ws1[i] == if SeenAt(e.id, q, i, env)
                then Record(q.watchState, i).(lastTruthy := LookAt(e.id, q, i, env).truthy) else q.watchState[i]
    requires forall i :: i in ws <==> i in ws1 || i in e.retires
    requires forall i :: i in ws ==> ws[i] == if i in e.retires then Record(ws1, i).(retired := true) else ws1[i]
    ensures ws == ObservedAll(e.id, q, env)
  {
    var seen := ObservedAll(e.id, q, env);
    assert ws.Keys == seen.Keys;
    forall i | i in ws ensures ws[i] == seen[i] {}
  }


  class Scheduler {
    var inbox: seq<Command>
    var programs: map<Pid, Prog>
    var effects: seq<Effect>

    constructor ()
      ensures programs == map[] && effects == [] && inbox == []
    {
      inbox, programs, effects := [], map[], [];
    }

    /** Drain the command channel, reading the clock anew for each command; true when a
        shutdown was seen. */
    method DrainCommands(clock: nat -> int) returns (stop: bool)
      modifies this
      ensures programs == ExecuteAll(old(programs), BeforeShutdown(old(inbox)), clock)
      ensures effects == old(effects) + AnnounceAll(old(programs), BeforeShutdown(old(inbox)), clock)
      ensures stop <==> Shutdown in old(inbox)
      ensures !stop ==> inbox == []
    {
      var k := 0;
      while inbox != []
        invariant ExecuteAll(programs, BeforeShutdown(inbox), clock, k)
                  == ExecuteAll(old(programs), BeforeShutdown(old(inbox)), clock)
        invariant effects + AnnounceAll(programs, BeforeShutdown(inbox), clock, k)
               == old(effects) + AnnounceAll(old(programs), BeforeShutdown(old(inbox)), clock)
        invariant Shutdown in inbox <==> Shutdown in old(inbox)
        decreases |inbox|
      {
        var c, now := inbox[0], clock(k);
        assert inbox == [c] + inbox[1..];
        if c.Shutdown? {
          inbox := inbox[1..];
          return true;
        }
        ghost var p0, e0 := programs, effects;
        assert BeforeShutdown(inbox)[1..] == BeforeShutdown(inbox[1..]);
        inbox := inbox[1..];
        match c {
          case SubmitValidated(id, doc) =>
            effects := effects + [Emit(ProgramSubmitted(id)), Emit(StateChanged(id, Pending, Waiting))];
            programs := programs[id := PendingProg(doc).(state := Waiting)];
          case Cancel(id) =>
            if id in programs {
              effects := effects + [Emit(StateChanged(id, programs[id].state, Cancelled))];
              programs := programs[id := programs[id].(state := Cancelled)];
            }
          case Start(id) =>
            if id in programs {
              effects := effects + [Emit(StateChanged(id, programs[id].state, Running))];
              programs := programs[id := programs[id].(state := Running, runningSince := Some(now))];
            }
          case ResumeRunning(id, fromStep, doc) =>
            effects := effects + [Emit(StateChanged(id, Failed, Running)), Emit(ProgramResumed(id, fromStep))];
            programs := programs[id := PendingProg(doc).(state := Running, runningSince := Some(now), cursor := Some(fromStep))];
        }
        assert programs == Execute(p0, c, now) && effects == e0 + Announce(p0, c);
        AnnounceAllStep(p0, e0, c, BeforeShutdown(inbox), clock, k);
        k := k + 1;
      }
      return false;
    }

    method FireTrigger(id: Pid, env: Env)
      requires id in programs && programs[id].state.Waiting?
      modifies `programs, `effects
      ensures programs == old(programs)[id := AfterTrigger(id, old(programs)[id], env)]
      ensures effects == old(effects) + TriggerEffects(id, old(programs)[id], env)
    {
      var p := programs[id];
      match TriggerFires(id, p.doc.trigger, env) {
        case Some(true) =>
          programs := programs[id := Started(p, env.now)];
          effects := effects + [Emit(StateChanged(id, Waiting, Running))];
        case Some(false) =>
        case None =>
          programs := programs[id := p.(state := Failed)];
          effects := effects + [Emit(ProgramFailed(id, PerceptionError))];
      }
    }

    /** Phase 1: waiting programs whose trigger fires start running. */
    method FireTriggers(env: Env, order: seq<Pid>)
      requires Enumerates(order, programs)
      modifies `programs, `effects
      ensures Swept(old(programs), Triggered(old(programs), env), TriggerShares(old(programs), env), old(effects), programs, effects)
    {
      ghost var before, done := programs, {};
      ghost var goal, share := Triggered(before, env), TriggerShares(before, env);
      var waiting := Restrict(order, programs, Waiting);
      for n := 0 to |waiting|
        invariant Sweep(before, goal, share, old(effects), done, programs, effects)
        invariant Done(waiting, n, done)
      {
        var id := waiting[n];
        TriggerOwned(id, before[id], env);
        SweepStep(before, goal, share, old(effects), done, programs, effects, id);
        DoneStep(waiting, n, done);
        FireTrigger(id, env);
        done := done + {id};
      }
      SweepEnd(before, goal, share, old(effects), done, programs, effects);
    }

    /** The inner watch loop of one running program. */
    method LookAtWatches(id: Pid, env: Env) returns (e: Eval, fires: seq<nat>)
      requires id in programs
      ensures e.id == id && GoodEval(e, programs[id], env)
      ensures FirstFire(id, programs[id], env) == if fires == [] then None else Some(fires[0])
    {
      var q := programs[id];
      var truthies: seq<(nat, bool)>, retires: seq<nat> := [], [];
      fires := [];
      for i := 0 to |q.doc.watches|
        invariant forall j: nat, t: bool :: (j, t) in truthies <==>
          j < i && LookAt(id, q, j, env).Seen? && LookAt(id, q, j, env).truthy == t
        invariant forall j: nat :: j in retires <==> j < i && Retires(LookAt(id, q, j, env))
        invariant fires == [] ==> forall j :: 0 <= j < i ==> !Fires(id, q, j, env)
        invariant fires != [] ==>
          fires[0] < i && Fires(id, q, fires[0], env) && forall j :: 0 <= j < fires[0] ==> !Fires(id, q, j, env)
      {
        var look := LookAt(id, q, i, env);
        if look.Tripped? {
          retires := retires + [i];
        } else if look.Seen? {
          truthies := truthies + [(i, look.truthy)];
          match look.decision {
            case Fire => fires := fires + [i];
            case Skip =>
            case Retire => retires := retires + [i];
          }
        }
      }
      e := Eval(id, truthies, retires);
    }

    /** Phase 2: look at every watch of every running program. */
    method LookAtAll(env: Env, running: seq<Pid>)
      returns (evals: seq<Eval>, candidates: seq<Arbiter.Candidate<Payload>>, direct: seq<(Pid, nat)>)
      requires forall id :: id in running ==> id in programs
      ensures |evals| == |running|
      ensures forall k :: 0 <= k < |evals| ==>
        evals[k].id == running[k] && GoodEval(evals[k], programs[running[k]], env)
      ensures candidates == CandidatesOf(running, programs, env) && direct == DirectOf(running, programs, env)
    {
      evals, candidates, direct := [], [], [];
      for n := 0 to |running|
        invariant |evals| == n
        invariant forall k :: 0 <= k < |evals| ==>
          evals[k].id == running[k] && GoodEval(evals[k], programs[running[k]], env)
        invariant candidates == CandidatesOf(running[..n], programs, env)
                  && direct == DirectOf(running[..n], programs, env)
      {
        assert running[..n + 1][..n] == running[..n];
        var e, more, fired := LookAtOne(running[n], env);
        evals, candidates, direct := evals + [e], candidates + more, direct + fired;
      }
      assert running[..|running|] == running;
    }

    method LookAtOne(id: Pid, env: Env) returns (e: Eval, candidates: seq<Arbiter.Candidate<Payload>>,
                     direct: seq<(Pid, nat)>)
      requires id in programs
      ensures e.id == id && GoodEval(e, programs[id], env)
      ensures candidates == CandidateOf(id, programs[id], env) && direct == DirectFireOf(id, programs[id], env)
    {
      candidates, direct := [], [];
      var fires;
      e, fires := LookAtWatches(id, env);
      if fires != [] {
        var steps := programs[id].doc.watches[fires[0]].steps;
        if steps == [] {
          direct := [(id, fires[0])];
        } else {
          candidates := [Arbiter.Candidate(id, programs[id].doc.priority, (fires[0], steps))];
        }
      }
    }

    /** Dispatch a firing watch's steps, stopping at the first error. */
    method DispatchSteps(id: Pid, watch: nat, steps: seq<Step>, env: Env) returns (error: Option<RuntimeError>)
      modifies `effects
      ensures effects == old(effects) + RunSteps(id, watch, steps, env).effects
      ensures error == RunSteps(id, watch, steps, env).error
    {
      for k := 0 to |steps|
        invariant effects + RunSteps(id, watch, steps, env, k).effects
                  == old(effects) + RunSteps(id, watch, steps, env).effects
        invariant RunSteps(id, watch, steps, env, k).error == RunSteps(id, watch, steps, env).error
      {
        effects := effects + [Emit(ActionDispatched(id, steps[k]))];
        match Perform(id, steps[k], env, env.watchSink(id, k)) {
          case Err(e) =>
            return Some(e);
          case Ok(call) =>
            effects := effects + [Sent(id, ByWatch(watch), call)];
        }
      }
      return None;
    }

    /** Act on one arbitration ruling: dispatch the steps or report the conflict. */
    method ApplyRuling(r: Arbiter.Ruling<Payload>, env: Env, ghost winner: Option<Pid>) returns (fired: bool,
                       failed: bool)
      requires r.id in programs && programs[r.id].state.Running?
      requires FirstFire(r.id, programs[r.id], env) == Some(r.payload.0)
      requires r.payload.1 == programs[r.id].doc.watches[r.payload.0].steps != []
      requires winner.Some? && (r.dispatch <==> winner == Some(r.id)) && (!r.dispatch ==> r.loserOf == winner)
      modifies `programs, `effects
      ensures var o := WatchPhase(r.id, old(programs)[r.id], env, winner);
              && effects == old(effects) + o.effects
              && programs == old(programs)[r.id := if o.failed then old(programs)[r.id].(state := Failed) else old(programs)[r.id]]
              && failed == o.failed && o.fired == if fired then Some(r.payload.0) else None
    {
      var (watch, steps) := r.payload;
      fired, failed := false, false;
      if r.dispatch {
        var error := DispatchSteps(r.id, watch, steps, env);
        match error {
          case Some(e) =>
            failed := true;
            programs := programs[r.id := programs[r.id].(state := Failed)];
            effects := effects + [Emit(ProgramFailed(r.id, e))];
          case None =>
            fired := true;
            effects := effects + [Emit(WatchFired(r.id, watch))];
        }
      } else {
        effects := effects + [Emit(ActionDeferred(r.id, steps, r.loserOf.value))];
      }
    }

    /** Phase 3a: empty-step watches fire without arbitration. */
    method FireDirect(direct: seq<(Pid, nat)>, env: Env, ghost winner: Option<Pid>, ghost plan: Plan)
      returns (fires: seq<(Pid, nat)>, ghost done: set<Pid>)
      requires programs.Keys == plan.goal.Keys == plan.share.Keys && Firable(direct, programs, env, winner, plan)
      modifies `effects
      ensures Dispatching(programs, plan, old(effects), done, programs, effects, fires, {})
      ensures done == FiredIds(direct, |direct|)
    {
      fires, done := [], {};
      for n := 0 to |direct|
        invariant Dispatching(programs, plan, old(effects), done, programs, effects, fires, {})
        invariant done == FiredIds(direct, n)
      {
        FirableAt(direct, programs, env, winner, plan, n);
        fires := FireOne(direct[n], env, winner, plan, old(effects), done, fires);
        done := done + {direct[n].0};
      }
    }

    method FireOne(d: (Pid, nat), env: Env, ghost winner: Option<Pid>, ghost plan: Plan, ghost base: seq<Effect>,
                   ghost done: set<Pid>,
                   fires0: seq<(Pid, nat)>)
      returns (fires: seq<(Pid, nat)>)
      requires Dispatching(programs, plan, base, done, programs, effects, fires0, {})
      requires DirectFire(programs, env, d) && Fits(plan, programs, env, winner, d.0) && d.0 !in done
      modifies `effects
      ensures Dispatching(programs, plan, base, done + {d.0}, programs, effects, fires, {})
    {
      DispatchingStep(programs, env, winner, plan, base, done, programs, effects, fires0, {}, d.0);
      assert programs[d.0 := programs[d.0]] == programs;
      effects := effects + [Emit(WatchFired(d.0, d.1))];
      fires := fires0 + [d];
    }

    method TakeRuling(r: Arbiter.Ruling<Payload>, env: Env, ghost winner: Option<Pid>, ghost before: map<Pid, Prog>,
                      ghost plan: Plan,
                      ghost base: seq<Effect>, ghost done: set<Pid>, fires0: seq<(Pid, nat)>, failed0: set<Pid>)
      returns (fires: seq<(Pid, nat)>, failed: set<Pid>)
      requires Dispatching(before, plan, base, done, programs, effects, fires0, failed0)
      requires GoodRuling(before, env, winner, r) && Fits(plan, before, env, winner, r.id) && r.id !in done
      modifies `programs, `effects
      ensures Dispatching(before, plan, base, done + {r.id}, programs, effects, fires, failed)
    {
      fires, failed := fires0, failed0;
      DispatchingStep(before, env, winner, plan, base, done, programs, effects, fires0, failed0, r.id);
      assert programs[r.id] == before[r.id];
      var fired, failing := ApplyRuling(r, env, winner);
      if fired { fires := fires + [(r.id, r.payload.0)]; }
      if failing { failed := failed + {r.id}; }
    }

    /** Phase 3b: one dispatch at most, a conflict report for every other candidate. */
    method ApplyRulings(rulings: seq<Arbiter.Ruling<Payload>>, env: Env, ghost winner: Option<Pid>,
                        ghost before: map<Pid, Prog>,
                        ghost plan: Plan, ghost base: seq<Effect>, fires0: seq<(Pid, nat)>, ghost done0: set<Pid>)
      returns (fires: seq<(Pid, nat)>, failed: set<Pid>, ghost done: set<Pid>)
      requires Dispatching(before, plan, base, done0, programs, effects, fires0, {})
      requires Rulable(rulings, before, env, winner, plan, done0)
      modifies `programs, `effects
      ensures Dispatching(before, plan, base, done, programs, effects, fires, failed)
      ensures done == done0 + RuledIds(rulings, |rulings|)
    {
      fires, failed, done := fires0, {}, done0;
      for n := 0 to |rulings|
        invariant Dispatching(before, plan, base, done, programs, effects, fires, failed)
        invariant done == done0 + RuledIds(rulings, n)
      {
        RulableAt(rulings, before, env, winner, plan, done0, n);
        fires, failed := TakeRuling(rulings[n], env, winner, before, plan, base, done, fires, failed);
        done := done + {rulings[n].id};
      }
    }

    /** Phases 2 and 3: look at the watches, arbitrate, dispatch. */
    method RunWatches(env: Env, running: seq<Pid>)
      returns (evals: seq<Eval>, fires: seq<(Pid, nat)>, failed: set<Pid>, ghost winner: Option<Pid>)
      requires Distinct(running) && forall id :: id in running <==> id in programs && programs[id].state.Running?
      modifies `programs, `effects
      ensures Best(old(programs), env, winner) && Arbitrated(old(programs), env, winner)
      ensures Swept(old(programs), Dispatched(old(programs), env, winner), DispatchShares(old(programs), env, winner),
                    old(effects), programs, effects)
      ensures FiredBy(fires, failed, PlanOf(old(programs), env, winner).outs, old(programs).Keys)
      ensures |evals| == |running|
      ensures forall k :: 0 <= k < |evals| ==>
        evals[k].id == running[k] && GoodEval(evals[k], old(programs)[running[k]], env)
    {
      ghost var before := programs;
      var candidates, direct;
      evals, candidates, direct := LookAtAll(env, running);
      var rulings := Arbiter.Resolve(candidates);
      winner := ReadyToDispatch(running, before, env, direct, rulings);
      ghost var done, plan := {}, PlanOf(before, env, winner);
      fires, done := FireDirect(direct, env, winner, plan);
      fires, failed, done := ApplyRulings(rulings, env, winner, before, plan, old(effects), fires, done);
      DispatchingEnd(before, env, winner, old(effects), done, programs, effects, fires, failed);
    }

    /** Record the truthy edges of one program. */
    method ApplyTruthies(ws0: map<nat, WatchRuntime>, e: Eval, env: Env,
                         ghost q: Prog) returns (ws: map<nat, WatchRuntime>)
      requires GoodEval(e, q, env)
      ensures forall i: nat :: i in ws <==> i in ws0 || SeenAt(e.id, q, i, env)
      ensures forall i :: i in ws ==>
        ws[i] == if SeenAt(e.id, q, i, env) then Record(ws0, i).(lastTruthy := LookAt(e.id, q, i, env).truthy) else ws0[i]
    {
      ws := ws0;
      ghost var seen: set<nat> := {};
      for n := 0 to |e.truthies|
        invariant forall k :: 0 <= k < n ==> e.truthies[k].0 in seen
        invariant forall i :: i in seen ==> SeenAt(e.id, q, i, env)
        invariant forall i :: i in ws <==> i in ws0 || i in seen
        invariant forall i :: i in ws ==>
          ws[i] == if i in seen then Record(ws0, i).(lastTruthy := LookAt(e.id, q, i, env).truthy) else ws0[i]
      {
        var (i, t) := e.truthies[n];
        assert (i, t) in e.truthies;
        ws := ws[i := Record(ws, i).(lastTruthy := t)];
        seen := seen + {i};
      }
      forall i: nat | SeenAt(e.id, q, i, env) ensures i in seen {
        assert (i, LookAt(e.id, q, i, env).truthy) in e.truthies;
      }
    }

    /** Record one program's observations: truthy edges, then retirements. */
    method ApplyEval(e: Eval, env: Env, ghost q: Prog)
      requires e.id in programs && programs[e.id].watchState == q.watchState && GoodEval(e, q, env)
      modifies `programs
      ensures programs == old(programs)[e.id := old(programs)[e.id].(watchState := ObservedAll(e.id, q, env))]
    {
      var ws1 := ApplyTruthies(programs[e.id].watchState, e, env, q);
      var ws := ws1;
      for n := 0 to |e.retires|
        invariant forall i :: i in ws <==> i in ws1 || i in e.retires[..n]
        invariant forall i :: i in ws ==>
          ws[i] == if i in e.retires[..n] then Record(ws1, i).(retired := true) else ws1[i]
      {
        var i := e.retires[n];
        assert e.retires[..n + 1] == e.retires[..n] + [i];
        ws := ws[i := Record(ws, i).(retired := true)];
      }
      assert e.retires[..|e.retires|] == e.retires;
      RetiredIsObserved(e, q, env, ws1, ws);
      programs := programs[e.id := programs[e.id].(watchState := ws)];
    }

    /** Advance one program's body by one step. */
    method StepBody(id: Pid, env: Env)
      requires id in programs && programs[id].state.Running?
      modifies `programs, `effects
      ensures programs == old(programs)[id := AfterBody(id, old(programs)[id], env)]
      ensures effects == old(effects) + BodyEffects(id, old(programs)[id], env)
    {
      var q := programs[id];
      var r := StepOnce(id, q.doc.body, q.Cursor(), q.deferred, env);
      if r.input.Some? { effects := effects + [Sent(id, ByBody(q.Cursor()), r.input.value)]; }
      var p := q.(deferred := r.deferred);
      match r.outcome {
        case Advanced =>
          p := p.(cursor := Some(q.Cursor() + 1));
          if p.BodyComplete() && p.ActiveWatches() == {} {
            p := p.(state := Completed);
            effects := effects + [Emit(StateChanged(id, Running, Completed)), Emit(ProgramCompleted(id))];
          }
        case Stalled =>
        case BodyDone =>
          if p.ActiveWatches() == {} {
            p := p.(state := Completed);
            effects := effects + [Emit(StateChanged(id, Running, Completed)), Emit(ProgramCompleted(id))];
          }
        case StepFailed(e) =>
          p := p.(state := Failed);
          effects := effects + [Emit(ProgramFailed(id, e))];
      }
      programs := programs[id := p];
    }

    /** Phase 4a: record every program's observations. */
    method ApplyEvals(evals: seq<Eval>, running: seq<Pid>, env: Env, ghost ps: map<Pid, Prog>,
                      ghost winner: Option<Pid>)
      requires Arbitrated(ps, env, winner) && programs == Dispatched(ps, env, winner)
      requires Distinct(running) && forall id :: id in running <==> id in ps && ps[id].state.Running?
      requires |evals| == |running|
      requires forall k :: 0 <= k < |evals| ==> evals[k].id == running[k] && GoodEval(evals[k], ps[running[k]], env)
      modifies `programs
      ensures programs == Looked(ps, env, winner)
    {
      ghost var before, goal, done := programs, Looked(ps, env, winner), {};
      for n := 0 to |evals|
        invariant Moving(before, goal, done, programs)
        invariant Done(running, n, done)
      {
        ghost var id, was := running[n], programs;
        assert id in ps && programs[id] == before[id];
        ApplyEval(evals[n], env, ps[id]);
        MovingStep(before, goal, done, was, id, programs);
        DoneStep(running, n, done);
        done := done + {id};
      }
      MovingEnd(before, goal, done, programs);
    }

    method ApplyFire(id: Pid, watch: nat, env: Env)
      requires id in programs && watch < |programs[id].doc.watches|
      modifies `programs
      ensures var p := old(programs)[id];
              programs == old(programs)[id := p.(watchState := p.watchState[watch :=
                AfterFire(p.doc.watches[watch], Record(p.watchState, watch), env.now)])]
    {
      var p := programs[id];
      var wr := AfterFire(p.doc.watches[watch], Record(p.watchState, watch), env.now);
      programs := programs[id := p.(watchState := p.watchState[watch := wr])];
    }

    /** Phase 4b: post-fire bookkeeping of the watches that dispatched. */
    method ApplyFires(fires: seq<(Pid, nat)>, env: Env, ghost failed: set<Pid>, ghost outs: map<Pid, WatchOutcome>,
                      ghost goal: map<Pid, Prog>)
      requires programs.Keys == outs.Keys == goal.Keys && FiredBy(fires, failed, outs, outs.Keys)
      requires forall id :: id in programs ==> Books(programs[id], outs[id], env, goal[id])
      modifies `programs
      ensures programs == goal
    {
      ghost var before := programs;
      for n := 0 to |fires|
        invariant Moving(before, goal, FiredIds(fires, n), programs)
      {
        FireAt(fires, failed, outs, before, goal, env, n);
        MovingStep(before, goal, FiredIds(fires, n), programs, fires[n].0, programs[fires[n].0 := goal[fires[n].0]]);
        ApplyFire(fires[n].0, fires[n].1, env);
      }
      forall id | id in before && id !in FiredIds(fires, |fires|) ensures goal[id] == before[id] {
        RestUnfired(fires, failed, outs, FiredIds(fires, |fires|), id);
      }
      MovingEnd(before, goal, FiredIds(fires, |fires|), programs);
    }

    /** Phase 5: one body step for every program still running. */
    method StepBodies(env: Env, running: seq<Pid>, failed: set<Pid>)
      requires Distinct(running) && forall id :: id in programs && programs[id].state.Running? ==> id in running
      requires forall id :: id in running ==> id in programs
      requires forall id :: id in failed && id in programs ==> !programs[id].state.Running?
      modifies `programs, `effects
      ensures Swept(old(programs), Stepped(old(programs), env), StepShares(old(programs), env), old(effects), programs, effects)
    {
      ghost var before, done := programs, {};
      ghost var goal, share := Stepped(before, env), StepShares(before, env);
      for n := 0 to |running|
        invariant Sweep(before, goal, share, old(effects), done, programs, effects)
        invariant Done(running, n, done)
      {
        var id := running[n];
        assert programs[id] == before[id];
        BodyOwned(id, before[id], env);
        SweepStep(before, goal, share, old(effects), done, programs, effects, id);
        DoneStep(running, n, done);
        MaybeStepBody(id, env, failed);
        done := done + {id};
      }
      SweepEnd(before, goal, share, old(effects), done, programs, effects);
    }

    method MaybeStepBody(id: Pid, env: Env, failed: set<Pid>)
      requires id in programs && (id in failed ==> !programs[id].state.Running?)
      modifies `programs, `effects
      ensures programs == old(programs)[id := Stepped(old(programs), env)[id]]
      ensures effects == old(effects) + StepShares(old(programs), env)[id]
    {
      if id !in failed && programs[id].state.Running? {
        StepBody(id, env);
      } else {
        assert programs[id := programs[id]] == programs && effects + [] == effects;
      }
    }

    /** Phases 2 to 4 together. */
    method WatchPhases(env: Env, running: seq<Pid>) returns (failed: set<Pid>, ghost winner: Option<Pid>)
      requires Distinct(running) && forall id :: id in running <==> id in programs && programs[id].state.Running?
      modifies `programs, `effects
      ensures Best(old(programs), env, winner) && Arbitrated(old(programs), env, winner)
      ensures programs == Booked(old(programs), env, winner)
      ensures Grown(old(effects), effects, DispatchShares(old(programs), env, winner))
      ensures forall id :: id in failed ==> id in programs && programs[id].state.Failed?
      ensures forall id :: id in programs && programs[id].state.Running? ==> id in running
    {
      ghost var ps := programs;
      var evals, fires;
      evals, fires, failed, winner := RunWatches(env, running);
      ApplyEvals(evals, running, env, ps, winner);
      forall id | id in ps ensures Books(Looked(ps, env, winner)[id], Outcome(ps, env, winner, id), env, Booked(ps, env, winner)[id]) {
        FireBooks(ps, env, winner, id);
      }
      ApplyFires(fires, env, failed, PlanOf(ps, env, winner).outs, Booked(ps, env, winner));
    }

    /** One tick. `order` is the order in which the hash map yields its keys. */
    method TickOnce(env: Env, order: seq<Pid>) returns (ghost winner: Option<Pid>, ghost out: seq<Effect>)
      requires Enumerates(order, programs)
      modifies `programs, `effects
      ensures effects == old(effects) + out
      ensures Ticked(env, winner, old(programs), programs, out)
    {
      if !env.captured {
        effects := effects + [Emit(TickFrameSkipped)];
        return None, [Emit(TickFrameSkipped)];
      }
      FireTriggers(env, order);
      ghost var p1, e1 := programs, effects;
      var running := Restrict(order, programs, Running);
      var failed;
      failed, winner := WatchPhases(env, running);
      ghost var p4, e2 := programs, effects;
      StepBodies(env, running, failed);
      out := TickComposes(env, winner, old(programs), old(effects), p1, e1, p4, e2, programs, effects);
    }
  }

  // ----- The phases together -----

  /** The phases, one after another, are `TickProgram` for every program. */
  lemma TickComposes(env: Env, winner: Option<Pid>, p0: map<Pid, Prog>, e0: seq<Effect>, p1: map<Pid, Prog>,
                     e1: seq<Effect>,
                     p4: map<Pid, Prog>, e4: seq<Effect>, p5: map<Pid, Prog>, e5: seq<Effect>) returns (out: seq<Effect>)
    requires env.captured
    requires Swept(p0, Triggered(p0, env), TriggerShares(p0, env), e0, p1, e1)
    requires Best(p1, env, winner) && Arbitrated(p1, env, winner) && p4 == Booked(p1, env, winner)
    requires Grown(e1, e4, DispatchShares(p1, env, winner))
    requires Swept(p4, Stepped(p4, env), StepShares(p4, env), e4, p5, e5)
    ensures e5 == e0 + out && Ticked(env, winner, p0, p5, out)
  {
    out := e5[|e0|..];
    BestIsWinner(env, winner, p0, p1);
    assert p5.Keys == p0.Keys;
    forall id ensures id in p0 ==> TickedOne(env, winner, id, p0, p5, out)
              ensures id !in p0 ==> EffectsOf(id, out) == [] {
      GrownThrice(id, e0, e1, e4, e5, TriggerShares(p0, env), DispatchShares(p1, env, winner), StepShares(p4, env));
      ShareComposes(env, winner, p0, p1, p4, p5, out, id);
    }
  }

  lemma ShareComposes(env: Env, winner: Option<Pid>, p0: map<Pid, Prog>, p1: map<Pid, Prog>, p4: map<Pid, Prog>,
                      p5: map<Pid, Prog>,
                      out: seq<Effect>, id: Pid)
    requires env.captured && p1 == Triggered(p0, env) && Arbitrated(p1, env, winner) && p4 == Booked(p1, env, winner)
    requires p5 == Stepped(p4, env)
    requires EffectsOf(id, out) ==
             ShareOf(TriggerShares(p0, env), id) + ShareOf(DispatchShares(p1, env, winner), id) + ShareOf(StepShares(p4, env), id)
    ensures id in p0 ==> id in p5 && TickedOne(env, winner, id, p0, p5, out)
    ensures id !in p0 ==> EffectsOf(id, out) == []
  {
    if id in p0 { OneComposes(env, winner, p0, p1, p4, id); }
  }

  lemma GrownThrice(id: Pid, e0: seq<Effect>, e1: seq<Effect>, e2: seq<Effect>, e3: seq<Effect>,
                    a: map<Pid, seq<Effect>>, b: map<Pid, seq<Effect>>, c: map<Pid, seq<Effect>>)
    requires Grown(e0, e1, a) && Grown(e1, e2, b) && Grown(e2, e3, c)
    ensures EffectsOf(id, e3[|e0|..]) == ShareOf(a, id) + ShareOf(b, id) + ShareOf(c, id)
  {
    EffectsOfConcat(id, e0, e3[|e0|..]);
    assert e3 == e0 + e3[|e0|..];
    var x, y, z := EffectsOf(id, e0), EffectsOf(id, e3[|e0|..]), ShareOf(a, id) + ShareOf(b, id) + ShareOf(c, id);
    assert x + y == x + ShareOf(a, id) + ShareOf(b, id) + ShareOf(c, id);
    SameBehind(x, y, ShareOf(a, id), ShareOf(b, id), ShareOf(c, id));
  }

  lemma SameBehind(x: seq<Effect>, y: seq<Effect>, a: seq<Effect>, b: seq<Effect>, c: seq<Effect>)
    requires x + y == x + a + b + c
    ensures y == a + b + c
  {
    assert y == (x + y)[|x|..] && x + a + b + c == x + (a + b + c);
  }

  lemma BestIsWinner(env: Env, winner: Option<Pid>, p0: map<Pid, Prog>, p1: map<Pid, Prog>)
    requires p1 == Triggered(p0, env) && Best(p1, env, winner)
    ensures IsWinner(p0, env, winner)
  {
    assert forall id :: id in p0 ==> p1[id] == AfterTrigger(id, p0[id], env) && p1[id].doc == p0[id].doc;
  }

  lemma OneComposes(env: Env, winner: Option<Pid>, p0: map<Pid, Prog>, p1: map<Pid, Prog>, p4: map<Pid, Prog>, id: Pid)
    requires env.captured && id in p0 && p1 == Triggered(p0, env)
    requires Arbitrated(p1, env, winner) && p4 == Booked(p1, env, winner)
    ensures Contender(p0, env, id) ==> winner.Some?
    ensures var t := TickProgram(id, p0[id], env, winner);
            && t.prog == Stepped(p4, env)[id]
            && t.effects == TriggerShares(p0, env)[id] + DispatchShares(p1, env, winner)[id] + StepShares(p4, env)[id]
  {
    assert p1[id] == AfterTrigger(id, p0[id], env);
  }

  // ----- Arbitration over a whole tick -----

  /** An effect of dispatching a watch's steps. */
  predicate IsWatchDispatch(e: Effect) {
    (e.Sent? && e.origin.ByWatch?) || (e.Emit? && e.event.ActionDispatched?)
  }

  lemma OnlyWinnerDispatches(id: Pid, p: Prog, env: Env, winner: Option<Pid>)
    requires env.captured && (Contends(id, AfterTrigger(id, p, env), env) ==> winner.Some?)
    requires winner != Some(id)
    ensures forall e :: e in TickProgram(id, p, env, winner).effects ==> !IsWatchDispatch(e)
  {
    var q := AfterTrigger(id, p, env);
    assert forall e :: e in TriggerEffects(id, p, env) ==> !IsWatchDispatch(e);
    if q.state.Running? {
      var o := WatchPhase(id, q, env, winner);
      assert forall e :: e in o.effects ==> !IsWatchDispatch(e);
      assert forall e :: e in BodyEffects(id, AfterWatches(id, q, env, o), env) ==> !IsWatchDispatch(e);
    }
  }

  lemma {:induction false} EffectsOfKeepsOwned(id: Pid, es: seq<Effect>, e: Effect)
    requires e in es && Owned(e, id)
    ensures e in EffectsOf(id, es)
  {
    if e != es[|es| - 1] {
      assert es == es[..|es| - 1] + [es[|es| - 1]];
      EffectsOfKeepsOwned(id, es[..|es| - 1], e);
    }
  }

  /** Each tick dispatches the watch steps of at most one program: the best contender. */
  lemma OneDispatcherPerTick(env: Env, winner: Option<Pid>, before: map<Pid, Prog>, after: map<Pid, Prog>,
                             out: seq<Effect>, e: Effect, id: Pid)
    requires Ticked(env, winner, before, after, out)
    requires e in out && IsWatchDispatch(e) && Owned(e, id)
    ensures winner == Some(id) && Contender(before, env, id)
    ensures forall other :: Contender(before, env, other) && other != id ==>
      exists steps :: Emit(ActionDeferred(other, steps, id)) in out
  {
    EffectsOfKeepsOwned(id, out, e);
    if winner != Some(id) {
      assert TickedOne(env, winner, id, before, after, out);
      OnlyWinnerDispatches(id, before[id], env, winner);
      assert false;
    }
    forall other | Contender(before, env, other) && other != id
      ensures exists steps :: Emit(ActionDeferred(other, steps, id)) in out
    {
      assert TickedOne(env, winner, other, before, after, out);
      LoserReports(other, before[other], env, winner);
      var steps :| Emit(ActionDeferred(other, steps, id)) in TickProgram(other, before[other], env, winner).effects;
      EffectsOfSubset(other, out, Emit(ActionDeferred(other, steps, id)));
    }
  }

  lemma LoserReports(id: Pid, p: Prog, env: Env, winner: Option<Pid>)
    requires env.captured && Contends(id, AfterTrigger(id, p, env), env)
    requires winner.Some? && winner != Some(id)
    ensures exists steps :: Emit(ActionDeferred(id, steps, winner.value)) in TickProgram(id, p, env, winner).effects
  {
    var q := AfterTrigger(id, p, env);
    var o := WatchPhase(id, q, env, winner);
    var steps := q.doc.watches[FirstFire(id, q, env).value].steps;
    assert Emit(ActionDeferred(id, steps, winner.value)) in o.effects;
  }

  lemma {:induction false} EffectsOfSubset(id: Pid, es: seq<Effect>, e: Effect)
    requires e in EffectsOf(id, es)
    ensures e in es
  {
    if e in EffectsOf(id, es[..|es| - 1]) { EffectsOfSubset(id, es[..|es| - 1], e); }
  }
}
