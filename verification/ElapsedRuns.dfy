/** The elapsed timer over a whole run: any sequence of evaluations of one child in one
    program, with a clock that never goes back. */
module ElapsedRuns {
  import opened Common
  import opened Predicates
  import opened Perception

  /** One evaluation: when, and what the child was. */
  datatype Look = Look(now: int, truthy: bool)

  /** A timer folded over looks, from any reading. */
  ghost function TimerFrom(timer: Option<int>, looks: seq<Look>): Option<int> {
    if looks == [] then timer
    else var last := looks[|looks| - 1]; TimerNext(TimerFrom(timer, looks[..|looks| - 1]), last.truthy, last.now)
  }

  ghost function TimerAfter(looks: seq<Look>): Option<int> {
    TimerFrom(None, looks)
  }

  ghost predicate ClockRuns(looks: seq<Look>) {
    forall i, j :: 0 <= i <= j < |looks| ==> looks[i].now <= looks[j].now
  }

  ghost predicate TrueSince(looks: seq<Look>, j: nat) {
    j < |looks| && forall i :: j <= i < |looks| ==> looks[i].truthy
  }

  /** A running timer was started by the first look of the current true spell. */
  lemma {:induction false} TimerMarksSpell(looks: seq<Look>) returns (s: nat)
    requires looks != [] && looks[|looks| - 1].truthy
    ensures TrueSince(looks, s) && TimerAfter(looks) == Some(looks[s].now)
    ensures forall j: nat :: TrueSince(looks, j) ==> s <= j
  {
    var n := |looks| - 1;
    var before := looks[..n];
    if before != [] && before[n - 1].truthy {
      s := TimerMarksSpell(before);
      assert TrueSince(before, s);
      forall j: nat | TrueSince(looks, j) ensures s <= j {
        if j < n { assert TrueSince(before, j); }
      }
    } else {
      s := n;
      assert before != [] ==> !looks[n - 1].truthy;
      assert TimerFrom(None, before) == None;
    }
  }

  /** The elapsed predicate is true at the last look exactly when the child was truthy at
      every look since one at least `ms` ago. */
  lemma ElapsedIsExact(looks: seq<Look>, ms: nat)
    requires looks != [] && ClockRuns(looks) && ms <= 0xffff_ffff
    ensures var now := looks[|looks| - 1].now;
            LongEnough(TimerAfter(looks), now, ms) <==> exists j: nat :: TrueSince(looks, j) && looks[j].now <= now - ms
  {
    var n := |looks| - 1;
    if looks[n].truthy {
      var s := TimerMarksSpell(looks);
      if LongEnough(TimerAfter(looks), looks[n].now, ms) { assert TrueSince(looks, s) && looks[s].now <= looks[n].now - ms; }
    }
  }

  /** Looking again at the same instant with the same child changes nothing. */
  lemma LookingTwiceIsOnce(looks: seq<Look>, l: Look)
    ensures TimerAfter(looks + [l, l]) == TimerAfter(looks + [l])
  {
    assert (looks + [l, l])[..|looks| + 1] == looks + [l];
    assert (looks + [l])[..|looks|] == looks;
  }

  lemma {:induction false} TimerFromConcat(timer: Option<int>, a: seq<Look>, b: seq<Look>)
    ensures TimerFrom(timer, a + b) == TimerFrom(TimerFrom(timer, a), b)
  {
    if b == [] {
      assert a + b == a;
    } else {
      assert (a + b)[..|a + b| - 1] == a + b[..|b| - 1];
      TimerFromConcat(timer, a, b[..|b| - 1]);
    }
  }

  // ----- What the evaluator looks at -----

  /** A program and a name: whose timer is followed. */
  datatype Watched = Watched(id: Pid, child: Name)

  /** The looks that evaluating `name` takes at the watched child, in order: one for each
      `elapsed` predicate over it that is evaluated rather than found in the cache. */
  ghost function LogAt(ctx: Ctx, level: map<Name, nat>, st: State, name: Name, depth: nat, on: Watched): seq<Look>
    requires IsLevel(ctx.preds, level)
    decreases LevelOf(level, name), if depth < MAX_DEPTH then MAX_DEPTH - depth else 0, 2, 0
  {
    if depth >= MAX_DEPTH || name !in ctx.preds || ctx.hash(ctx.preds[name]) in st.cache then []
    else
      assert LevelOk(ctx.preds, level, level[name], ctx.preds[name]);
      LogKind(ctx, level, level[name], st, ctx.preds[name], depth + 1, on)
  }

  ghost function LogKind(ctx: Ctx, level: map<Name, nat>, bound: nat, st: State, kind: Kind, depth: nat,
                         on: Watched): seq<Look>
    requires IsLevel(ctx.preds, level) && LevelOk(ctx.preds, level, bound, kind) && depth <= MAX_DEPTH
    decreases bound, MAX_DEPTH + 1 - depth, 1, 0
  {
    match kind
    case AllOf(names) => LogSeq(ctx, level, bound, st, names, depth, true, on)
    case AnyOf(names) => LogSeq(ctx, level, bound, st, names, depth, false, on)
    case Not(name) =>
      assert name in Operands(kind);
      LogAt(ctx, level, st, name, depth, on)
    case Elapsed(name, _) =>
      assert name in Operands(kind);
      if ctx.program.None? || name !in ctx.preds then []
      else
        var r := EvalAt(ctx, level, st, name, 0).0;
        LogAt(ctx, level, st, name, 0, on) + OwnLook(ctx, r, name, on)
    case _ => []
  }

  /** The operands of `all_of` (`go` is true) or `any_of`, up to the one that decides. */
  ghost function LogSeq(ctx: Ctx, level: map<Name, nat>, bound: nat, st: State, names: seq<Name>, depth: nat,
                        go: bool, on: Watched): seq<Look>
    requires IsLevel(ctx.preds, level) && depth <= MAX_DEPTH
    requires forall n :: n in names && n in ctx.preds ==> level[n] <= bound
    decreases bound, MAX_DEPTH + 1 - depth, 0, |names|
  {
    if names == [] then []
    else
      var (r, st') := EvalAt(ctx, level, st, names[0], depth);
      LogAt(ctx, level, st, names[0], depth, on)
      + if r.Ok? && r.value.truthy == go then LogSeq(ctx, level, bound, st', names[1..], depth, go, on) else []
  }

  ghost function TimerOf(st: State, on: Watched): Option<int> {
    TimerAt(st.timers, (on.id, on.child))
  }

  // ----- The timer is the fold of the looks: nothing else moves it -----

  lemma {:induction false} EvalAtFolds(ctx: Ctx, level: map<Name, nat>, st: State, name: Name, depth: nat, on: Watched)
    requires IsLevel(ctx.preds, level)
    ensures TimerOf(EvalAt(ctx, level, st, name, depth).1, on)
            == TimerFrom(TimerOf(st, on), LogAt(ctx, level, st, name, depth, on))
    decreases LevelOf(level, name), if depth < MAX_DEPTH then MAX_DEPTH - depth else 0, 2, 0
  {
    if depth < MAX_DEPTH && name in ctx.preds && ctx.hash(ctx.preds[name]) !in st.cache {
      assert LevelOk(ctx.preds, level, level[name], ctx.preds[name]);
      DispatchFolds(ctx, level, level[name], st, ctx.preds[name], depth + 1, on);
    }
  }

  lemma {:induction false} DispatchFolds(ctx: Ctx, level: map<Name, nat>, bound: nat, st: State, kind: Kind,
                                         depth: nat, on: Watched)
    requires IsLevel(ctx.preds, level) && LevelOk(ctx.preds, level, bound, kind) && depth <= MAX_DEPTH
    ensures TimerOf(Dispatch(ctx, level, bound, st, kind, depth).1, on)
         == TimerFrom(TimerOf(st, on), LogKind(ctx, level, bound, st, kind, depth, on))
    decreases bound, MAX_DEPTH + 1 - depth, 1, 0
  {
    match kind
    case AllOf(names) => EvalAllFolds(ctx, level, bound, st, names, depth, on);
    case AnyOf(names) => EvalAnyFolds(ctx, level, bound, st, names, depth, on);
    case Not(name) =>
      assert name in Operands(kind);
      EvalAtFolds(ctx, level, st, name, depth, on);
    case Elapsed(name, ms) =>
      assert name in Operands(kind);
      if ctx.program.Some? && name in ctx.preds {
        var (r, log) := (EvalAt(ctx, level, st, name, 0).0, LogAt(ctx, level, st, name, 0, on));
        EvalAtFolds(ctx, level, st, name, 0, on);
        ElapsedMoves(ctx, level, bound, st, name, ms, depth, on);
        TimerFromConcat(TimerOf(st, on), log, OwnLook(ctx, r, name, on));
      }
    case _ =>
  }

  /** The looks an `elapsed` predicate adds behind those of its child. */
  ghost function OwnLook(ctx: Ctx, r: Answer, name: Name, on: Watched): seq<Look>
    requires ctx.program.Some?
  {
    if r.Ok? && on == Watched(ctx.program.value, name) then [Look(ctx.now, r.value.truthy)] else []
  }

  /** What evaluating `elapsed` does to the timers, once its child has answered. */
  ghost function Observed(ctx: Ctx, timers: Timers, r: Answer, name: Name): Timers
    requires ctx.program.Some?
  {
    var key := (ctx.program.value, name);
    if r.Ok? then PutTimer(timers, key, TimerNext(TimerAt(timers, key), r.value.truthy, ctx.now)) else timers
  }

  lemma ElapsedObserves(ctx: Ctx, level: map<Name, nat>, bound: nat, st: State, name: Name, ms: nat, depth: nat)
    requires IsLevel(ctx.preds, level) && LevelOk(ctx.preds, level, bound, Elapsed(name, ms)) && depth <= MAX_DEPTH
    requires ctx.program.Some? && name in ctx.preds
    ensures var (r, st') := EvalAt(ctx, level, st, name, 0);
            Dispatch(ctx, level, bound, st, Elapsed(name, ms), depth).1.timers == Observed(ctx, st'.timers, r, name)
  {
    assert name in Operands(Elapsed(name, ms));
  }

  lemma ObservedMoves(ctx: Ctx, timers: Timers, r: Answer, name: Name, on: Watched)
    requires ctx.program.Some?
    ensures var key := (on.id, on.child);
            TimerAt(Observed(ctx, timers, r, name), key) == TimerFrom(TimerAt(timers, key), OwnLook(ctx, r, name, on))
  {
    if r.Ok? { LookMoves(TimerAt(timers, (on.id, on.child)), [], Look(ctx.now, r.value.truthy)); }
  }

  lemma ElapsedMoves(ctx: Ctx, level: map<Name, nat>, bound: nat, st: State, name: Name, ms: nat, depth: nat, on: Watched)
    requires IsLevel(ctx.preds, level) && LevelOk(ctx.preds, level, bound, Elapsed(name, ms)) && depth <= MAX_DEPTH
    requires ctx.program.Some? && name in ctx.preds
    ensures var (r, st') := EvalAt(ctx, level, st, name, 0);
            TimerOf(Dispatch(ctx, level, bound, st, Elapsed(name, ms), depth).1, on)
            == TimerFrom(TimerOf(st', on), OwnLook(ctx, r, name, on))
  {
    var (r, st') := EvalAt(ctx, level, st, name, 0);
    ElapsedObserves(ctx, level, bound, st, name, ms, depth);
    ObservedMoves(ctx, st'.timers, r, name, on);
  }

  lemma LookMoves(timer: Option<int>, looks: seq<Look>, l: Look)
    ensures TimerFrom(timer, looks + [l]) == TimerNext(TimerFrom(timer, looks), l.truthy, l.now)
  {
    assert (looks + [l])[..|looks|] == looks;
  }

  lemma {:induction false} EvalAllFolds(ctx: Ctx, level: map<Name, nat>, bound: nat, st: State, names: seq<Name>,
                                        depth: nat, on: Watched)
    requires IsLevel(ctx.preds, level) && depth <= MAX_DEPTH
    requires forall n :: n in names && n in ctx.preds ==> level[n] <= bound
    ensures TimerOf(EvalAll(ctx, level, bound, st, names, depth).1, on)
         == TimerFrom(TimerOf(st, on), LogSeq(ctx, level, bound, st, names, depth, true, on))
    decreases bound, MAX_DEPTH + 1 - depth, 0, |names|
  {
    if names != [] {
      var (r, st') := EvalAt(ctx, level, st, names[0], depth);
      var first := LogAt(ctx, level, st, names[0], depth, on);
      EvalAtFolds(ctx, level, st, names[0], depth, on);
      TimerFromConcat(TimerOf(st, on), first, []);
      if r.Ok? && r.value.truthy {
        EvalAllFolds(ctx, level, bound, st', names[1..], depth, on);
        TimerFromConcat(TimerOf(st, on), first, LogSeq(ctx, level, bound, st', names[1..], depth, true, on));
      }
    }
  }

  lemma {:induction false} EvalAnyFolds(ctx: Ctx, level: map<Name, nat>, bound: nat, st: State, names: seq<Name>,
                                        depth: nat, on: Watched)
    requires IsLevel(ctx.preds, level) && depth <= MAX_DEPTH
    requires forall n :: n in names && n in ctx.preds ==> level[n] <= bound
    ensures TimerOf(EvalAny(ctx, level, bound, st, names, depth).1, on)
         == TimerFrom(TimerOf(st, on), LogSeq(ctx, level, bound, st, names, depth, false, on))
    decreases bound, MAX_DEPTH + 1 - depth, 0, |names|
  {
    if names != [] {
      var (r, st') := EvalAt(ctx, level, st, names[0], depth);
      var first := LogAt(ctx, level, st, names[0], depth, on);
      EvalAtFolds(ctx, level, st, names[0], depth, on);
      TimerFromConcat(TimerOf(st, on), first, []);
      if r.Ok? && !r.value.truthy {
        EvalAnyFolds(ctx, level, bound, st', names[1..], depth, on);
        TimerFromConcat(TimerOf(st, on), first, LogSeq(ctx, level, bound, st', names[1..], depth, false, on));
      }
    }
  }

  // ----- An elapsed predicate takes exactly one look -----

  lemma {:induction false} NoLooksAbove(ctx: Ctx, level: map<Name, nat>, st: State, name: Name, depth: nat, on: Watched)
    requires IsLevel(ctx.preds, level) && name in ctx.preds && (on.child in level ==> level[name] <= level[on.child])
    ensures LogAt(ctx, level, st, name, depth, on) == []
    decreases LevelOf(level, name), if depth < MAX_DEPTH then MAX_DEPTH - depth else 0, 2, 0
  {
    if depth < MAX_DEPTH && ctx.hash(ctx.preds[name]) !in st.cache {
      assert LevelOk(ctx.preds, level, level[name], ctx.preds[name]);
      NoLooksIn(ctx, level, level[name], st, ctx.preds[name], depth + 1, on);
    }
  }

  lemma {:induction false} NoLooksIn(ctx: Ctx, level: map<Name, nat>, bound: nat, st: State, kind: Kind, depth: nat,
                                     on: Watched)
    requires IsLevel(ctx.preds, level) && LevelOk(ctx.preds, level, bound, kind) && depth <= MAX_DEPTH
    requires on.child in level ==> bound <= level[on.child]
    ensures LogKind(ctx, level, bound, st, kind, depth, on) == []
    decreases bound, MAX_DEPTH + 1 - depth, 1, 0
  {
    match kind
    case AllOf(names) => NoLooksInSeq(ctx, level, bound, st, names, depth, true, on);
    case AnyOf(names) => NoLooksInSeq(ctx, level, bound, st, names, depth, false, on);
    case Not(name) =>
      assert name in Operands(kind);
      if name in ctx.preds { NoLooksAbove(ctx, level, st, name, depth, on); }
    case Elapsed(name, _) =>
      assert name in Operands(kind);
      if name in ctx.preds { NoLooksAbove(ctx, level, st, name, 0, on); }
    case _ =>
  }

  lemma {:induction false} NoLooksInSeq(ctx: Ctx, level: map<Name, nat>, bound: nat, st: State, names: seq<Name>,
                                        depth: nat, go: bool, on: Watched)
    requires IsLevel(ctx.preds, level) && depth <= MAX_DEPTH && (on.child in level ==> bound <= level[on.child])
    requires forall n :: n in names && n in ctx.preds ==> level[n] <= bound
    ensures LogSeq(ctx, level, bound, st, names, depth, go, on) == []
    decreases bound, MAX_DEPTH + 1 - depth, 0, |names|
  {
    if names != [] {
      assert names[0] in names;
      if names[0] in ctx.preds { NoLooksAbove(ctx, level, st, names[0], depth, on); }
      NoLooksInSeq(ctx, level, bound, EvalAt(ctx, level, st, names[0], depth).1, names[1..], depth, go, on);
    }
  }

  /** Evaluating `elapsed` over the child looks at it exactly once, since nothing the child
      depends on can look at the child again. */
  lemma EvaluationLooks(ctx: Ctx, level: map<Name, nat>, bound: nat, st: State, ms: nat, depth: nat, on: Watched)
    requires IsLevel(ctx.preds, level) && LevelOk(ctx.preds, level, bound, Elapsed(on.child, ms)) && depth <= MAX_DEPTH
    requires ctx.program == Some(on.id) && on.child in ctx.preds && EvalAt(ctx, level, st, on.child, 0).0.Ok?
    ensures LogKind(ctx, level, bound, st, Elapsed(on.child, ms), depth, on)
         == [Look(ctx.now, EvalAt(ctx, level, st, on.child, 0).0.value.truthy)]
  {
    assert on.child in Operands(Elapsed(on.child, ms));
    NoLooksAbove(ctx, level, st, on.child, 0, on);
  }

  // ----- Whole runs of the evaluator -----

  /** What the scheduler asks of the evaluator: a new tick, or a name. */
  datatype Act = NewTick | Ask(call: TickCall)

  ghost function LogOf(act: Act, st: State, on: Watched): seq<Look> {
    match act
    case NewTick => []
    case Ask(c) =>
      RankIsLevel(c.ctx.preds, c.rank);
      if c.name !in c.ctx.preds || c.ctx.hash(c.ctx.preds[c.name]) in st.cache then []
      else
        assert LevelOk(c.ctx.preds, c.rank, c.rank[c.name], c.ctx.preds[c.name]);
        LogKind(c.ctx, c.rank, c.rank[c.name], st, c.ctx.preds[c.name], 0, on)
  }

  ghost function Done(act: Act, st: State): State {
    match act
    case NewTick => State(map[], st.timers)
    case Ask(c) => RankIsLevel(c.ctx.preds, c.rank); EvalNamed(c.ctx, c.rank, st, c.name).1
  }

  /** The state after some acts, from an evaluator that has seen nothing. */
  ghost function StateAfter(acts: seq<Act>): State {
    if acts == [] then State(map[], map[]) else Done(acts[|acts| - 1], StateAfter(acts[..|acts| - 1]))
  }

  ghost function Log(acts: seq<Act>, on: Watched): seq<Look> {
    if acts == [] then []
    else var before := acts[..|acts| - 1]; Log(before, on) + LogOf(acts[|acts| - 1], StateAfter(before), on)
  }

  /** Questions are asked in the order of the clock. */
  ghost predicate InOrder(acts: seq<Act>) {
    forall i, j :: 0 <= i <= j < |acts| && acts[i].Ask? && acts[j].Ask? ==> acts[i].call.ctx.now <= acts[j].call.ctx.now
  }

  lemma ActFolds(act: Act, st: State, on: Watched)
    ensures TimerOf(Done(act, st), on) == TimerFrom(TimerOf(st, on), LogOf(act, st, on))
  {
    if act.Ask? {
      var c := act.call;
      RankIsLevel(c.ctx.preds, c.rank);
      if c.name in c.ctx.preds && c.ctx.hash(c.ctx.preds[c.name]) !in st.cache {
        assert LevelOk(c.ctx.preds, c.rank, c.rank[c.name], c.ctx.preds[c.name]);
        DispatchFolds(c.ctx, c.rank, c.rank[c.name], st, c.ctx.preds[c.name], 0, on);
      }
    }
  }

  /** In every run, whoever asks what, a timer is the fold of the looks at its child. */
  lemma {:induction false} TimerIsFold(acts: seq<Act>, on: Watched)
    ensures TimerOf(StateAfter(acts), on) == TimerAfter(Log(acts, on))
  {
    if acts != [] {
      var before, act := acts[..|acts| - 1], acts[|acts| - 1];
      TimerIsFold(before, on);
      ActFolds(act, StateAfter(before), on);
      TimerFromConcat(None, Log(before, on), LogOf(act, StateAfter(before), on));
    }
  }

  // ----- Looks carry the time of the question -----

  ghost predicate AllAt(looks: seq<Look>, now: int) {
    forall i :: 0 <= i < |looks| ==> looks[i].now == now
  }

  lemma {:induction false} LogAtNow(ctx: Ctx, level: map<Name, nat>, st: State, name: Name, depth: nat, on: Watched)
    requires IsLevel(ctx.preds, level)
    ensures AllAt(LogAt(ctx, level, st, name, depth, on), ctx.now)
    decreases LevelOf(level, name), if depth < MAX_DEPTH then MAX_DEPTH - depth else 0, 2, 0
  {
    if depth < MAX_DEPTH && name in ctx.preds && ctx.hash(ctx.preds[name]) !in st.cache {
      assert LevelOk(ctx.preds, level, level[name], ctx.preds[name]);
      LogKindNow(ctx, level, level[name], st, ctx.preds[name], depth + 1, on);
    }
  }

  lemma {:induction false} LogKindNow(ctx: Ctx, level: map<Name, nat>, bound: nat, st: State, kind: Kind, depth: nat,
                                      on: Watched)
    requires IsLevel(ctx.preds, level) && LevelOk(ctx.preds, level, bound, kind) && depth <= MAX_DEPTH
    ensures AllAt(LogKind(ctx, level, bound, st, kind, depth, on), ctx.now)
    decreases bound, MAX_DEPTH + 1 - depth, 1, 0
  {
    match kind
    case AllOf(names) => LogSeqNow(ctx, level, bound, st, names, depth, true, on);
    case AnyOf(names) => LogSeqNow(ctx, level, bound, st, names, depth, false, on);
    case Not(name) =>
      assert name in Operands(kind);
      LogAtNow(ctx, level, st, name, depth, on);
    case Elapsed(name, _) =>
      assert name in Operands(kind);
      if name in ctx.preds { LogAtNow(ctx, level, st, name, 0, on); }
    case _ =>
  }

  lemma {:induction false} LogSeqNow(ctx: Ctx, level: map<Name, nat>, bound: nat, st: State, names: seq<Name>,
                                     depth: nat, go: bool, on: Watched)
    requires IsLevel(ctx.preds, level) && depth <= MAX_DEPTH
    requires forall n :: n in names && n in ctx.preds ==> level[n] <= bound
    ensures AllAt(LogSeq(ctx, level, bound, st, names, depth, go, on), ctx.now)
    decreases bound, MAX_DEPTH + 1 - depth, 0, |names|
  {
    if names != [] {
      LogAtNow(ctx, level, st, names[0], depth, on);
      LogSeqNow(ctx, level, bound, EvalAt(ctx, level, st, names[0], depth).1, names[1..], depth, go, on);
    }
  }

  lemma LogOfNow(act: Act, st: State, on: Watched)
    ensures act.Ask? ==> AllAt(LogOf(act, st, on), act.call.ctx.now)
  {
    if act.Ask? {
      var c := act.call;
      RankIsLevel(c.ctx.preds, c.rank);
      if c.name in c.ctx.preds {
        assert LevelOk(c.ctx.preds, c.rank, c.rank[c.name], c.ctx.preds[c.name]);
        LogKindNow(c.ctx, c.rank, c.rank[c.name], st, c.ctx.preds[c.name], 0, on);
      }
    }
  }

  /** A look was taken by some question. */
  ghost predicate TakenIn(l: Look, acts: seq<Act>) {
    exists k :: 0 <= k < |acts| && acts[k].Ask? && acts[k].call.ctx.now == l.now
  }

  lemma {:induction false} LogRuns(acts: seq<Act>, on: Watched)
    requires InOrder(acts)
    ensures ClockRuns(Log(acts, on)) && forall i :: 0 <= i < |Log(acts, on)| ==> TakenIn(Log(acts, on)[i], acts)
  {
    if acts != [] {
      var n := |acts| - 1;
      var before, act := acts[..n], acts[n];
      LogRuns(before, on);
      LogOfNow(act, StateAfter(before), on);
      var a, b := Log(before, on), LogOf(act, StateAfter(before), on);
      forall i | 0 <= i < |a + b| ensures TakenIn((a + b)[i], acts) && (act.Ask? ==> (a + b)[i].now <= act.call.ctx.now) {
        if i < |a| {
          assert TakenIn(a[i], before);
          var k :| 0 <= k < n && before[k].Ask? && before[k].call.ctx.now == a[i].now;
          assert acts[k].Ask? && acts[k].call.ctx.now == a[i].now;
        } else {
          assert acts[n].call.ctx.now == (a + b)[i].now;
        }
      }
    }
  }

  // ----- The law of the elapsed predicate -----

  /** The last act asks for `elapsed` over the watched child, and no result is cached. */
  ghost predicate AsksFresh(acts: seq<Act>, on: Watched, ms: nat) {
    && acts != [] && acts[|acts| - 1].Ask?
    && var c := acts[|acts| - 1].call;
    && c.name in c.ctx.preds && c.ctx.preds[c.name] == Elapsed(on.child, ms) && c.ctx.program == Some(on.id)
    && c.ctx.hash(c.ctx.preds[c.name]) !in StateAfter(acts[..|acts| - 1]).cache
  }

  ghost function LastAnswer(acts: seq<Act>): Answer
    requires acts != [] && acts[|acts| - 1].Ask?
  {
    var c := acts[|acts| - 1].call;
    RankIsLevel(c.ctx.preds, c.rank);
    EvalNamed(c.ctx, c.rank, StateAfter(acts[..|acts| - 1]), c.name).0
  }

  /** A fresh answer compares the timer it leaves behind, after a look of its own. */
  lemma FreshAnswer(acts: seq<Act>, on: Watched, ms: nat)
    requires AsksFresh(acts, on, ms) && LastAnswer(acts).Ok?
    ensures var now := acts[|acts| - 1].call.ctx.now; var log := Log(acts, on);
            && LastAnswer(acts) == Ok(Value(LongEnough(TimerOf(StateAfter(acts), on), now, ms), None))
            && log != [] && log[|log| - 1].now == now
  {
    var c, st := acts[|acts| - 1].call, StateAfter(acts[..|acts| - 1]);
    RankIsLevel(c.ctx.preds, c.rank);
    assert LevelOk(c.ctx.preds, c.rank, c.rank[c.name], Elapsed(on.child, ms));
    EvaluationLooks(c.ctx, c.rank, c.rank[c.name], st, ms, 0, on);
  }

  /** The elapsed predicate is exact. In every run of questions by any programs over any
      number of ticks, asked in the order of the clock, a program's freshly evaluated
      `elapsed` predicate is true exactly when its child was truthy at every look the
      program took at it since one at least `ms` ago. */
  lemma ElapsedPredicateIsExact(acts: seq<Act>, on: Watched, ms: nat)
    requires InOrder(acts) && AsksFresh(acts, on, ms) && LastAnswer(acts).Ok? && ms <= 0xffff_ffff
    ensures var now := acts[|acts| - 1].call.ctx.now; var log := Log(acts, on);
            LastAnswer(acts).value.truthy <==> exists j: nat :: TrueSince(log, j) && log[j].now <= now - ms
  {
    FreshAnswer(acts, on, ms);
    TimerIsFold(acts, on);
    LogRuns(acts, on);
    ElapsedIsExact(Log(acts, on), ms);
  }

  // ----- Asking again -----

  /** No entry of the cache is dropped or overwritten. */
  ghost predicate Keeps(st: State, st': State) {
    forall k :: k in st.cache ==> k in st'.cache && st'.cache[k] == st.cache[k]
  }

  lemma {:induction false} EvalAtKeeps(ctx: Ctx, level: map<Name, nat>, st: State, name: Name, depth: nat)
    requires IsLevel(ctx.preds, level)
    ensures Keeps(st, EvalAt(ctx, level, st, name, depth).1)
    decreases LevelOf(level, name), if depth < MAX_DEPTH then MAX_DEPTH - depth else 0, 2, 0
  {
    if depth < MAX_DEPTH && name in ctx.preds && ctx.hash(ctx.preds[name]) !in st.cache {
      assert LevelOk(ctx.preds, level, level[name], ctx.preds[name]);
      DispatchKeeps(ctx, level, level[name], st, ctx.preds[name], depth + 1);
    }
  }

  lemma {:induction false} DispatchKeeps(ctx: Ctx, level: map<Name, nat>, bound: nat, st: State, kind: Kind, depth: nat)
    requires IsLevel(ctx.preds, level) && LevelOk(ctx.preds, level, bound, kind) && depth <= MAX_DEPTH
    ensures Keeps(st, Dispatch(ctx, level, bound, st, kind, depth).1)
    decreases bound, MAX_DEPTH + 1 - depth, 1, 0
  {
    match kind
    case AllOf(names) => SeqKeeps(ctx, level, bound, st, names, depth);
    case AnyOf(names) => SeqKeeps(ctx, level, bound, st, names, depth);
    case Not(name) =>
      assert name in Operands(kind);
      EvalAtKeeps(ctx, level, st, name, depth);
    case Elapsed(name, _) =>
      assert name in Operands(kind);
      if name in ctx.preds { EvalAtKeeps(ctx, level, st, name, 0); }
    case _ =>
  }

  lemma {:induction false} SeqKeeps(ctx: Ctx, level: map<Name, nat>, bound: nat, st: State, names: seq<Name>,
                                    depth: nat)
    requires IsLevel(ctx.preds, level) && depth <= MAX_DEPTH
    requires forall n :: n in names && n in ctx.preds ==> level[n] <= bound
    ensures Keeps(st, EvalAll(ctx, level, bound, st, names, depth).1)
    ensures Keeps(st, EvalAny(ctx, level, bound, st, names, depth).1)
    decreases bound, MAX_DEPTH + 1 - depth, 0, |names|
  {
    if names != [] {
      EvalAtKeeps(ctx, level, st, names[0], depth);
      SeqKeeps(ctx, level, bound, EvalAt(ctx, level, st, names[0], depth).1, names[1..], depth);
    }
  }

  // ----- What a call leaves in the cache -----

  /** The truth of `n` is in the cache. */
  ghost predicate OnRecord(ctx: Ctx, st: State, n: Name, truthy: bool) {
    n in ctx.preds && ctx.hash(ctx.preds[n]) in st.cache && st.cache[ctx.hash(ctx.preds[n])].truthy == truthy
  }

  /** All of `names` are on record as `go`, or the first that is not is on record as the opposite. */
  ghost predicate SeqOnRecord(ctx: Ctx, st: State, names: seq<Name>, go: bool, truthy: bool) {
    if truthy == go then forall i :: 0 <= i < |names| ==> OnRecord(ctx, st, names[i], go)
    else exists i: nat :: FirstOnRecord(ctx, st, names, i, go)
  }

  ghost predicate FirstOnRecord(ctx: Ctx, st: State, names: seq<Name>, i: nat, go: bool) {
    && i < |names| && OnRecord(ctx, st, names[i], !go)
    && forall j :: 0 <= j < i ==> OnRecord(ctx, st, names[j], go)
  }

  lemma RecordGrows(ctx: Ctx, st: State, st': State, n: Name, names: seq<Name>, go: bool, truthy: bool)
    requires names != [] && n == names[0] && OnRecord(ctx, st, n, go) && Keeps(st, st')
    requires SeqOnRecord(ctx, st', names[1..], go, truthy)
    ensures SeqOnRecord(ctx, st', names, go, truthy)
  {
    assert OnRecord(ctx, st', n, go);
    assert forall j :: 0 < j < |names| ==> names[j] == names[1..][j - 1];
    if truthy != go {
      var i: nat :| FirstOnRecord(ctx, st', names[1..], i, go);
      assert FirstOnRecord(ctx, st', names, i + 1, go);
    }
  }

  lemma {:induction false} SeqIsRemembered(ctx: Ctx, level: map<Name, nat>, bound: nat, st: State, names: seq<Name>,
                                           depth: nat)
    requires IsLevel(ctx.preds, level) && depth <= MAX_DEPTH
    requires forall n :: n in names && n in ctx.preds ==> level[n] <= bound
    ensures var (r, st') := EvalAll(ctx, level, bound, st, names, depth);
            r.Ok? ==> SeqOnRecord(ctx, st', names, true, r.value.truthy)
    ensures var (r, st') := EvalAny(ctx, level, bound, st, names, depth);
            r.Ok? ==> SeqOnRecord(ctx, st', names, false, r.value.truthy)
    decreases |names|
  {
    if names != [] {
      var (r, st') := EvalAt(ctx, level, st, names[0], depth);
      if r.Ok? {
        SeqIsRemembered(ctx, level, bound, st', names[1..], depth);
        SeqKeeps(ctx, level, bound, st', names[1..], depth);
        var (all, s1) := EvalAll(ctx, level, bound, st', names[1..], depth);
        var (any, s2) := EvalAny(ctx, level, bound, st', names[1..], depth);
        if r.value.truthy {
          if all.Ok? { RecordGrows(ctx, st', s1, names[0], names, true, all.value.truthy); }
          assert FirstOnRecord(ctx, st', names, 0, false);
        } else {
          if any.Ok? { RecordGrows(ctx, st', s2, names[0], names, false, any.value.truthy); }
          assert FirstOnRecord(ctx, st', names, 0, true);
        }
      }
    }
  }

  /** What a combined predicate was answered from stays on record for the rest of the tick: the
      operand of a negation or an elapsed predicate, all operands of `all_of` and `any_of` that
      were looked at, up to the one that decided. */
  lemma OperandsAreRemembered(ctx: Ctx, level: map<Name, nat>, bound: nat, st: State, kind: Kind, depth: nat)
    requires IsLevel(ctx.preds, level) && LevelOk(ctx.preds, level, bound, kind) && depth <= MAX_DEPTH
    requires Dispatch(ctx, level, bound, st, kind, depth).0.Ok?
    ensures var (r, st') := Dispatch(ctx, level, bound, st, kind, depth);
            && (kind.Not? ==> OnRecord(ctx, st', kind.name, !r.value.truthy))
            && (kind.Elapsed? ==> exists t :: OnRecord(ctx, st', kind.name, t))
            && (kind.AllOf? ==> SeqOnRecord(ctx, st', kind.names, true, r.value.truthy))
            && (kind.AnyOf? ==> SeqOnRecord(ctx, st', kind.names, false, r.value.truthy))
  {
    match kind
    case AllOf(names) => SeqIsRemembered(ctx, level, bound, st, names, depth);
    case AnyOf(names) => SeqIsRemembered(ctx, level, bound, st, names, depth);
    case Not(name) => assert name in Operands(kind);
    case Elapsed(name, _) =>
      assert name in Operands(kind);
      var (r, st') := EvalAt(ctx, level, st, name, 0);
      assert OnRecord(ctx, Dispatch(ctx, level, bound, st, kind, depth).1, name, r.value.truthy);
    case _ =>
  }

  lemma AskKeeps(c: TickCall, st: State)
    ensures Keeps(st, Done(Ask(c), st))
  {
    RankIsLevel(c.ctx.preds, c.rank);
    if c.name in c.ctx.preds && c.ctx.hash(c.ctx.preds[c.name]) !in st.cache {
      assert LevelOk(c.ctx.preds, c.rank, c.rank[c.name], c.ctx.preds[c.name]);
      DispatchKeeps(c.ctx, c.rank, c.rank[c.name], st, c.ctx.preds[c.name], 0);
    }
  }

  lemma StateStep(acts: seq<Act>, j: nat)
    requires 0 < j <= |acts|
    ensures StateAfter(acts[..j]) == Done(acts[j - 1], StateAfter(acts[..j - 1]))
  {
    assert acts[..j][..j - 1] == acts[..j - 1];
  }

  lemma {:induction false} TickKeeps(acts: seq<Act>, i: nat, j: nat)
    requires i <= j <= |acts| && forall k :: i <= k < j ==> acts[k].Ask?
    ensures Keeps(StateAfter(acts[..i]), StateAfter(acts[..j]))
  {
    if i < j {
      TickKeeps(acts, i, j - 1);
      StateStep(acts, j);
      AskKeeps(acts[j - 1].call, StateAfter(acts[..j - 1]));
    }
  }

  ghost function KeyOf(act: Act): Option<nat> {
    if act.Ask? && act.call.name in act.call.ctx.preds then Some(act.call.ctx.hash(act.call.ctx.preds[act.call.name])) else None
  }

  lemma AnswerIsCached(acts: seq<Act>)
    requires acts != [] && KeyOf(acts[|acts| - 1]).Some? && LastAnswer(acts).Ok?
    ensures var (st, key) := (StateAfter(acts), KeyOf(acts[|acts| - 1]).value);
            key in st.cache && LastAnswer(acts) == Ok(st.cache[key])
  {
  }

  lemma CachedAnswer(acts: seq<Act>)
    requires acts != [] && KeyOf(acts[|acts| - 1]).Some?
    requires KeyOf(acts[|acts| - 1]).value in StateAfter(acts[..|acts| - 1]).cache
    ensures var st := StateAfter(acts[..|acts| - 1]);
            LastAnswer(acts) == Ok(st.cache[KeyOf(acts[|acts| - 1]).value]) && StateAfter(acts) == st
  {
  }

  /** Once answered, a question asked again later in the tick, whatever was asked in
      between, gets the same answer and moves neither cache nor timers. */
  lemma AskingAgainChangesNothing(acts: seq<Act>, i: nat, j: nat)
    requires i < j < |acts| && (forall k :: i <= k <= j ==> acts[k].Ask?)
    requires KeyOf(acts[i]).Some? && KeyOf(acts[i]) == KeyOf(acts[j]) && LastAnswer(acts[..i + 1]).Ok?
    ensures LastAnswer(acts[..j + 1]) == LastAnswer(acts[..i + 1])
    ensures StateAfter(acts[..j + 1]) == StateAfter(acts[..j])
  {
    AnswerIsCached(acts[..i + 1]);
    TickKeeps(acts, i + 1, j);
    assert acts[..j + 1][..j] == acts[..j];
    CachedAnswer(acts[..j + 1]);
  }

  lemma StateSnoc(acts: seq<Act>, act: Act)
    ensures StateAfter(acts + [act]) == Done(act, StateAfter(acts))
  {
    assert (acts + [act])[..|acts|] == acts;
  }

  lemma AfterIsDone(calls: seq<TickCall>, start: Timers, n: nat)
    requires 0 < n <= |calls|
    ensures After(calls, start, n) == Done(Ask(calls[n - 1]), After(calls, start, n - 1))
  {
  }

  /** Some acts, then a new tick with the first `n` calls of it. */
  ghost function TickActs(acts: seq<Act>, calls: seq<TickCall>, n: nat): seq<Act>
    requires n <= |calls|
  {
    if n == 0 then acts + [NewTick] else TickActs(acts, calls, n - 1) + [Ask(calls[n - 1])]
  }

  /** A tick of module Perception is a new tick followed by its calls. */
  lemma {:induction false} TickIsActs(acts: seq<Act>, calls: seq<TickCall>, n: nat)
    requires n <= |calls|
    ensures StateAfter(TickActs(acts, calls, n)) == After(calls, StateAfter(acts).timers, n)
  {
    if n == 0 {
      StateSnoc(acts, NewTick);
    } else {
      TickIsActs(acts, calls, n - 1);
      StateSnoc(TickActs(acts, calls, n - 1), Ask(calls[n - 1]));
      AfterIsDone(calls, StateAfter(acts).timers, n);
    }
  }
}
