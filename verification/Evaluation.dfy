/** What validation buys the evaluator, and the evaluator as the object that owns the
    cache and the timers. */
module Evaluation {
  import opened Common
  import opened Predicates
  import opened Perception

  // ----- Validated maps -----

  lemma OperandsAreEdges(k: Kind)
    ensures forall e :: e in Operands(k) ==> e in EdgesOf(k)
  {
  }

  /** A rank found by the validator orders evaluation too. */
  lemma ValidatedRank(preds: Map, rank: map<Name, nat>)
    requires IsRank(preds, rank)
    ensures EvalRank(preds, rank)
  {
    forall n | n in preds ensures RankOk(preds, rank, rank[n], preds[n]) {
      OperandsAreEdges(preds[n]);
      forall e | e in Operands(preds[n]) && e in preds ensures rank[e] < rank[n] { assert Edge(preds, n, e); }
    }
  }

  ghost predicate NotUnknown(r: Answer) {
    r.Err? ==> !r.error.UnknownPredicate?
  }

  lemma {:induction false} MeaningIsKnown(ctx: Ctx, start: Timers, rank: map<Name, nat>, name: Name)
    requires EvalRank(ctx.preds, rank) && WellShaped(ctx.preds) && name in ctx.preds
    ensures NotUnknown(Meaning(ctx, start, rank, name))
    decreases rank[name], 1, 0
  {
    var k := ctx.preds[name];
    assert RankOk(ctx.preds, rank, rank[name], k) && ShapeOk(k, ctx.preds);
    OperandsAreEdges(k);
    match k
    case AllOf(names) => SeqIsKnown(ctx, start, rank, rank[name], names);
    case AnyOf(names) => SeqIsKnown(ctx, start, rank, rank[name], names);
    case Not(o) =>
      assert o in Operands(k);
      MeaningIsKnown(ctx, start, rank, o);
      OperandIsName(ctx, start, rank, rank[name], o);
    case Elapsed(o, _) =>
      assert o in Operands(k);
      MeaningIsKnown(ctx, start, rank, o);
      OperandIsName(ctx, start, rank, rank[name], o);
    case _ =>
  }

  lemma {:induction false} SeqIsKnown(ctx: Ctx, start: Timers, rank: map<Name, nat>, bound: nat, names: seq<Name>)
    requires EvalRank(ctx.preds, rank) && WellShaped(ctx.preds)
    requires forall n :: n in names ==> n in ctx.preds && rank[n] < bound
    ensures NotUnknown(AllMeaning(ctx, start, rank, bound, names))
    ensures NotUnknown(AnyMeaning(ctx, start, rank, bound, names))
    decreases bound, 0, |names|
  {
    if names != [] {
      assert names[0] in names;
      MeaningIsKnown(ctx, start, rank, names[0]);
      SeqIsKnown(ctx, start, rank, bound, names[1..]);
    }
  }

  // ----- The depth guard -----

  /** A path that passes through no elapsed predicate, at which the depth would restart. */
  ghost predicate Stretch(preds: Map, p: seq<Name>) {
    p != [] && IsPath(preds, p) && forall i :: 0 < i < |p| - 1 ==> !preds[p[i]].Elapsed?
  }

  ghost predicate Reaches(preds: Map, root: Name, name: Name) {
    exists p :: p != [] && IsPath(preds, p) && p[0] == root && p[|p| - 1] == name
  }

  /** Below `root`, no dependency path has more than 32 edges from the root, or from one
      elapsed predicate, to the next elapsed predicate or its end. */
  ghost predicate DepthFits(preds: Map, root: Name) {
    forall p :: Stretch(preds, p) && (p[0] == root || (preds[p[0]].Elapsed? && Reaches(preds, root, p[0]))) ==> |p| <= 33
  }

  lemma ReachesItself(preds: Map, root: Name)
    requires root in preds
    ensures Reaches(preds, root, root)
  {
    assert IsPath(preds, [root]);
  }

  lemma ReachesOn(preds: Map, root: Name, name: Name, e: Name)
    requires Reaches(preds, root, name) && Edge(preds, name, e)
    ensures Reaches(preds, root, e)
  {
    var p :| p != [] && IsPath(preds, p) && p[0] == root && p[|p| - 1] == name;
    var q := p + [e];
    forall i: nat ensures Link(preds, q, i) { assert Link(preds, p, i); }
    assert IsPath(preds, q) && q[0] == root && q[|q| - 1] == e;
  }

  /** At most `k` edges from `name` to the next elapsed predicate or the end. */
  ghost predicate Within(preds: Map, name: Name, k: int) {
    forall p :: Stretch(preds, p) && p[0] == name && (|p| > 1 ==> !preds[name].Elapsed?) ==> |p| <= k + 1
  }

  lemma InFront(preds: Map, name: Name, e: Name, p: seq<Name>)
    requires Edge(preds, name, e) && Stretch(preds, p) && p[0] == e && (|p| > 1 ==> !preds[e].Elapsed?)
    ensures Stretch(preds, [name] + p)
  {
    var q := [name] + p;
    forall i: nat ensures Link(preds, q, i) {
      if 0 < i { assert Link(preds, p, i - 1); }
    }
    assert IsPath(preds, q);
  }

  lemma WithinIsNatural(preds: Map, name: Name, k: int)
    requires name in preds && Within(preds, name, k)
    ensures k >= 0
  {
    assert IsPath(preds, [name]);
    assert Stretch(preds, [name]);
  }

  ghost predicate NoCycleError(r: Answer) {
    r.Err? ==> !r.error.CycleError?
  }

  /** `fits(n, k)`: `n` has room for `k` edges below it. Whatever fits has operands that do:
      with one edge less, or with full room below an elapsed predicate. */
  ghost predicate Closed(preds: Map, fits: (Name, int) -> bool) {
    forall n, k :: fits(n, k) ==> n in preds && k >= 0 && AllFit(fits, preds[n], if preds[n].Elapsed? then 31 else k - 1)
  }

  ghost predicate AllFit(fits: (Name, int) -> bool, k: Kind, room: int) {
    forall e :: e in Operands(k) ==> fits(e, room)
  }

  lemma WithinBelow(preds: Map, name: Name, e: Name, k: int)
    requires Edge(preds, name, e) && !preds[name].Elapsed? && Within(preds, name, k)
    ensures Within(preds, e, k - 1)
  {
    forall p | Stretch(preds, p) && p[0] == e && (|p| > 1 ==> !preds[e].Elapsed?) ensures |p| <= k {
      InFront(preds, name, e, p);
    }
  }

  lemma FitsBelow(preds: Map, root: Name, n: Name, e: Name)
    requires DepthFits(preds, root) && Edge(preds, n, e) && (n == root || (preds[n].Elapsed? && Reaches(preds, root, n)))
    ensures Within(preds, e, 31)
  {
    forall p | Stretch(preds, p) && p[0] == e && (|p| > 1 ==> !preds[e].Elapsed?) ensures |p| <= 32 {
      InFront(preds, n, e, p);
    }
  }

  lemma OperandBelow(preds: Map, root: Name, n: Name, e: Name)
    requires WellShaped(preds) && DepthFits(preds, root) && n in preds && Reaches(preds, root, n) && e in Operands(preds[n])
    ensures e in preds && Reaches(preds, root, e) && (n == root || preds[n].Elapsed? ==> Within(preds, e, 31))
  {
    assert ShapeOk(preds[n], preds);
    OperandsAreEdges(preds[n]);
    ReachesOn(preds, root, n, e);
    if n == root || preds[n].Elapsed? { FitsBelow(preds, root, n, e); }
  }

  ghost predicate Fits(preds: Map, root: Name, name: Name, k: int) {
    name in preds && Reaches(preds, root, name) && Within(preds, name, k)
  }

  lemma OperandFits(preds: Map, root: Name, n: Name, k: int, e: Name)
    requires WellShaped(preds) && DepthFits(preds, root) && Fits(preds, root, n, k) && e in Operands(preds[n])
    ensures Fits(preds, root, e, if preds[n].Elapsed? then 31 else k - 1)
  {
    OperandBelow(preds, root, n, e);
    OperandsAreEdges(preds[n]);
    if !preds[n].Elapsed? { WithinBelow(preds, n, e, k); }
  }

  /** The guard has full room below the root. */
  lemma RoomOf(preds: Map, root: Name) returns (fits: (Name, int) -> bool)
    requires WellShaped(preds) && root in preds && DepthFits(preds, root)
    ensures Closed(preds, fits) && AllFit(fits, preds[root], 31)
  {
    fits := (n, k) => Fits(preds, root, n, k);
    forall n, k | fits(n, k)
      ensures n in preds && k >= 0 && AllFit(fits, preds[n], if preds[n].Elapsed? then 31 else k - 1)
    {
      WithinIsNatural(preds, n, k);
      forall e | e in Operands(preds[n]) ensures fits(e, if preds[n].Elapsed? then 31 else k - 1) {
        OperandFits(preds, root, n, k, e);
      }
    }
    ReachesItself(preds, root);
    forall e | e in Operands(preds[root]) ensures fits(e, 31) { OperandBelow(preds, root, root, e); }
  }

  /** Above the guard, a cycle error comes out of the dispatch. */
  lemma EvalAtPasses(ctx: Ctx, level: map<Name, nat>, st: State, name: Name, depth: nat)
    requires IsLevel(ctx.preds, level) && name in ctx.preds && depth < MAX_DEPTH
    ensures LevelOk(ctx.preds, level, level[name], ctx.preds[name])
    ensures NoCycleError(EvalAt(ctx, level, st, name, depth).0)
         || (ctx.hash(ctx.preds[name]) !in st.cache
             && !NoCycleError(Dispatch(ctx, level, level[name], st, ctx.preds[name], depth + 1).0))
  {
    assert LevelOk(ctx.preds, level, level[name], ctx.preds[name]);
  }

  lemma {:induction false} EvalAtInDepth(ctx: Ctx, level: map<Name, nat>, st: State, fits: (Name, int) -> bool, name: Name,
                                         depth: nat, k: int)
    requires IsLevel(ctx.preds, level) && Closed(ctx.preds, fits) && fits(name, k) && depth + k < MAX_DEPTH
    ensures NoCycleError(EvalAt(ctx, level, st, name, depth).0)
    decreases LevelOf(level, name), if depth < MAX_DEPTH then MAX_DEPTH - depth else 0, 2, 0
  {
    EvalAtPasses(ctx, level, st, name, depth);
    var kind := ctx.preds[name];
    if ctx.hash(kind) !in st.cache {
      DispatchInDepth(ctx, level, level[name], st, fits, kind, depth + 1, if kind.Elapsed? then 31 else k - 1);
    }
  }

  lemma {:induction false} DispatchInDepth(ctx: Ctx, level: map<Name, nat>, bound: nat, st: State,
                                           fits: (Name, int) -> bool, kind: Kind, depth: nat, room: int)
    requires IsLevel(ctx.preds, level) && LevelOk(ctx.preds, level, bound, kind) && depth <= MAX_DEPTH
    requires Closed(ctx.preds, fits) && AllFit(fits, kind, room)
    requires (if kind.Elapsed? then 0 else depth) + room < MAX_DEPTH
    ensures NoCycleError(Dispatch(ctx, level, bound, st, kind, depth).0)
    decreases bound, MAX_DEPTH + 1 - depth, 1, 0
  {
    forall n | n in Operands(kind) ensures fits(n, room) && n in ctx.preds && level[n] <= bound {
      assert fits(n, room);
    }
    match kind
    case AllOf(names) =>
      assert Operands(kind) == names;
      SeqInDepth(ctx, level, bound, st, fits, names, depth, room);
    case AnyOf(names) =>
      assert Operands(kind) == names;
      SeqInDepth(ctx, level, bound, st, fits, names, depth, room);
    case Not(name) =>
      assert name in Operands(kind);
      EvalAtInDepth(ctx, level, st, fits, name, depth, room);
    case Elapsed(name, _) =>
      assert name in Operands(kind);
      EvalAtInDepth(ctx, level, st, fits, name, 0, room);
    case _ =>
  }

  lemma {:induction false} SeqInDepth(ctx: Ctx, level: map<Name, nat>, bound: nat, st: State,
                                      fits: (Name, int) -> bool, names: seq<Name>, depth: nat, room: int)
    requires IsLevel(ctx.preds, level) && depth <= MAX_DEPTH && Closed(ctx.preds, fits)
    requires forall n :: n in names ==> fits(n, room) && n in ctx.preds && level[n] <= bound
    requires depth + room < MAX_DEPTH
    ensures NoCycleError(EvalAll(ctx, level, bound, st, names, depth).0)
    ensures NoCycleError(EvalAny(ctx, level, bound, st, names, depth).0)
    decreases bound, MAX_DEPTH + 1 - depth, 0, |names|
  {
    if names != [] {
      assert names[0] in names;
      EvalAtInDepth(ctx, level, st, fits, names[0], depth, room);
      var st' := EvalAt(ctx, level, st, names[0], depth).1;
      SeqInDepth(ctx, level, bound, st', fits, names[1..], depth, room);
    }
  }

  /** On a map the validator accepts, evaluation never reports an unknown predicate, and
      never a cycle when every stretch of dependencies fits the depth guard: it answers
      exactly what the name means. */
  lemma ValidatedEvaluationIsSafe(ctx: Ctx, start: Timers, rank: map<Name, nat>, st: State, name: Name)
    requires WellShaped(ctx.preds) && IsRank(ctx.preds, rank) && NoCollisions(ctx) && name in ctx.preds
    requires EvalRank(ctx.preds, rank) ==> Coherent(ctx, start, rank, st)
    ensures EvalRank(ctx.preds, rank) && IsLevel(ctx.preds, rank)
    ensures NotUnknown(EvalNamed(ctx, rank, st, name).0)
    ensures DepthFits(ctx.preds, name) ==> EvalNamed(ctx, rank, st, name).0 == Meaning(ctx, start, rank, name)
  {
    ValidatedRank(ctx.preds, rank);
    RankIsLevel(ctx.preds, rank);
    EvalNamedMeans(ctx, rank, start, rank, st, name);
    MeaningIsKnown(ctx, start, rank, name);
    if DepthFits(ctx.preds, name) && ctx.hash(ctx.preds[name]) !in st.cache {
      assert LevelOk(ctx.preds, rank, rank[name], ctx.preds[name]) && ShapeOk(ctx.preds[name], ctx.preds);
      var fits := RoomOf(ctx.preds, name);
      DispatchInDepth(ctx, rank, rank[name], st, fits, ctx.preds[name], 0, 31);
    }
  }

  /** A chain of negations, each of the next, the last name being defined too. */
  ghost predicate Chain(ctx: Ctx, names: seq<Name>) {
    && names != [] && (forall i :: 0 <= i < |names| ==> names[i] in ctx.preds)
    && forall i :: 0 <= i < |names| - 1 ==> ctx.preds[names[i]] == Not(names[i + 1])
  }

  ghost predicate Uncached(ctx: Ctx, st: State, names: seq<Name>) {
    forall i :: 0 <= i < |names| && names[i] in ctx.preds ==> ctx.hash(ctx.preds[names[i]]) !in st.cache
  }

  lemma {:induction false} ChainStops(ctx: Ctx, level: map<Name, nat>, st: State, names: seq<Name>, depth: nat)
    requires IsLevel(ctx.preds, level) && Chain(ctx, names) && Uncached(ctx, st, names) && |names| + depth == 33
    ensures EvalAt(ctx, level, st, names[0], depth) == (Err(CycleError(names[|names| - 1])), st)
    decreases |names|
  {
    if |names| > 1 {
      assert LevelOk(ctx.preds, level, level[names[0]], ctx.preds[names[0]]);
      assert forall i :: 0 <= i < |names| - 1 ==> names[1..][i] == names[i + 1];
      ChainStops(ctx, level, st, names[1..], depth + 1);
      assert names[1] in Operands(Not(names[1]));
    }
  }

  /** The bound is sharp: a chain of 33 edges that is not cached is reported as a cycle at
      its last name, although there is none. */
  lemma DepthGuardStrikes(ctx: Ctx, level: map<Name, nat>, st: State, names: seq<Name>)
    requires IsLevel(ctx.preds, level) && Chain(ctx, names) && Uncached(ctx, st, names) && |names| == 34
    ensures EvalNamed(ctx, level, st, names[0]).0 == Err(CycleError(names[33]))
  {
    assert LevelOk(ctx.preds, level, level[names[0]], ctx.preds[names[0]]);
    assert forall i :: 0 <= i < 33 ==> names[1..][i] == names[i + 1];
    ChainStops(ctx, level, st, names[1..], 0);
    assert names[1] in Operands(Not(names[1]));
  }

  /** Within a tick truth is a function: on a validated map without longer paths than the
      depth guard allows, every call for a name in one context gets the same answer. */
  lemma TruthIsAFunction(calls: seq<TickCall>, start: Timers, i: nat, j: nat)
    requires i < |calls| && j < |calls| && MayShare(calls, start)
    requires calls[i].ctx == calls[j].ctx && calls[i].name == calls[j].name && calls[i].name in calls[i].ctx.preds
    requires WellShaped(calls[i].ctx.preds) && IsRank(calls[i].ctx.preds, calls[i].rank)
    requires IsRank(calls[j].ctx.preds, calls[j].rank)
    requires DepthFits(calls[i].ctx.preds, calls[i].name)
    ensures AnswerOf(calls, start, i) == AnswerOf(calls, start, j)
  {
    CallAnswersMeaning(calls, start, i);
    CallAnswersMeaning(calls, start, j);
    assert Sharing(calls[i], calls[j], start);
  }

  lemma CallAnswersMeaning(calls: seq<TickCall>, start: Timers, n: nat)
    requires n < |calls| && MayShare(calls, start) && calls[n].name in calls[n].ctx.preds
    requires WellShaped(calls[n].ctx.preds) && IsRank(calls[n].ctx.preds, calls[n].rank)
    requires DepthFits(calls[n].ctx.preds, calls[n].name)
    ensures AnswerOf(calls, start, n) == Meaning(calls[n].ctx, start, calls[n].rank, calls[n].name)
  {
    var c := calls[n];
    TickStaysCoherent(calls, start, n, n);
    ValidatedEvaluationIsSafe(c.ctx, start, c.rank, After(calls, start, n), c.name);
  }

  // ----- The evaluator object -----

  /** The answer to a call is what its name meant when the tick began. */
  ghost predicate Truthful(c: TickCall, start: Timers, r: Answer) {
    Faithful(r, Meaning(c.ctx, start, c.rank, c.name))
  }

  ghost predicate AllTruthful(calls: seq<TickCall>, start: Timers, answers: seq<Answer>) {
    |answers| <= |calls| && forall k :: 0 <= k < |answers| ==> Truthful(calls[k], start, answers[k])
  }

  lemma TruthfulGrows(calls: seq<TickCall>, start: Timers, answers: seq<Answer>, r: Answer)
    requires AllTruthful(calls, start, answers) && |answers| < |calls| && Truthful(calls[|answers|], start, r)
    ensures AllTruthful(calls, start, answers + [r])
  {
    forall k | 0 <= k < |answers + [r]| ensures Truthful(calls[k], start, (answers + [r])[k]) {
      if k < |answers| { assert Truthful(calls[k], start, answers[k]); }
    }
  }

  class Perceiver {
    var cache: map<nat, Value>
    var timers: Timers

    constructor ()
      ensures cache == map[] && timers == map[]
    {
      cache, timers := map[], map[];
    }

    ghost function Now(): State
      reads this
    {
      State(cache, timers)
    }

    /** Tick start: results are dropped, timers live on. */
    method Clear()
      modifies `cache
      ensures cache == map[]
    {
      cache := map[];
    }

    method EvaluateNamed(ctx: Ctx, ghost level: map<Name, nat>, name: Name) returns (r: Answer)
      requires IsLevel(ctx.preds, level)
      modifies this
      ensures (r, Now()) == EvalNamed(ctx, level, old(Now()), name)
    {
      if name !in ctx.preds { return Err(UnknownPredicate(name)); }
      var kind := ctx.preds[name];
      var key := ctx.hash(kind);
      if key in cache { return Ok(cache[key]); }
      assert LevelOk(ctx.preds, level, level[name], kind);
      r := DispatchKind(ctx, level, level[name], kind, 0);
      if r.Ok? { cache := cache[key := r.value]; }
    }

    method EvaluateWithDepth(ctx: Ctx, ghost level: map<Name, nat>, name: Name, depth: nat) returns (r: Answer)
      requires IsLevel(ctx.preds, level)
      modifies this
      ensures (r, Now()) == EvalAt(ctx, level, old(Now()), name, depth)
      decreases LevelOf(level, name), if depth < MAX_DEPTH then MAX_DEPTH - depth else 0, 2, 0
    {
      if depth >= MAX_DEPTH { return Err(CycleError(name)); }
      if name !in ctx.preds { return Err(UnknownPredicate(name)); }
      var kind := ctx.preds[name];
      var key := ctx.hash(kind);
      if key in cache { return Ok(cache[key]); }
      assert LevelOk(ctx.preds, level, level[name], kind);
      r := DispatchKind(ctx, level, level[name], kind, depth + 1);
      if r.Ok? { cache := cache[key := r.value]; }
    }

    method DispatchKind(ctx: Ctx, ghost level: map<Name, nat>, ghost bound: nat, kind: Kind,
                        depth: nat) returns (r: Answer)
      requires IsLevel(ctx.preds, level) && LevelOk(ctx.preds, level, bound, kind) && depth <= MAX_DEPTH
      modifies this
      ensures (r, Now()) == Dispatch(ctx, level, bound, old(Now()), kind, depth)
      decreases bound, MAX_DEPTH + 1 - depth, 1, 0
    {
      match kind {
        case AllOf(names) =>
          r := EvaluateAllOf(ctx, level, bound, names, depth);
        case AnyOf(names) =>
          r := EvaluateAnyOf(ctx, level, bound, names, depth);
        case Not(name) =>
          assert name in Operands(kind);
          r := EvaluateWithDepth(ctx, level, name, depth);
          if r.Ok? { r := Ok(Value(!r.value.truthy, None)); }
        case Elapsed(name, ms) =>
          assert name in Operands(kind);
          r := EvaluateElapsed(ctx, level, bound, name, ms);
        case _ =>
          match ctx.leaf(kind) {
            case Ok(v) => r := Ok(v);
            case Err(code) => r := Err(LeafError(code));
          }
      }
    }

    method EvaluateElapsed(ctx: Ctx, ghost level: map<Name, nat>, ghost bound: nat, name: Name,
                           ms: nat) returns (r: Answer)
      requires IsLevel(ctx.preds, level) && (name in ctx.preds ==> level[name] < bound)
      requires LevelOk(ctx.preds, level, bound, Elapsed(name, ms))
      modifies this
      ensures forall depth: nat :: depth <= MAX_DEPTH ==>
        (r, Now()) == Dispatch(ctx, level, bound, old(Now()), Elapsed(name, ms), depth)
      decreases bound, 0, 0, 0
    {
      if ctx.program.None? { return Err(NoProgram); }
      if name !in ctx.preds { return Err(UnknownPredicate(name)); }
      var child := EvaluateWithDepth(ctx, level, name, 0);
      if child.Err? { return child; }
      var long := Observe((ctx.program.value, name), child.value.truthy, ctx.now, ms);
      return Ok(Value(long, None));
    }

    /** Start, keep or clear the child's timer, and compare it with the clock. */
    method Observe(key: (Pid, Name), truthy: bool, now: int, ms: nat) returns (long: bool)
      modifies `timers
      ensures var timer := TimerNext(TimerAt(old(timers), key), truthy, now);
              timers == PutTimer(old(timers), key, timer) && long == LongEnough(timer, now, ms)
    {
      if truthy {
        if key !in timers { timers := timers[key := now]; }
        long := SatSub(now, timers[key]) >= ms;
      } else {
        timers := timers - {key};
        long := false;
      }
    }

    method EvaluateAllOf(ctx: Ctx, ghost level: map<Name, nat>, ghost bound: nat, names: seq<Name>,
                         depth: nat) returns (r: Answer)
      requires IsLevel(ctx.preds, level) && depth <= MAX_DEPTH
      requires forall n :: n in names && n in ctx.preds ==> level[n] <= bound
      modifies this
      ensures (r, Now()) == EvalAll(ctx, level, bound, old(Now()), names, depth)
      decreases bound, MAX_DEPTH + 1 - depth, 0, |names|
    {
      for i := 0 to |names|
        invariant EvalAll(ctx, level, bound, Now(), names[i..], depth)
                  == EvalAll(ctx, level, bound, old(Now()), names, depth)
      {
        assert names[i] in names && names[i..][1..] == names[i + 1..];
        r := EvaluateWithDepth(ctx, level, names[i], depth);
        if r.Err? { return; }
        if !r.value.truthy { return Ok(Value(false, None)); }
      }
      return Ok(Value(true, None));
    }

    method EvaluateAnyOf(ctx: Ctx, ghost level: map<Name, nat>, ghost bound: nat, names: seq<Name>,
                         depth: nat) returns (r: Answer)
      requires IsLevel(ctx.preds, level) && depth <= MAX_DEPTH
      requires forall n :: n in names && n in ctx.preds ==> level[n] <= bound
      modifies this
      ensures (r, Now()) == EvalAny(ctx, level, bound, old(Now()), names, depth)
      decreases bound, MAX_DEPTH + 1 - depth, 0, |names|
    {
      for i := 0 to |names|
        invariant EvalAny(ctx, level, bound, Now(), names[i..], depth)
                  == EvalAny(ctx, level, bound, old(Now()), names, depth)
      {
        assert names[i] in names && names[i..][1..] == names[i + 1..];
        r := EvaluateWithDepth(ctx, level, names[i], depth);
        if r.Err? { return; }
        if r.value.truthy { return Ok(Value(true, None)); }
      }
      return Ok(Value(false, None));
    }

    /** A tick's worth of calls: each answer is what its name means at the tick's start. */
    method Tick(calls: seq<TickCall>) returns (answers: seq<Answer>)
      requires MayShare(calls, timers)
      modifies this
      ensures |answers| == |calls| && AllTruthful(calls, old(timers), answers)
      ensures Now() == After(calls, old(timers), |calls|)
    {
      Clear();
      answers := [];
      for n := 0 to |calls|
        invariant |answers| == n && Now() == After(calls, old(timers), n)
        invariant AllTruthful(calls, old(timers), answers)
      {
        var r := TickStep(calls, old(timers), n);
        TruthfulGrows(calls, old(timers), answers, r);
        answers := answers + [r];
      }
    }

    method TickStep(calls: seq<TickCall>, ghost start: Timers, n: nat) returns (r: Answer)
      requires n < |calls| && MayShare(calls, start) && Now() == After(calls, start, n)
      modifies this
      ensures Now() == After(calls, start, n + 1)
      ensures Truthful(calls[n], start, r)
    {
      var c := calls[n];
      RankIsLevel(c.ctx.preds, c.rank);
      CacheIsTransparent(calls, start, n);
      AfterStep(calls, start, n + 1);
      r := EvaluateNamed(c.ctx, c.rank, c.name);
    }
  }
}
