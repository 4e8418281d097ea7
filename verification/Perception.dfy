/** Predicate evaluation: a recursive evaluator that threads a per-tick result cache
    and cross-tick timers, and the plain meaning it has to agree with. */
module Perception {
  import opened Common
  import opened Predicates
  import Program

  type Pid = Program.Pid

  const MAX_DEPTH: nat := 32

  /** A result: truth plus whatever location data a leaf produced. */
  datatype Value = Value(truthy: bool, located: Option<nat>)

  datatype EvalError = UnknownPredicate(name: Name) | CycleError(name: Name) | LeafError(code: string) | NoProgram

  type Answer = Result<Value, EvalError>

  /** One program's evaluation context in one tick. `leaf` stands for the frame and the
      program's assets; `hash` is the cache key, shared by every program. */
  datatype Ctx = Ctx(preds: Map, now: int, program: Option<Pid>, leaf: Kind -> Result<Value, string>, hash: Kind -> nat)

  type Timers = map<(Pid, Name), int>

  datatype State = State(cache: map<nat, Value>, timers: Timers)

  /** The names evaluation follows: not the region of an image predicate. */
  function Operands(k: Kind): seq<Name> {
    match k
    case AllOf(names) => names
    case AnyOf(names) => names
    case Not(name) => [name]
    case Elapsed(name, _) => [name]
    case _ => []
  }

  // ----- The elapsed timer -----

  function TimerAt(timers: Timers, key: (Pid, Name)): Option<int> {
    if key in timers then Some(timers[key]) else None
  }

  /** The timer after seeing its child: set on the first true, cleared on false. */
  function TimerNext(timer: Option<int>, truthy: bool, now: int): Option<int> {
    if truthy then Some(timer.GetOr(now)) else None
  }

  /** True for long enough, by the timer just updated. */
  predicate LongEnough(timer: Option<int>, now: int, ms: nat) {
    timer.Some? && SatSub(now, timer.value) >= ms
  }

  function PutTimer(timers: Timers, key: (Pid, Name), timer: Option<int>): (r: Timers)
    ensures TimerAt(r, key) == timer
    ensures forall k :: k != key ==> TimerAt(r, k) == TimerAt(timers, k)
  {
    match timer
    case Some(t) => timers[key := t]
    case None => timers - {key}
  }

  // ----- The evaluator -----

  /** What makes evaluation terminate: no cycle passes through an `elapsed` predicate,
      which restarts the depth count. Logical cycles are stopped by the depth guard. */
  ghost predicate IsLevel(preds: Map, level: map<Name, nat>) {
    level.Keys == preds.Keys && forall n :: n in preds ==> LevelOk(preds, level, level[n], preds[n])
  }

  ghost predicate LevelOk(preds: Map, level: map<Name, nat>, bound: nat, k: Kind) {
    && level.Keys == preds.Keys
    && forall e :: e in Operands(k) && e in preds ==> level[e] <= bound && (k.Elapsed? ==> level[e] < bound)
  }

  ghost function LevelOf(level: map<Name, nat>, name: Name): nat {
    if name in level then level[name] else 0
  }

  /** `evaluate_named_with_depth`. */
  function EvalAt(ctx: Ctx, ghost level: map<Name, nat>, st: State, name: Name, depth: nat): (Answer, State)
    requires IsLevel(ctx.preds, level)
    decreases LevelOf(level, name), if depth < MAX_DEPTH then MAX_DEPTH - depth else 0, 2, 0
  {
    if depth >= MAX_DEPTH then (Err(CycleError(name)), st)
    else if name !in ctx.preds then (Err(UnknownPredicate(name)), st)
    else
      var kind := ctx.preds[name];
      var key := ctx.hash(kind);
      if key in st.cache then (Ok(st.cache[key]), st)
      else
        assert LevelOk(ctx.preds, level, level[name], kind);
        var (r, st') := Dispatch(ctx, level, level[name], st, kind, depth + 1);
        if r.Ok? then (r, st'.(cache := st'.cache[key := r.value])) else (r, st')
  }

  /** Evaluate one definition; `depth` is the depth of its operands. */
  function Dispatch(ctx: Ctx, ghost level: map<Name, nat>, ghost bound: nat, st: State, kind: Kind,
                    depth: nat): (Answer, State)
    requires IsLevel(ctx.preds, level) && LevelOk(ctx.preds, level, bound, kind) && depth <= MAX_DEPTH
    decreases bound, MAX_DEPTH + 1 - depth, 1, 0
  {
    match kind
    case AllOf(names) => EvalAll(ctx, level, bound, st, names, depth)
    case AnyOf(names) => EvalAny(ctx, level, bound, st, names, depth)
    case Not(name) =>
      assert name in Operands(kind);
      var (r, st') := EvalAt(ctx, level, st, name, depth);
      (if r.Ok? then Ok(Value(!r.value.truthy, None)) else r, st')
    case Elapsed(name, ms) =>
      assert name in Operands(kind);
      if ctx.program.None? then (Err(NoProgram), st)
      else if name !in ctx.preds then (Err(UnknownPredicate(name)), st)
      else
        var (r, st') := EvalAt(ctx, level, st, name, 0);
        if r.Err? then (r, st')
        else
          var key := (ctx.program.value, name);
          var timer := TimerNext(TimerAt(st'.timers, key), r.value.truthy, ctx.now);
          (Ok(Value(LongEnough(timer, ctx.now, ms), None)), st'.(timers := PutTimer(st'.timers, key, timer)))
    case leaf => (match ctx.leaf(leaf) case Ok(v) => Ok(v) case Err(code) => Err(LeafError(code)), st)
  }

  /** `all_of`: stop at the first falsy operand or error. */
  function EvalAll(ctx: Ctx, ghost level: map<Name, nat>, ghost bound: nat, st: State, names: seq<Name>,
                   depth: nat): (Answer, State)
    requires IsLevel(ctx.preds, level) && depth <= MAX_DEPTH
    requires forall n :: n in names && n in ctx.preds ==> level[n] <= bound
    decreases bound, MAX_DEPTH + 1 - depth, 0, |names|
  {
    if names == [] then (Ok(Value(true, None)), st)
    else
      var (r, st') := EvalAt(ctx, level, st, names[0], depth);
      if r.Err? then (r, st')
      else if !r.value.truthy then (Ok(Value(false, None)), st')
      else EvalAll(ctx, level, bound, st', names[1..], depth)
  }

  /** `any_of`: stop at the first truthy operand or error. */
  function EvalAny(ctx: Ctx, ghost level: map<Name, nat>, ghost bound: nat, st: State, names: seq<Name>,
                   depth: nat): (Answer, State)
    requires IsLevel(ctx.preds, level) && depth <= MAX_DEPTH
    requires forall n :: n in names && n in ctx.preds ==> level[n] <= bound
    decreases bound, MAX_DEPTH + 1 - depth, 0, |names|
  {
    if names == [] then (Ok(Value(false, None)), st)
    else
      var (r, st') := EvalAt(ctx, level, st, names[0], depth);
      if r.Err? then (r, st')
      else if r.value.truthy then (Ok(Value(true, None)), st')
      else EvalAny(ctx, level, bound, st', names[1..], depth)
  }

  /** `Perception::evaluate_named`. */
  function EvalNamed(ctx: Ctx, ghost level: map<Name, nat>, st: State, name: Name): (Answer, State)
    requires IsLevel(ctx.preds, level)
  {
    if name !in ctx.preds then (Err(UnknownPredicate(name)), st)
    else
      var kind := ctx.preds[name];
      var key := ctx.hash(kind);
      if key in st.cache then (Ok(st.cache[key]), st)
      else
        assert LevelOk(ctx.preds, level, level[name], kind);
        var (r, st') := Dispatch(ctx, level, level[name], st, kind, 0);
        if r.Ok? then (r, st'.(cache := st'.cache[key := r.value])) else (r, st')
  }

  // ----- The meaning -----

  /** Operands rank below what uses them. Any topological rank of the validator will do. */
  ghost predicate EvalRank(preds: Map, rank: map<Name, nat>) {
    rank.Keys == preds.Keys && forall n :: n in preds ==> RankOk(preds, rank, rank[n], preds[n])
  }

  ghost predicate RankOk(preds: Map, rank: map<Name, nat>, bound: nat, k: Kind) {
    rank.Keys == preds.Keys && forall e :: e in Operands(k) && e in preds ==> rank[e] < bound
  }

  /** What a name means in this tick: no cache, no depth limit, the timers as they
      stood when the tick began. */
  ghost function Meaning(ctx: Ctx, start: Timers, rank: map<Name, nat>, name: Name): Answer
    requires EvalRank(ctx.preds, rank)
    decreases LevelOf(rank, name), 2, 0
  {
    if name !in ctx.preds then Err(UnknownPredicate(name))
    else
      assert RankOk(ctx.preds, rank, rank[name], ctx.preds[name]);
      KindMeaning(ctx, start, rank, rank[name], ctx.preds[name])
  }

  ghost function KindMeaning(ctx: Ctx, start: Timers, rank: map<Name, nat>, bound: nat, kind: Kind): Answer
    requires EvalRank(ctx.preds, rank) && RankOk(ctx.preds, rank, bound, kind)
    decreases bound, 1, 0
  {
    match kind
    case AllOf(names) => AllMeaning(ctx, start, rank, bound, names)
    case AnyOf(names) => AnyMeaning(ctx, start, rank, bound, names)
    case Not(name) =>
      assert name in Operands(kind);
      var r := OperandMeaning(ctx, start, rank, bound, name);
      if r.Ok? then Ok(Value(!r.value.truthy, None)) else r
    case Elapsed(name, ms) =>
      assert name in Operands(kind);
      if ctx.program.None? then Err(NoProgram)
      else
        var r := OperandMeaning(ctx, start, rank, bound, name);
        if r.Err? then r
        else
          var timer := TimerNext(TimerAt(start, (ctx.program.value, name)), r.value.truthy, ctx.now);
          Ok(Value(LongEnough(timer, ctx.now, ms), None))
    case leaf => match ctx.leaf(leaf) case Ok(v) => Ok(v) case Err(code) => Err(LeafError(code))
  }

  ghost function OperandMeaning(ctx: Ctx, start: Timers, rank: map<Name, nat>, bound: nat, name: Name): Answer
    requires EvalRank(ctx.preds, rank) && (name in ctx.preds ==> rank[name] < bound)
    decreases bound, 0, 0
  {
    if name !in ctx.preds then Err(UnknownPredicate(name)) else Meaning(ctx, start, rank, name)
  }

  ghost function AllMeaning(ctx: Ctx, start: Timers, rank: map<Name, nat>, bound: nat, names: seq<Name>): Answer
    requires EvalRank(ctx.preds, rank) && forall n :: n in names && n in ctx.preds ==> rank[n] < bound
    decreases bound, 0, |names| + 1
  {
    if names == [] then Ok(Value(true, None))
    else
      var r := OperandMeaning(ctx, start, rank, bound, names[0]);
      if r.Err? then r else if !r.value.truthy then Ok(Value(false, None)) else AllMeaning(ctx, start, rank, bound, names[1..])
  }

  ghost function AnyMeaning(ctx: Ctx, start: Timers, rank: map<Name, nat>, bound: nat, names: seq<Name>): Answer
    requires EvalRank(ctx.preds, rank) && forall n :: n in names && n in ctx.preds ==> rank[n] < bound
    decreases bound, 0, |names| + 1
  {
    if names == [] then Ok(Value(false, None))
    else
      var r := OperandMeaning(ctx, start, rank, bound, names[0]);
      if r.Err? then r else if r.value.truthy then Ok(Value(true, None)) else AnyMeaning(ctx, start, rank, bound, names[1..])
  }

  lemma OperandIsName(ctx: Ctx, start: Timers, rank: map<Name, nat>, bound: nat, name: Name)
    requires EvalRank(ctx.preds, rank) && (name in ctx.preds ==> rank[name] < bound)
    ensures OperandMeaning(ctx, start, rank, bound, name) == Meaning(ctx, start, rank, name)
  {
  }

  // ----- The laws of the meaning -----

  ghost predicate MeansTrue(ctx: Ctx, start: Timers, rank: map<Name, nat>, n: Name)
    requires EvalRank(ctx.preds, rank)
  {
    Meaning(ctx, start, rank, n).Ok? && Meaning(ctx, start, rank, n).value.truthy
  }

  ghost predicate MeansFalse(ctx: Ctx, start: Timers, rank: map<Name, nat>, n: Name)
    requires EvalRank(ctx.preds, rank)
  {
    Meaning(ctx, start, rank, n).Ok? && !Meaning(ctx, start, rank, n).value.truthy
  }

  /** The first operand that is not true (`go`), or not false (otherwise). */
  ghost predicate Decides(ctx: Ctx, start: Timers, rank: map<Name, nat>, names: seq<Name>, i: nat, go: bool)
    requires EvalRank(ctx.preds, rank)
  {
    && i < |names| && !Goes(ctx, start, rank, names[i], go)
    && forall j :: 0 <= j < i ==> Goes(ctx, start, rank, names[j], go)
  }

  ghost predicate Goes(ctx: Ctx, start: Timers, rank: map<Name, nat>, n: Name, go: bool)
    requires EvalRank(ctx.preds, rank)
  {
    if go then MeansTrue(ctx, start, rank, n) else MeansFalse(ctx, start, rank, n)
  }

  lemma DecidesLater(ctx: Ctx, start: Timers, rank: map<Name, nat>, names: seq<Name>, i: nat, go: bool)
    requires EvalRank(ctx.preds, rank) && names != [] && Goes(ctx, start, rank, names[0], go)
    ensures Decides(ctx, start, rank, names[1..], i, go) <==> Decides(ctx, start, rank, names, i + 1, go)
  {
    if Decides(ctx, start, rank, names, i + 1, go) {
      forall j | 0 <= j < i ensures Goes(ctx, start, rank, names[1..][j], go) { assert names[1..][j] == names[j + 1]; }
    }
  }

  lemma {:induction false} AllMeaningIs(ctx: Ctx, start: Timers, rank: map<Name, nat>, bound: nat, names: seq<Name>)
    requires EvalRank(ctx.preds, rank) && forall n :: n in names && n in ctx.preds ==> rank[n] < bound
    ensures var r := AllMeaning(ctx, start, rank, bound, names);
            && (r.Ok? ==> r.value.located.None?)
            && (r == Ok(Value(true, None)) <==> forall i :: 0 <= i < |names| ==> MeansTrue(ctx, start, rank, names[i]))
            && (forall i: nat :: Decides(ctx, start, rank, names, i, true) ==>
                  r == if Meaning(ctx, start, rank, names[i]).Err? then Meaning(ctx, start, rank, names[i]) else Ok(Value(false, None)))
    decreases |names|
  {
    if names != [] {
      OperandIsName(ctx, start, rank, bound, names[0]);
      if MeansTrue(ctx, start, rank, names[0]) {
        AllMeaningIs(ctx, start, rank, bound, names[1..]);
        forall i: nat | Decides(ctx, start, rank, names, i, true) ensures i > 0 && Decides(ctx, start, rank, names[1..], i - 1, true) {
          DecidesLater(ctx, start, rank, names, i - 1, true);
        }
        assert forall i :: 0 < i < |names| ==> names[i] == names[1..][i - 1];
      }
    }
  }

  lemma {:induction false} AnyMeaningIs(ctx: Ctx, start: Timers, rank: map<Name, nat>, bound: nat, names: seq<Name>)
    requires EvalRank(ctx.preds, rank) && forall n :: n in names && n in ctx.preds ==> rank[n] < bound
    ensures var r := AnyMeaning(ctx, start, rank, bound, names);
            && (r.Ok? ==> r.value.located.None?)
            && (r == Ok(Value(false, None)) <==> forall i :: 0 <= i < |names| ==> MeansFalse(ctx, start, rank, names[i]))
            && (forall i: nat :: Decides(ctx, start, rank, names, i, false) ==>
                  r == if Meaning(ctx, start, rank, names[i]).Err? then Meaning(ctx, start, rank, names[i]) else Ok(Value(true, None)))
    decreases |names|
  {
    if names != [] {
      OperandIsName(ctx, start, rank, bound, names[0]);
      if MeansFalse(ctx, start, rank, names[0]) {
        AnyMeaningIs(ctx, start, rank, bound, names[1..]);
        forall i: nat | Decides(ctx, start, rank, names, i, false) ensures i > 0 && Decides(ctx, start, rank, names[1..], i - 1, false) {
          DecidesLater(ctx, start, rank, names, i - 1, false);
        }
        assert forall i :: 0 < i < |names| ==> names[i] == names[1..][i - 1];
      }
    }
  }

  lemma MeaningOfKind(ctx: Ctx, start: Timers, rank: map<Name, nat>, n: Name)
    requires EvalRank(ctx.preds, rank) && n in ctx.preds
    ensures RankOk(ctx.preds, rank, rank[n], ctx.preds[n])
    ensures Meaning(ctx, start, rank, n) == KindMeaning(ctx, start, rank, rank[n], ctx.preds[n])
  {
    assert RankOk(ctx.preds, rank, rank[n], ctx.preds[n]);
  }

  /** What an operand that decides makes of the whole: its error, or the truth of it. */
  ghost function Decided(m: Answer, truthy: bool): Answer {
    if m.Err? then m else Ok(Value(truthy, None))
  }

  /** `all_of` is true exactly when every operand is; otherwise the first operand that is not
      decides, by its error or with false. */
  lemma AllOfLaw(ctx: Ctx, start: Timers, rank: map<Name, nat>, n: Name)
    requires EvalRank(ctx.preds, rank) && n in ctx.preds && ctx.preds[n].AllOf?
    ensures var names := ctx.preds[n].names;
            && (MeansTrue(ctx, start, rank, n) <==> forall i :: 0 <= i < |names| ==> MeansTrue(ctx, start, rank, names[i]))
            && (forall i: nat :: Decides(ctx, start, rank, names, i, true) ==>
                  Meaning(ctx, start, rank, n) == Decided(Meaning(ctx, start, rank, names[i]), false))
  {
    MeaningOfKind(ctx, start, rank, n);
    AllMeaningIs(ctx, start, rank, rank[n], ctx.preds[n].names);
  }

  /** `any_of` is false exactly when every operand is; otherwise the first operand that is
      not decides, by its error or with true. */
  lemma AnyOfLaw(ctx: Ctx, start: Timers, rank: map<Name, nat>, n: Name)
    requires EvalRank(ctx.preds, rank) && n in ctx.preds && ctx.preds[n].AnyOf?
    ensures var names := ctx.preds[n].names;
            && (MeansFalse(ctx, start, rank, n) <==> forall i :: 0 <= i < |names| ==> MeansFalse(ctx, start, rank, names[i]))
            && (forall i: nat :: Decides(ctx, start, rank, names, i, false) ==>
                  Meaning(ctx, start, rank, n) == Decided(Meaning(ctx, start, rank, names[i]), true))
  {
    MeaningOfKind(ctx, start, rank, n);
    AnyMeaningIs(ctx, start, rank, rank[n], ctx.preds[n].names);
  }

  /** `not` is the negation, errors apart. */
  lemma NotLaw(ctx: Ctx, start: Timers, rank: map<Name, nat>, n: Name)
    requires EvalRank(ctx.preds, rank) && n in ctx.preds && ctx.preds[n].Not?
    ensures MeansTrue(ctx, start, rank, n) <==> MeansFalse(ctx, start, rank, ctx.preds[n].name)
    ensures MeansFalse(ctx, start, rank, n) <==> MeansTrue(ctx, start, rank, ctx.preds[n].name)
  {
    MeaningOfKind(ctx, start, rank, n);
    assert ctx.preds[n].name in Operands(ctx.preds[n]);
    OperandIsName(ctx, start, rank, rank[n], ctx.preds[n].name);
  }

  /** Either all operands go, or one decides. */
  lemma {:induction false} AllDecides(ctx: Ctx, start: Timers, rank: map<Name, nat>, names: seq<Name>, go: bool)
    requires EvalRank(ctx.preds, rank)
    ensures (forall i :: 0 <= i < |names| ==> Goes(ctx, start, rank, names[i], go))
         || exists i: nat :: Decides(ctx, start, rank, names, i, go)
    decreases |names|
  {
    if names != [] {
      if Goes(ctx, start, rank, names[0], go) {
        AllDecides(ctx, start, rank, names[1..], go);
        if i: nat :| Decides(ctx, start, rank, names[1..], i, go) { DecidesLater(ctx, start, rank, names, i, go); }
        assert forall i :: 0 < i < |names| ==> names[i] == names[1..][i - 1];
      } else {
        assert Decides(ctx, start, rank, names, 0, go);
      }
    }
  }

  /** An elapsed predicate is true exactly when its child is and has been since a reading at
      least its bound ago. */
  lemma ElapsedLaw(ctx: Ctx, start: Timers, rank: map<Name, nat>, n: Name)
    requires EvalRank(ctx.preds, rank) && n in ctx.preds && ctx.preds[n].Elapsed? && ctx.preds[n].ms <= 0xffff_ffff
    ensures var k := ctx.preds[n];
            MeansTrue(ctx, start, rank, n) <==>
              && ctx.program.Some? && MeansTrue(ctx, start, rank, k.name)
              && ctx.now - (if (ctx.program.value, k.name) in start then start[(ctx.program.value, k.name)] else ctx.now) >= k.ms
  {
    var k := ctx.preds[n];
    MeaningOfKind(ctx, start, rank, n);
    assert k.name in Operands(k);
    OperandIsName(ctx, start, rank, rank[n], k.name);
  }

  // ----- What evaluation does to the shared state -----

  /** The timer of `name` once its meaning has been taken into account. */
  ghost predicate TimerSettled(ctx: Ctx, start: Timers, rank: map<Name, nat>, timers: Timers, name: Name)
    requires EvalRank(ctx.preds, rank) && ctx.program.Some?
  {
    var key, m := (ctx.program.value, name), Meaning(ctx, start, rank, name);
    m.Ok? && TimerAt(timers, key) == TimerNext(TimerAt(start, key), m.value.truthy, ctx.now)
  }

  /** The state agrees with what `ctx` means in this tick. */
  ghost predicate Coherent(ctx: Ctx, start: Timers, rank: map<Name, nat>, st: State)
    requires EvalRank(ctx.preds, rank)
  {
    && (forall n :: n in ctx.preds ==> CacheFine(ctx, start, rank, st.cache, n))
    && (ctx.program.Some? ==> forall n :: n in ctx.preds ==> TimerFine(ctx, start, rank, st.timers, n))
  }

  ghost predicate CacheFine(ctx: Ctx, start: Timers, rank: map<Name, nat>, cache: map<nat, Value>, n: Name)
    requires EvalRank(ctx.preds, rank) && n in ctx.preds
  {
    var key := ctx.hash(ctx.preds[n]);
    key in cache ==> Meaning(ctx, start, rank, n) == Ok(cache[key])
  }

  ghost predicate TimerFine(ctx: Ctx, start: Timers, rank: map<Name, nat>, timers: Timers, n: Name)
    requires EvalRank(ctx.preds, rank) && ctx.program.Some?
  {
    TimerAt(timers, (ctx.program.value, n)) == TimerAt(start, (ctx.program.value, n))
      || TimerSettled(ctx, start, rank, timers, n)
  }

  /** Evaluation in `ctx` only adds cache entries that `ctx` gives a meaning to, and only
      settles timers of its own program. */
  ghost predicate Grows(ctx: Ctx, start: Timers, rank: map<Name, nat>, st: State, st': State)
    requires EvalRank(ctx.preds, rank)
  {
    && (forall k :: k in st.cache ==> k in st'.cache && st'.cache[k] == st.cache[k])
    && (forall k :: k in st'.cache && k !in st.cache ==> KeyMeans(ctx, start, rank, k, st'.cache[k]))
    && (forall key :: TimerAt(st'.timers, key) != TimerAt(st.timers, key) ==>
          ctx.program == Some(key.0) && key.1 in ctx.preds && TimerSettled(ctx, start, rank, st'.timers, key.1))
  }

  ghost predicate KeyMeans(ctx: Ctx, start: Timers, rank: map<Name, nat>, key: nat, v: Value)
    requires EvalRank(ctx.preds, rank)
  {
    exists n :: n in ctx.preds && ctx.hash(ctx.preds[n]) == key && Meaning(ctx, start, rank, n) == Ok(v)
  }

  lemma GrowsTransitive(ctx: Ctx, start: Timers, rank: map<Name, nat>, a: State, b: State, c: State)
    requires EvalRank(ctx.preds, rank) && Grows(ctx, start, rank, a, b) && Grows(ctx, start, rank, b, c)
    ensures Grows(ctx, start, rank, a, c)
  {
    forall key | TimerAt(c.timers, key) != TimerAt(a.timers, key)
      ensures ctx.program == Some(key.0) && key.1 in ctx.preds && TimerSettled(ctx, start, rank, c.timers, key.1)
    {
      assert TimerAt(c.timers, key) != TimerAt(b.timers, key) || TimerAt(b.timers, key) != TimerAt(a.timers, key);
    }
  }

  /** Two contexts may share the state: equal keys mean the same, and so do the names
      whose timers they share. */
  ghost predicate Compatible(c: Ctx, rc: map<Name, nat>, d: Ctx, rd: map<Name, nat>, start: Timers)
    requires EvalRank(c.preds, rc) && EvalRank(d.preds, rd)
  {
    && (forall n, m :: n in c.preds && m in d.preds && c.hash(c.preds[n]) == d.hash(d.preds[m]) ==>
          Meaning(c, start, rc, n) == Meaning(d, start, rd, m))
    && (c.program == d.program && c.program.Some? ==>
          && c.now == d.now
          && forall n :: n in c.preds && n in d.preds ==> Meaning(c, start, rc, n) == Meaning(d, start, rd, n))
  }

  lemma GrowsKeepsCoherent(c: Ctx, rc: map<Name, nat>, d: Ctx, rd: map<Name, nat>, start: Timers, st: State, st': State)
    requires EvalRank(c.preds, rc) && EvalRank(d.preds, rd) && Compatible(c, rc, d, rd, start)
    requires Grows(c, start, rc, st, st') && Coherent(d, start, rd, st)
    ensures Coherent(d, start, rd, st')
  {
    forall m | m in d.preds ensures CacheFine(d, start, rd, st'.cache, m) {
      var key := d.hash(d.preds[m]);
      assert CacheFine(d, start, rd, st.cache, m);
      if key in st'.cache && key !in st.cache {
        var n :| n in c.preds && c.hash(c.preds[n]) == key && Meaning(c, start, rc, n) == Ok(st'.cache[key]);
      }
    }
    if d.program.Some? {
      forall m | m in d.preds ensures TimerFine(d, start, rd, st'.timers, m) {
        assert TimerFine(d, start, rd, st.timers, m);
        var key := (d.program.value, m);
        if TimerAt(st'.timers, key) != TimerAt(st.timers, key) {
          assert TimerSettled(c, start, rc, st'.timers, key.1);
        }
      }
    }
  }

  // ----- One context: the cache is transparent -----

  /** Equal keys are equal definitions: no hash collision inside the map. */
  ghost predicate NoCollisions(ctx: Ctx) {
    forall n, m :: n in ctx.preds && m in ctx.preds && ctx.hash(ctx.preds[n]) == ctx.hash(ctx.preds[m]) ==>
      ctx.preds[n] == ctx.preds[m]
  }

  lemma {:induction false} AllBoundFree(ctx: Ctx, start: Timers, rank: map<Name, nat>, a: nat, b: nat, names: seq<Name>)
    requires EvalRank(ctx.preds, rank) && forall n :: n in names && n in ctx.preds ==> rank[n] < a && rank[n] < b
    ensures AllMeaning(ctx, start, rank, a, names) == AllMeaning(ctx, start, rank, b, names)
    ensures AnyMeaning(ctx, start, rank, a, names) == AnyMeaning(ctx, start, rank, b, names)
  {
    if names != [] { AllBoundFree(ctx, start, rank, a, b, names[1..]); }
  }

  lemma KindBoundFree(ctx: Ctx, start: Timers, rank: map<Name, nat>, a: nat, b: nat, k: Kind)
    requires EvalRank(ctx.preds, rank) && RankOk(ctx.preds, rank, a, k) && RankOk(ctx.preds, rank, b, k)
    ensures KindMeaning(ctx, start, rank, a, k) == KindMeaning(ctx, start, rank, b, k)
  {
    match k
    case AllOf(names) => AllBoundFree(ctx, start, rank, a, b, names);
    case AnyOf(names) => AllBoundFree(ctx, start, rank, a, b, names);
    case Not(name) => assert name in Operands(k);
    case Elapsed(name, _) => assert name in Operands(k);
    case _ =>
  }

  lemma SelfCompatible(ctx: Ctx, start: Timers, rank: map<Name, nat>)
    requires EvalRank(ctx.preds, rank) && NoCollisions(ctx)
    ensures Compatible(ctx, rank, ctx, rank, start)
  {
    forall n, m | n in ctx.preds && m in ctx.preds && ctx.hash(ctx.preds[n]) == ctx.hash(ctx.preds[m])
      ensures Meaning(ctx, start, rank, n) == Meaning(ctx, start, rank, m)
    {
      var k := ctx.preds[n];
      assert RankOk(ctx.preds, rank, rank[n], k) && RankOk(ctx.preds, rank, rank[m], k);
      KindBoundFree(ctx, start, rank, rank[n], rank[m], k);
    }
  }

  /** The answer is the meaning, unless the depth guard struck. */
  ghost predicate Faithful(r: Answer, m: Answer) {
    r == m || (r.Err? && r.error.CycleError?)
  }

  lemma {:induction false} EvalAtMeans(ctx: Ctx, level: map<Name, nat>, start: Timers, rank: map<Name, nat>,
                                       st: State, name: Name, depth: nat)
    requires IsLevel(ctx.preds, level) && EvalRank(ctx.preds, rank) && NoCollisions(ctx)
    requires Coherent(ctx, start, rank, st)
    ensures var (r, st') := EvalAt(ctx, level, st, name, depth);
            Grows(ctx, start, rank, st, st') && Coherent(ctx, start, rank, st')
            && Faithful(r, Meaning(ctx, start, rank, name))
    decreases LevelOf(level, name), if depth < MAX_DEPTH then MAX_DEPTH - depth else 0, 2, 0
  {
    if depth < MAX_DEPTH && name in ctx.preds {
      var kind := ctx.preds[name];
      assert LevelOk(ctx.preds, level, level[name], kind) && RankOk(ctx.preds, rank, rank[name], kind);
      assert CacheFine(ctx, start, rank, st.cache, name);
      if ctx.hash(kind) !in st.cache {
        DispatchMeans(ctx, level, level[name], start, rank, rank[name], st, kind, depth + 1);
        var (r, st') := Dispatch(ctx, level, level[name], st, kind, depth + 1);
        if r.Ok? { InsertMeans(ctx, start, rank, st, st', name, r.value); }
      }
    }
  }

  /** Caching a result that is its name's meaning. */
  lemma InsertMeans(ctx: Ctx, start: Timers, rank: map<Name, nat>, st: State, st': State, name: Name, v: Value)
    requires EvalRank(ctx.preds, rank) && NoCollisions(ctx) && name in ctx.preds
    requires Grows(ctx, start, rank, st, st') && Coherent(ctx, start, rank, st')
    requires Meaning(ctx, start, rank, name) == Ok(v) && ctx.hash(ctx.preds[name]) !in st.cache
    ensures var st'' := st'.(cache := st'.cache[ctx.hash(ctx.preds[name]) := v]);
            Grows(ctx, start, rank, st, st'') && Coherent(ctx, start, rank, st'')
  {
    var key := ctx.hash(ctx.preds[name]);
    var st'' := st'.(cache := st'.cache[key := v]);
    assert KeyMeans(ctx, start, rank, key, v);
    SelfCompatible(ctx, start, rank);
    forall n | n in ctx.preds ensures CacheFine(ctx, start, rank, st''.cache, n) {
      assert CacheFine(ctx, start, rank, st'.cache, n);
    }
    if ctx.program.Some? {
      forall n | n in ctx.preds ensures TimerFine(ctx, start, rank, st''.timers, n) {
        assert TimerFine(ctx, start, rank, st'.timers, n);
      }
    }
    forall key' | TimerAt(st''.timers, key') != TimerAt(st.timers, key')
      ensures ctx.program == Some(key'.0) && key'.1 in ctx.preds && TimerSettled(ctx, start, rank, st''.timers, key'.1)
    {
      assert TimerAt(st'.timers, key') != TimerAt(st.timers, key');
    }
  }

  lemma {:induction false} DispatchMeans(ctx: Ctx, level: map<Name, nat>, bound: nat, start: Timers,
                                         rank: map<Name, nat>, top: nat,
                                         st: State, kind: Kind, depth: nat)
    requires IsLevel(ctx.preds, level) && LevelOk(ctx.preds, level, bound, kind) && depth <= MAX_DEPTH
    requires EvalRank(ctx.preds, rank) && RankOk(ctx.preds, rank, top, kind) && NoCollisions(ctx)
    requires Coherent(ctx, start, rank, st)
    ensures var (r, st') := Dispatch(ctx, level, bound, st, kind, depth);
            Grows(ctx, start, rank, st, st') && Coherent(ctx, start, rank, st')
            && Faithful(r, KindMeaning(ctx, start, rank, top, kind))
    decreases bound, MAX_DEPTH + 1 - depth, 1, 0
  {
    match kind
    case AllOf(names) => EvalAllMeans(ctx, level, bound, start, rank, top, st, names, depth);
    case AnyOf(names) => EvalAnyMeans(ctx, level, bound, start, rank, top, st, names, depth);
    case Not(name) =>
      assert name in Operands(kind);
      EvalAtMeans(ctx, level, start, rank, st, name, depth);
    case Elapsed(name, ms) =>
      assert name in Operands(kind);
      if ctx.program.Some? && name in ctx.preds {
        EvalAtMeans(ctx, level, start, rank, st, name, 0);
        var (r, st') := EvalAt(ctx, level, st, name, 0);
        if r.Ok? { SettleMeans(ctx, start, rank, st, st', name, r.value); }
      }
    case _ =>
  }

  /** Settling a timer is idempotent, so evaluating `elapsed` again in a tick changes
      neither the timer nor the answer. */
  lemma SettleMeans(ctx: Ctx, start: Timers, rank: map<Name, nat>, st: State, st': State, name: Name, v: Value)
    requires EvalRank(ctx.preds, rank) && ctx.program.Some? && name in ctx.preds
    requires Grows(ctx, start, rank, st, st') && Coherent(ctx, start, rank, st')
    requires Meaning(ctx, start, rank, name) == Ok(v)
    ensures var key := (ctx.program.value, name);
            var timer := TimerNext(TimerAt(st'.timers, key), v.truthy, ctx.now);
            var st'' := st'.(timers := PutTimer(st'.timers, key, timer));
            && timer == TimerNext(TimerAt(start, key), v.truthy, ctx.now)
            && Grows(ctx, start, rank, st, st'') && Coherent(ctx, start, rank, st'')
  {
    var key := (ctx.program.value, name);
    var timer := TimerNext(TimerAt(st'.timers, key), v.truthy, ctx.now);
    var st'' := st'.(timers := PutTimer(st'.timers, key, timer));
    assert TimerFine(ctx, start, rank, st'.timers, name);
    assert TimerSettled(ctx, start, rank, st''.timers, name);
    forall n | n in ctx.preds ensures TimerFine(ctx, start, rank, st''.timers, n) {
      assert TimerFine(ctx, start, rank, st'.timers, n);
    }
    forall n | n in ctx.preds ensures CacheFine(ctx, start, rank, st''.cache, n) {
      assert CacheFine(ctx, start, rank, st'.cache, n);
    }
    forall k | TimerAt(st''.timers, k) != TimerAt(st.timers, k)
      ensures ctx.program == Some(k.0) && k.1 in ctx.preds && TimerSettled(ctx, start, rank, st''.timers, k.1)
    {
      if k != key { assert TimerAt(st'.timers, k) != TimerAt(st.timers, k); }
    }
  }

  lemma {:induction false} EvalAllMeans(ctx: Ctx, level: map<Name, nat>, bound: nat, start: Timers,
                                        rank: map<Name, nat>, top: nat,
                                        st: State, names: seq<Name>, depth: nat)
    requires IsLevel(ctx.preds, level) && depth <= MAX_DEPTH
    requires forall n :: n in names && n in ctx.preds ==> level[n] <= bound
    requires EvalRank(ctx.preds, rank) && NoCollisions(ctx) && Coherent(ctx, start, rank, st)
    requires forall n :: n in names && n in ctx.preds ==> rank[n] < top
    ensures var (r, st') := EvalAll(ctx, level, bound, st, names, depth);
            Grows(ctx, start, rank, st, st') && Coherent(ctx, start, rank, st')
            && Faithful(r, AllMeaning(ctx, start, rank, top, names))
    decreases bound, MAX_DEPTH + 1 - depth, 0, |names|
  {
    if names != [] {
      EvalAtMeans(ctx, level, start, rank, st, names[0], depth);
      var (r, st') := EvalAt(ctx, level, st, names[0], depth);
      if r.Ok? && r.value.truthy {
        EvalAllMeans(ctx, level, bound, start, rank, top, st', names[1..], depth);
        GrowsTransitive(ctx, start, rank, st, st', EvalAll(ctx, level, bound, st', names[1..], depth).1);
      }
    }
  }

  lemma {:induction false} EvalAnyMeans(ctx: Ctx, level: map<Name, nat>, bound: nat, start: Timers,
                                        rank: map<Name, nat>, top: nat,
                                        st: State, names: seq<Name>, depth: nat)
    requires IsLevel(ctx.preds, level) && depth <= MAX_DEPTH
    requires forall n :: n in names && n in ctx.preds ==> level[n] <= bound
    requires EvalRank(ctx.preds, rank) && NoCollisions(ctx) && Coherent(ctx, start, rank, st)
    requires forall n :: n in names && n in ctx.preds ==> rank[n] < top
    ensures var (r, st') := EvalAny(ctx, level, bound, st, names, depth);
            Grows(ctx, start, rank, st, st') && Coherent(ctx, start, rank, st')
            && Faithful(r, AnyMeaning(ctx, start, rank, top, names))
    decreases bound, MAX_DEPTH + 1 - depth, 0, |names|
  {
    if names != [] {
      EvalAtMeans(ctx, level, start, rank, st, names[0], depth);
      var (r, st') := EvalAt(ctx, level, st, names[0], depth);
      if r.Ok? && !r.value.truthy {
        EvalAnyMeans(ctx, level, bound, start, rank, top, st', names[1..], depth);
        GrowsTransitive(ctx, start, rank, st, st', EvalAny(ctx, level, bound, st', names[1..], depth).1);
      }
    }
  }

  lemma EvalNamedMeans(ctx: Ctx, level: map<Name, nat>, start: Timers, rank: map<Name, nat>, st: State, name: Name)
    requires IsLevel(ctx.preds, level) && EvalRank(ctx.preds, rank) && NoCollisions(ctx)
    requires Coherent(ctx, start, rank, st)
    ensures var (r, st') := EvalNamed(ctx, level, st, name);
            && Grows(ctx, start, rank, st, st') && Coherent(ctx, start, rank, st')
            && Faithful(r, Meaning(ctx, start, rank, name))
            && (r.Ok? ==>
                  && name in ctx.preds && ctx.hash(ctx.preds[name]) in st'.cache
                  && st'.cache[ctx.hash(ctx.preds[name])] == r.value)
  {
    if name in ctx.preds {
      var kind := ctx.preds[name];
      assert LevelOk(ctx.preds, level, level[name], kind) && RankOk(ctx.preds, rank, rank[name], kind);
      assert CacheFine(ctx, start, rank, st.cache, name);
      if ctx.hash(kind) !in st.cache {
        DispatchMeans(ctx, level, level[name], start, rank, rank[name], st, kind, 0);
        var (r, st') := Dispatch(ctx, level, level[name], st, kind, 0);
        if r.Ok? { InsertMeans(ctx, start, rank, st, st', name, r.value); }
      }
    }
  }

  // ----- A whole tick -----

  /** One call of the façade during a tick. */
  datatype Call = Call(ctx: Ctx, rank: map<Name, nat>, name: Name)

  ghost predicate Wellformed(c: Call) {
    EvalRank(c.ctx.preds, c.rank) && NoCollisions(c.ctx)
  }

  type TickCall = c: Call | Wellformed(c)
    ghost witness Call(Ctx(map[], 0, None, k => Err(""), k => 0), map[], Name(""))

  lemma RankIsLevel(preds: Map, rank: map<Name, nat>)
    requires EvalRank(preds, rank)
    ensures IsLevel(preds, rank)
  {
    forall n | n in preds ensures LevelOk(preds, rank, rank[n], preds[n]) { assert RankOk(preds, rank, rank[n], preds[n]); }
  }

  /** The state after the first `n` calls of a tick that began with `start`. */
  ghost function After(calls: seq<TickCall>, start: Timers, n: nat): State
    requires n <= |calls|
  {
    if n == 0 then State(map[], start)
    else
      var c := calls[n - 1];
      RankIsLevel(c.ctx.preds, c.rank);
      EvalNamed(c.ctx, c.rank, After(calls, start, n - 1), c.name).1
  }

  ghost function AnswerOf(calls: seq<TickCall>, start: Timers, n: nat): Answer
    requires n < |calls|
  {
    var c := calls[n];
    RankIsLevel(c.ctx.preds, c.rank);
    EvalNamed(c.ctx, c.rank, After(calls, start, n), c.name).0
  }

  ghost predicate MayShare(calls: seq<TickCall>, start: Timers) {
    forall i, j {:trigger Sharing(calls[i], calls[j], start)} :: 0 <= i < |calls| && 0 <= j < |calls| ==>
      Sharing(calls[i], calls[j], start)
  }

  ghost predicate Sharing(c: TickCall, d: TickCall, start: Timers) {
    Compatible(c.ctx, c.rank, d.ctx, d.rank, start)
  }

  ghost predicate CoherentFor(c: TickCall, start: Timers, st: State) {
    Coherent(c.ctx, start, c.rank, st)
  }

  lemma {:induction false} TickStaysCoherent(calls: seq<TickCall>, start: Timers, n: nat, k: nat)
    requires n <= |calls| && k < |calls| && MayShare(calls, start)
    ensures CoherentFor(calls[k], start, After(calls, start, n))
  {
    if n == 0 {
      CallStartsCoherent(calls[k], start);
    } else {
      TickStaysCoherent(calls, start, n - 1, k);
      TickStaysCoherent(calls, start, n - 1, n - 1);
      assert Sharing(calls[n - 1], calls[k], start);
      AfterStep(calls, start, n);
      CallKeepsCoherent(calls[n - 1], calls[k], start, After(calls, start, n - 1));
    }
  }

  lemma AfterStep(calls: seq<TickCall>, start: Timers, n: nat)
    requires 0 < n <= |calls|
    ensures var c := calls[n - 1];
            IsLevel(c.ctx.preds, c.rank) && After(calls, start, n) == EvalNamed(c.ctx, c.rank, After(calls, start, n - 1), c.name).1
  {
    RankIsLevel(calls[n - 1].ctx.preds, calls[n - 1].rank);
  }

  lemma StartsCoherent(ctx: Ctx, start: Timers, rank: map<Name, nat>)
    requires EvalRank(ctx.preds, rank)
    ensures Coherent(ctx, start, rank, State(map[], start))
  {
  }

  lemma CallStartsCoherent(c: TickCall, start: Timers)
    ensures CoherentFor(c, start, State(map[], start))
  {
    StartsCoherent(c.ctx, start, c.rank);
  }

  lemma CallKeepsCoherent(c: TickCall, d: TickCall, start: Timers, st: State)
    requires Sharing(c, d, start) && CoherentFor(c, start, st) && CoherentFor(d, start, st)
    ensures IsLevel(c.ctx.preds, c.rank) && CoherentFor(d, start, EvalNamed(c.ctx, c.rank, st, c.name).1)
  {
    RankIsLevel(c.ctx.preds, c.rank);
    EvalNamedMeans(c.ctx, c.rank, start, c.rank, st, c.name);
    GrowsKeepsCoherent(c.ctx, c.rank, d.ctx, d.rank, start, st, EvalNamed(c.ctx, c.rank, st, c.name).1);
  }

  /** Cache transparency: in a tick, every call answers what its name means without any
      cache, in whatever order the calls come and whichever programs make them, as long
      as the contexts may share; only the depth guard can intervene. */
  lemma CacheIsTransparent(calls: seq<TickCall>, start: Timers, n: nat)
    requires n < |calls| && MayShare(calls, start)
    ensures var c := calls[n]; Faithful(AnswerOf(calls, start, n), Meaning(c.ctx, start, c.rank, c.name))
  {
    var c := calls[n];
    TickStaysCoherent(calls, start, n, n);
    RankIsLevel(c.ctx.preds, c.rank);
    EvalNamedMeans(c.ctx, c.rank, start, c.rank, After(calls, start, n), c.name);
  }

  // ----- When programs may share -----

  /** Equal keys are equal definitions whose operands are again the same, leaf by leaf,
      and `elapsed` is shared only inside one program. */
  ghost predicate SharedDefinitions(c: Ctx, d: Ctx) {
    && (forall n, m :: n in c.preds && m in d.preds && c.hash(c.preds[n]) == d.hash(d.preds[m]) ==>
          SameDefinition(c, d, c.preds[n], d.preds[m]))
    && (c.program == d.program && c.program.Some? ==>
          c.now == d.now && forall n :: n in c.preds && n in d.preds ==> c.hash(c.preds[n]) == d.hash(d.preds[n]))
  }

  ghost predicate SameDefinition(c: Ctx, d: Ctx, k: Kind, k': Kind) {
    && k == k' && c.leaf(k) == d.leaf(k)
    && (k.Elapsed? ==> c.program == d.program && c.now == d.now)
    && forall o :: o in Operands(k) ==>
         (o in c.preds <==> o in d.preds) && (o in c.preds ==> c.hash(c.preds[o]) == d.hash(d.preds[o]))
  }

  lemma {:induction false} SharedMeansSame(c: Ctx, rc: map<Name, nat>, d: Ctx, rd: map<Name, nat>, start: Timers,
                                           n: Name, m: Name)
    requires EvalRank(c.preds, rc) && EvalRank(d.preds, rd) && SharedDefinitions(c, d)
    requires n in c.preds && m in d.preds && c.hash(c.preds[n]) == d.hash(d.preds[m])
    ensures Meaning(c, start, rc, n) == Meaning(d, start, rd, m)
    decreases rc[n], 1, 0
  {
    var k := c.preds[n];
    assert SameDefinition(c, d, k, d.preds[m]);
    assert RankOk(c.preds, rc, rc[n], k) && RankOk(d.preds, rd, rd[m], k);
    match k
    case AllOf(names) => SharedSeqSame(c, rc, d, rd, start, rc[n], rd[m], names);
    case AnyOf(names) => SharedSeqSame(c, rc, d, rd, start, rc[n], rd[m], names);
    case Not(o) =>
      assert o in Operands(k);
      if o in c.preds { SharedMeansSame(c, rc, d, rd, start, o, o); }
      assert OperandMeaning(c, start, rc, rc[n], o) == OperandMeaning(d, start, rd, rd[m], o);
    case Elapsed(o, _) =>
      assert o in Operands(k);
      if o in c.preds { SharedMeansSame(c, rc, d, rd, start, o, o); }
      assert OperandMeaning(c, start, rc, rc[n], o) == OperandMeaning(d, start, rd, rd[m], o);
    case _ =>
  }

  lemma {:induction false} SharedSeqSame(c: Ctx, rc: map<Name, nat>, d: Ctx, rd: map<Name, nat>, start: Timers,
                                         a: nat, b: nat, names: seq<Name>)
    requires EvalRank(c.preds, rc) && EvalRank(d.preds, rd) && SharedDefinitions(c, d)
    requires forall o :: o in names && o in c.preds ==> rc[o] < a
    requires forall o :: o in names && o in d.preds ==> rd[o] < b
    requires forall o :: o in names ==>
      (o in c.preds <==> o in d.preds) && (o in c.preds ==> c.hash(c.preds[o]) == d.hash(d.preds[o]))
    ensures AllMeaning(c, start, rc, a, names) == AllMeaning(d, start, rd, b, names)
    ensures AnyMeaning(c, start, rc, a, names) == AnyMeaning(d, start, rd, b, names)
    decreases a, 0, |names|
  {
    if names != [] {
      assert names[0] in names;
      if names[0] in c.preds { SharedMeansSame(c, rc, d, rd, start, names[0], names[0]); }
      SharedSeqSame(c, rc, d, rd, start, a, b, names[1..]);
    }
  }

  /** Programs whose equal keys stand for the same definitions may share the cache. */
  lemma SharedDefinitionsSuffice(c: Ctx, rc: map<Name, nat>, d: Ctx, rd: map<Name, nat>, start: Timers)
    requires EvalRank(c.preds, rc) && EvalRank(d.preds, rd) && SharedDefinitions(c, d)
    ensures Compatible(c, rc, d, rd, start)
  {
    forall n, m | n in c.preds && m in d.preds && c.hash(c.preds[n]) == d.hash(d.preds[m])
      ensures Meaning(c, start, rc, n) == Meaning(d, start, rd, m)
    {
      SharedMeansSame(c, rc, d, rd, start, n, m);
    }
  }

  /** Sharing is sound exactly when equal keys mean the same: once `c` has answered for
      `n`, any name of `d` with the same key gets that very answer. */
  lemma SharedKeySharesAnswer(c: TickCall, d: TickCall, start: Timers)
    requires c.name in c.ctx.preds && d.name in d.ctx.preds
    requires c.ctx.hash(c.ctx.preds[c.name]) == d.ctx.hash(d.ctx.preds[d.name])
    requires AnswerOf([c, d], start, 0).Ok?
    ensures AnswerOf([c, d], start, 1) == Meaning(c.ctx, start, c.rank, c.name)
    ensures AnswerOf([c, d], start, 1) == Meaning(d.ctx, start, d.rank, d.name)
       <==> Meaning(c.ctx, start, c.rank, c.name) == Meaning(d.ctx, start, d.rank, d.name)
  {
    RankIsLevel(c.ctx.preds, c.rank);
    StartsCoherent(c.ctx, start, c.rank);
    EvalNamedMeans(c.ctx, c.rank, start, c.rank, State(map[], start), c.name);
    AfterStep([c, d], start, 1);
  }

  /** all_of over one leaf: what it means and that it is answered. */
  lemma AllOfOneLeaf(c: TickCall, p: Name, a: Name, v: Value)
    requires p in c.ctx.preds && c.ctx.preds[p] == AllOf([a]) && c.name == p
    requires a in c.ctx.preds && c.ctx.preds[a].ColorAt? && c.ctx.leaf(c.ctx.preds[a]) == Ok(v)
    ensures IsLevel(c.ctx.preds, c.rank)
    ensures Meaning(c.ctx, map[], c.rank, p) == Ok(Value(v.truthy, None))
    ensures EvalNamed(c.ctx, c.rank, State(map[], map[]), p).0.Ok?
  {
    RankIsLevel(c.ctx.preds, c.rank);
    var st, bound := State(map[], map[]), c.rank[p];
    assert RankOk(c.ctx.preds, c.rank, bound, AllOf([a])) && LevelOk(c.ctx.preds, c.rank, bound, AllOf([a]));
    assert a in Operands(AllOf([a])) && [a][1..] == [];
    assert Meaning(c.ctx, map[], c.rank, a) == Ok(v);
    assert AllMeaning(c.ctx, map[], c.rank, bound, []) == Ok(Value(true, None));
    assert AllMeaning(c.ctx, map[], c.rank, bound, [a]) == Ok(Value(v.truthy, None));
    assert EvalAt(c.ctx, c.rank, st, a, 0).0 == Ok(v);
    assert EvalAll(c.ctx, c.rank, bound, st, [a], 0).0.Ok?;
  }

  /** The key hashes operand names, not what they stand for. Two programs that define
      `a` differently and both ask for all_of [a] get one answer between them. */
  lemma SharingCanGoWrong(c: TickCall, d: TickCall, p: Name, a: Name)
    requires c.ctx.hash == d.ctx.hash && c.name == d.name == p
    requires p in c.ctx.preds && p in d.ctx.preds && c.ctx.preds[p] == d.ctx.preds[p] == AllOf([a])
    requires a in c.ctx.preds && c.ctx.preds[a].ColorAt? && c.ctx.leaf(c.ctx.preds[a]) == Ok(Value(true, None))
    requires a in d.ctx.preds && d.ctx.preds[a].ColorAt? && d.ctx.leaf(d.ctx.preds[a]) == Ok(Value(false, None))
    ensures Meaning(d.ctx, map[], d.rank, p) == Ok(Value(false, None))
    ensures AnswerOf([c, d], map[], 1) == Ok(Value(true, None))
  {
    AllOfOneLeaf(c, p, a, Value(true, None));
    AllOfOneLeaf(d, p, a, Value(false, None));
    assert [c, d][0] == c;
    SharedKeySharesAnswer(c, d, map[]);
  }

  const DARK := ColorAt(0, 0, (0, 0, 0), 0)
  const LIGHT := ColorAt(0, 0, (255, 255, 255), 0)

  /** Such programs exist, whatever the hash. */
  lemma SharingWrongWitness(hash: Kind -> nat) returns (c: TickCall, d: TickCall)
    requires hash(AllOf([Name("a")])) != hash(LIGHT) && hash(AllOf([Name("a")])) != hash(DARK)
    ensures c.ctx.hash == d.ctx.hash == hash && c.ctx.program != d.ctx.program
    ensures AnswerOf([c, d], map[], 1) != Meaning(d.ctx, map[], d.rank, d.name)
  {
    var p, a := Name("p"), Name("a");
    assert p.text[0] != a.text[0];
    var leaf := k => Ok(Value(k == LIGHT, None));
    var rank: map<Name, nat> := map[p := 1, a := 0];
    c := Example(hash, leaf, LIGHT, rank, p, a, 1);
    d := Example(hash, leaf, DARK, rank, p, a, 2);
    SharingCanGoWrong(c, d, p, a);
  }

  ghost function Example(hash: Kind -> nat, leaf: Kind -> Result<Value, string>, color: Kind, rank: map<Name, nat>,
                         p: Name, a: Name, id: Pid): (c: TickCall)
    requires p != a && color.ColorAt? && rank == map[p := 1, a := 0] && hash(AllOf([a])) != hash(color)
    ensures c == Call(Ctx(map[p := AllOf([a]), a := color], 0, Some(id), leaf, hash), rank, p)
  {
    var preds: Map := map[p := AllOf([a]), a := color];
    assert Operands(AllOf([a])) == [a] && Operands(color) == [];
    assert RankOk(preds, rank, 1, AllOf([a])) && RankOk(preds, rank, 0, color);
    Call(Ctx(preds, 0, Some(id), leaf, hash), rank, p)
  }
}
