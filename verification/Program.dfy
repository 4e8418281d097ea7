/** The scheduler's view of one program: its document, its runtime record, and
    what a single tick does to it. Everything that is outside the scheduler
    (predicate results, target resolution, the input sink, the clock) is an
    oracle carried by `Env`. */
module Program {
  import opened Common

  /** A UUID. Its lower-case hyphenated string has fixed width, so comparing the
      strings is comparing the numbers. */
  type Pid = nat

  type u32 = x: nat | x <= 0xffff_ffff

  function Indices(n: nat): (r: set<nat>)
    ensures forall i: nat :: i in r <==> i < n
  {
    if n == 0 then {} else Indices(n - 1) + {n - 1}
  }

  datatype ProgramState = Pending | Waiting | Running | Blocked | Completed | Failed | Cancelled {
    predicate Terminal() {
      Completed? || Failed? || Cancelled?
    }
  }

  datatype Point = Point(x: int, y: int)
  datatype Target = Absolute(point: Point) | Expression(text: string)
  datatype Button = Left | Right | Middle
  datatype OnTimeout = TimeoutFails | TimeoutContinues | TimeoutRetries
  datatype OnFail = FailureFails | FailureContinues

  datatype Step =
    | Move(at: Target)
    | Click(at: Target, button: Button)
    | Scroll(at: Target, dx: int, dy: int)
    | Type(text: string)
    | Key(key: string, modifiers: seq<string>)
    | WaitFor(name: string, timeoutMs: u32, onTimeout: OnTimeout)
    | Assert(name: string, onFail: OnFail)
    | SleepMs(ms: u32)
  {
    /** The steps that reach the input sink. */
    predicate IsAction() {
      Move? || Click? || Scroll? || Type? || Key?
    }
  }

  /** One call on the input sink. */
  datatype InputCall =
    | MouseMove(to: Point)
    | ClickAt(to: Point, button: Button)
    | TypeText(text: string)
    | KeyCombo(modifiers: seq<string>, key: string)

  /** What a predicate reference names: an entry of the program's map, or the
      anonymous predicate written inside a watch. */
  datatype Ref = Named(name: string) | InlineOf(watch: nat)
  datatype When = ByName(name: string) | Inline
  datatype Lifetime = OneShot | Persistent | UntilPredicate(name: string) | TimeoutMs(ms: u32)
  datatype Watch = Watch(when: When, steps: seq<Step>, throttleMs: u32, lifetime: Lifetime)
  datatype Trigger = OnSubmit | OnPredicate(name: string) | Manual
  datatype Document = Document(trigger: Trigger, watches: seq<Watch>, body: seq<Step>, priority: int)

  datatype RuntimeError =
    | PerceptionError | InputError | WaitForTimeout | AssertFailed | ExpressionUnresolved | InternalError | DaemonRestarted

  /** The reason text an event carries: the runtime's error codes, and the sentence
      the startup code writes for a recovered program. */
  function ReasonText(e: RuntimeError): string {
    match e
    case PerceptionError => "perception_failed"
    case InputError => "input_failed"
    case WaitForTimeout => "wait_for_timeout"
    case AssertFailed => "assert_failed"
    case ExpressionUnresolved => "expression_unresolved"
    case InternalError => "internal"
    case DaemonRestarted => "daemon restarted during execution"
  }

  /** Everything one tick reads from the outside. `truth` is a function because within a
      tick evaluation is one, for validated programs whose dependency paths stay within
      the depth guard (lemma `Evaluation.TruthIsAFunction`); that is assumed here.
      `watchSink(id, n)` is the outcome of the sink call for the n-th step of the watch
      `id` fires, `bodySink(id)` of the one call its body may make, so repeated calls may
      differ. */
  datatype Env = Env(
    captured: bool,
    now: int,
    truth: (Pid, Ref) -> Option<bool>,
    point: (Pid, string) -> Result<Point, RuntimeError>,
    watchSink: (Pid, nat) -> bool,
    bodySink: Pid -> bool)

  datatype WatchRuntime = WatchRuntime(lastFired: Option<int>, lastTruthy: bool, retired: bool)
  const FreshWatch := WatchRuntime(None, false, false)

  datatype Defer = Sleep(wakeAt: int) | Wait(name: string, deadline: int, onTimeout: OnTimeout)

  datatype Prog = Prog(
    doc: Document,
    state: ProgramState,
    runningSince: Option<int>,
    cursor: Option<nat>,
    watchState: map<nat, WatchRuntime>,
    deferred: Option<Defer>)
  {
    /** The cursor as the body executor reads it. */
    function Cursor(): nat {
      cursor.GetOr(0)
    }

    function Watching(i: nat): WatchRuntime {
      if i in watchState then watchState[i] else FreshWatch
    }

    predicate BodyComplete() {
      match cursor
      case Some(n) => n >= |doc.body|
      case None => |doc.body| == 0
    }

    function ActiveWatches(): set<nat> {
      set i | i in watchState && !watchState[i].retired
    }
  }

  function PendingProg(doc: Document): Prog {
    Prog(doc, Pending, None, None, map[], None)
  }

  datatype Event =
    | ProgramSubmitted(pid: Pid)
    | StateChanged(pid: Pid, from: ProgramState, to: ProgramState)
    | ProgramCompleted(pid: Pid)
    | ProgramFailed(pid: Pid, reason: RuntimeError)
    | ProgramResumed(pid: Pid, fromStep: nat)
    | WatchFired(pid: Pid, watch: nat)
    | ActionDispatched(pid: Pid, step: Step)
    | ActionDeferred(pid: Pid, steps: seq<Step>, conflictWith: Pid)
    | TickFrameSkipped
    | DaemonStarted

  /** Why an input reached the sink: the watch that fired or the body step. */
  datatype Origin = ByWatch(watch: nat) | ByBody(step: nat)

  /** What the scheduler does to the outside: an event on the channel, or an input
      the sink accepted. */
  datatype Effect = Emit(event: Event) | Sent(pid: Pid, origin: Origin, call: InputCall)

  // ----- Watches -----

  datatype Decision = Skip | Fire | Retire

  function Decide(w: Watch, s: WatchRuntime, truthy: bool, now: int, since: int): Decision {
    if s.retired then Skip
    else if w.lifetime.TimeoutMs? && SatSub(now, since) >= w.lifetime.ms then Retire
    else if s.lastTruthy || !truthy then Skip
    else if s.lastFired.Some? && SatSub(now, s.lastFired.value) < w.throttleMs then Skip
    else Fire
  }

  function AfterFire(w: Watch, s: WatchRuntime, now: int): WatchRuntime {
    s.(lastFired := Some(now), retired := s.retired || w.lifetime.OneShot?)
  }

  /** What the watch loop concludes about one watch of a running program. */
  datatype Look = AlreadyRetired | Tripped | NoResult | Seen(truthy: bool, decision: Decision)

  function LookAt(id: Pid, p: Prog, i: nat, env: Env): Look
    requires i < |p.doc.watches|
  {
    var w := p.doc.watches[i];
    var s := p.Watching(i);
    if s.retired then AlreadyRetired
    else if w.lifetime.UntilPredicate? && env.truth(id, Named(w.lifetime.name)) == Some(true) then Tripped
    else
      var ref := match w.when case ByName(n) => Named(n) case Inline => InlineOf(i);
      match env.truth(id, ref)
      case None => NoResult
      case Some(t) => Seen(t, Decide(w, s, t, env.now, p.runningSince.GetOr(env.now)))
  }

  predicate Fires(id: Pid, p: Prog, i: nat, env: Env) {
    i < |p.doc.watches| && LookAt(id, p, i, env).Seen? && LookAt(id, p, i, env).decision.Fire?
  }

  /** The watch that fires: the first whose decision is `Fire`. */
  function FirstFire(id: Pid, p: Prog, env: Env, from: nat := 0): (r: Option<nat>)
    ensures r.Some? ==> from <= r.value && Fires(id, p, r.value, env)
    ensures r.Some? ==> forall j :: from <= j < r.value ==> !Fires(id, p, j, env)
    ensures r.None? ==> forall j :: from <= j ==> !Fires(id, p, j, env)
    decreases |p.doc.watches| - from
  {
    if from >= |p.doc.watches| then None
    else if Fires(id, p, from, env) then Some(from)
    else FirstFire(id, p, env, from + 1)
  }

  /** Truthy edge and retirement, before any post-fire update. */
  function Observe(look: Look, s: WatchRuntime): WatchRuntime {
    match look
    case Seen(t, d) => s.(lastTruthy := t, retired := s.retired || d.Retire?)
    case Tripped => s.(retired := true)
    case _ => s
  }

  predicate Touched(id: Pid, p: Prog, i: nat, env: Env) {
    i < |p.doc.watches| && (LookAt(id, p, i, env).Seen? || LookAt(id, p, i, env).Tripped?)
  }

  function Observed(id: Pid, p: Prog, i: nat, env: Env): WatchRuntime {
    if i < |p.doc.watches| then Observe(LookAt(id, p, i, env), p.Watching(i)) else p.Watching(i)
  }

  function ObservedAll(id: Pid, p: Prog, env: Env): map<nat, WatchRuntime> {
    map i | i in p.watchState.Keys + Indices(|p.doc.watches|) && (i in p.watchState || Touched(id, p, i, env)) ::
      Observed(id, p, i, env)
  }

  // ----- Input dispatch -----

  function Resolve(id: Pid, at: Target, env: Env): Result<Point, RuntimeError> {
    match at
    case Absolute(p) => Ok(p)
    case Expression(e) => env.point(id, e)
  }

  /** The sink call a step makes once its target resolves. A scroll only moves the
      pointer, and a control-flow step is an internal error. */
  function CallFor(id: Pid, step: Step, env: Env): Result<InputCall, RuntimeError> {
    match step
    case Move(at) => (match Resolve(id, at, env) case Ok(p) => Ok(MouseMove(p)) case Err(e) => Err(e))
    case Click(at, b) => (match Resolve(id, at, env) case Ok(p) => Ok(ClickAt(p, b)) case Err(e) => Err(e))
    case Scroll(at, _, _) => (match Resolve(id, at, env) case Ok(p) => Ok(MouseMove(p)) case Err(e) => Err(e))
    case Type(t) => Ok(TypeText(t))
    case Key(key, mods) => Ok(KeyCombo(mods, key))
    case _ => Err(InternalError)
  }

  /** Dispatch one action step, `accepted` being the sink's answer. */
  function Perform(id: Pid, step: Step, env: Env, accepted: bool): Result<InputCall, RuntimeError> {
    match CallFor(id, step, env)
    case Ok(call) => if accepted then Ok(call) else Err(InputError)
    case Err(e) => Err(e)
  }

  /** `p` is where `at` points. */
  predicate AimsAt(id: Pid, at: Target, env: Env, p: Point) {
    match at
    case Absolute(q) => p == q
    case Expression(text) => env.point(id, text) == Ok(p)
  }

  /** `call` is what `step` asks of the sink. */
  predicate Performs(id: Pid, step: Step, env: Env, call: InputCall) {
    match step
    case Move(at) => call.MouseMove? && AimsAt(id, at, env, call.to)
    case Click(at, b) => call.ClickAt? && call.button == b && AimsAt(id, at, env, call.to)
    case Scroll(at, _, _) => call.MouseMove? && AimsAt(id, at, env, call.to)
    case Type(t) => call == TypeText(t)
    case Key(key, mods) => call == KeyCombo(mods, key)
    case _ => false
  }

  /** Why `step` cannot be performed: it is no action, its target does not resolve, or
      the sink refuses the input. */
  predicate StepFails(id: Pid, step: Step, env: Env, accepted: bool, e: RuntimeError) {
    match step
    case Move(at) => TargetFails(id, at, env, accepted, e)
    case Click(at, _) => TargetFails(id, at, env, accepted, e)
    case Scroll(at, _, _) => TargetFails(id, at, env, accepted, e)
    case Type(_) => !accepted && e == InputError
    case Key(_, _) => !accepted && e == InputError
    case _ => e == InternalError
  }

  predicate TargetFails(id: Pid, at: Target, env: Env, accepted: bool, e: RuntimeError) {
    match at
    case Absolute(_) => !accepted && e == InputError
    case Expression(text) =>
      match env.point(id, text)
      case Err(unresolved) => e == unresolved
      case Ok(_) => !accepted && e == InputError
  }

  /** A firing watch's steps: dispatched in order, stopping at the first error. */
  datatype Burst = Burst(effects: seq<Effect>, error: Option<RuntimeError>)

  function RunSteps(id: Pid, watch: nat, steps: seq<Step>, env: Env, k: nat := 0): Burst
    requires k <= |steps|
    decreases |steps| - k
  {
    if k == |steps| then Burst([], None)
    else
      var announce := Emit(ActionDispatched(id, steps[k]));
      match Perform(id, steps[k], env, env.watchSink(id, k))
      case Err(e) => Burst([announce], Some(e))
      case Ok(call) =>
        var rest := RunSteps(id, watch, steps, env, k + 1);
        Burst([announce, Sent(id, ByWatch(watch), call)] + rest.effects, rest.error)
  }

  // ----- Body -----

  datatype StepOutcome = Advanced | Stalled | BodyDone | StepFailed(error: RuntimeError)
  datatype StepResult = StepResult(outcome: StepOutcome, deferred: Option<Defer>, input: Option<InputCall>)

  function StepOnce(id: Pid, body: seq<Step>, cursor: nat, deferred: Option<Defer>, env: Env): StepResult {
    match deferred
    case Some(Sleep(wakeAt)) =>
      if env.now >= wakeAt then StepResult(Advanced, None, None) else StepResult(Stalled, deferred, None)
    case Some(Wait(name, deadline, onTimeout)) =>
      (match env.truth(id, Named(name))
       case None => StepResult(StepFailed(PerceptionError), deferred, None)
       case Some(true) => StepResult(Advanced, None, None)
       case Some(false) =>
         if env.now >= deadline then
           StepResult(if onTimeout.TimeoutFails? then StepFailed(WaitForTimeout) else Advanced, None, None)
         else StepResult(Stalled, deferred, None))
    case None =>
      if cursor >= |body| then StepResult(BodyDone, None, None)
      else
        match body[cursor]
        case SleepMs(ms) => StepResult(Stalled, Some(Sleep(SatAdd(env.now, ms))), None)
        case WaitFor(name, ms, onTimeout) => StepResult(Stalled, Some(Wait(name, SatAdd(env.now, ms), onTimeout)), None)
        case Assert(name, onFail) =>
          (match env.truth(id, Named(name))
           case None => StepResult(StepFailed(PerceptionError), None, None)
           case Some(t) =>
             StepResult(if t || onFail.FailureContinues? then Advanced else StepFailed(AssertFailed), None, None))
        case action =>
          match Perform(id, action, env, env.bodySink(id))
          case Ok(call) => StepResult(Advanced, None, Some(call))
          case Err(e) => StepResult(StepFailed(e), None, None)
  }

  // ----- One tick of one program -----

  function TriggerFires(id: Pid, t: Trigger, env: Env): Option<bool> {
    match t
    case OnSubmit => Some(true)
    case Manual => Some(false)
    case OnPredicate(name) => env.truth(id, Named(name))
  }

  function Started(p: Prog, now: int): Prog {
    p.(state := Running, runningSince := Some(now), cursor := Some(0),
       watchState := p.watchState + map i | i in Indices(|p.doc.watches|) :: FreshWatch)
  }

  function AfterTrigger(id: Pid, p: Prog, env: Env): Prog {
    if !p.state.Waiting? then p
    else match TriggerFires(id, p.doc.trigger, env)
      case Some(true) => Started(p, env.now)
      case Some(false) => p
      case None => p.(state := Failed)
  }

  function TriggerEffects(id: Pid, p: Prog, env: Env): seq<Effect> {
    if !p.state.Waiting? then []
    else match TriggerFires(id, p.doc.trigger, env)
      case Some(true) => [Emit(StateChanged(id, Waiting, Running))]
      case Some(false) => []
      case None => [Emit(ProgramFailed(id, PerceptionError))]
  }

  /** The program enters arbitration: it fires a watch that has steps. */
  predicate Contends(id: Pid, q: Prog, env: Env) {
    q.state.Running? && var f := FirstFire(id, q, env); f.Some? && q.doc.watches[f.value].steps != []
  }

  /** What the watch phase did: its effects, the watch that
      fired for bookkeeping purposes, and whether dispatch failed. */
  datatype WatchOutcome = WatchOutcome(effects: seq<Effect>, fired: Option<nat>, failed: bool)

  function WatchPhase(id: Pid, q: Prog, env: Env, winner: Option<Pid>): WatchOutcome
    requires q.state.Running?
    requires Contends(id, q, env) ==> winner.Some?
  {
    match FirstFire(id, q, env)
    case None => WatchOutcome([], None, false)
    case Some(i) =>
      var steps := q.doc.watches[i].steps;
      if steps == [] then WatchOutcome([Emit(WatchFired(id, i))], Some(i), false)
      else if winner != Some(id) then WatchOutcome([Emit(ActionDeferred(id, steps, winner.value))], None, false)
      else
        var b := RunSteps(id, i, steps, env);
        match b.error
        case Some(e) => WatchOutcome(b.effects + [Emit(ProgramFailed(id, e))], None, true)
        case None => WatchOutcome(b.effects + [Emit(WatchFired(id, i))], Some(i), false)
  }

  /** Watch bookkeeping: observations of every watch, then the post-fire update. */
  function AfterWatches(id: Pid, q: Prog, env: Env, o: WatchOutcome): Prog
    requires o.fired.Some? ==> o.fired.value < |q.doc.watches|
  {
    var seen := ObservedAll(id, q, env);
    var ws := match o.fired
      case None => seen
      case Some(i) => seen[i := AfterFire(q.doc.watches[i], Observed(id, q, i, env), env.now)];
    q.(watchState := ws, state := if o.failed then Failed else q.state)
  }

  function AfterBody(id: Pid, q: Prog, env: Env): Prog {
    var r := StepOnce(id, q.doc.body, q.Cursor(), q.deferred, env);
    var stepped := q.(deferred := r.deferred, cursor := if r.outcome.Advanced? then Some(q.Cursor() + 1) else q.cursor);
    match r.outcome
    case Advanced => if stepped.BodyComplete() && stepped.ActiveWatches() == {} then stepped.(state := Completed) else stepped
    case Stalled => stepped
    case BodyDone => if stepped.ActiveWatches() == {} then stepped.(state := Completed) else stepped
    case StepFailed(_) => stepped.(state := Failed)
  }

  function BodyEffects(id: Pid, q: Prog, env: Env): seq<Effect> {
    var r := StepOnce(id, q.doc.body, q.Cursor(), q.deferred, env);
    (if r.input.Some? then [Sent(id, ByBody(q.Cursor()), r.input.value)] else [])
    + match r.outcome
      case StepFailed(e) => [Emit(ProgramFailed(id, e))]
      case _ =>
        if AfterBody(id, q, env).state.Completed? then
          [Emit(StateChanged(id, Running, Completed)), Emit(ProgramCompleted(id))]
        else []
  }

  /** Everything one tick does for one program. */
  datatype Tock = Tock(prog: Prog, effects: seq<Effect>, fired: Option<nat>)

  /** The tick of one program, given the outcome of arbitration. */
  function TickProgram(id: Pid, p: Prog, env: Env, winner: Option<Pid>): Tock
    requires env.captured && Contends(id, AfterTrigger(id, p, env), env) ==> winner.Some?
  {
    if !env.captured then Tock(p, [], None)
    else
      var q := AfterTrigger(id, p, env);
      var e := TriggerEffects(id, p, env);
      if !q.state.Running? then Tock(q, e, None)
      else
        var o := WatchPhase(id, q, env, winner);
        var r := AfterWatches(id, q, env, o);
        if o.failed then Tock(r, e + o.effects, None)
        else Tock(AfterBody(id, r, env), e + o.effects + BodyEffects(id, r, env), o.fired)
  }
}
