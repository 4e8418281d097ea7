/** Predicate definitions and their validator: shape, references, and an iterative
    three-colour depth-first search that rejects cyclic definitions. */
module Predicates {
  import opened Common
  import Hint

  /** A predicate name. */
  datatype Name = Name(text: string)

  datatype Region = AbsoluteRegion(x: int, y: int, w: int, h: int) | WindowRegion(app: string) | RelativeTo(name: Name)

  /** Floating-point parameters are carried as their bit patterns. */
  datatype Kind =
    | Template(image: string, confidenceBits: nat, region: Region, throttleMs: nat)
    | ColorAt(x: int, y: int, rgb: (nat, nat, nat), tolerance: nat)
    | PixelDiff(region: Region, baseline: string, thresholdBits: nat)
    | AllOf(names: seq<Name>)
    | AnyOf(names: seq<Name>)
    | Not(name: Name)
    | Elapsed(name: Name, ms: nat)

  type Map = map<Name, Kind>

  /** The names a predicate depends on, in the order the search follows them. */
  function EdgesOf(k: Kind): seq<Name> {
    match k
    case AllOf(names) => names
    case AnyOf(names) => names
    case Not(name) => [name]
    case Elapsed(name, _) => [name]
    case Template(_, _, RelativeTo(name), _) => [name]
    case PixelDiff(RelativeTo(name), _, _) => [name]
    case _ => []
  }

  /** The definition with `m` in place of the name `n`. */
  ghost function Renamed(k: Kind, n: Name, m: Name): Kind {
    match k
    case Template(image, bits, region, ms) => Template(image, bits, RenamedRegion(region, n, m), ms)
    case PixelDiff(region, baseline, bits) => PixelDiff(RenamedRegion(region, n, m), baseline, bits)
    case ColorAt(_, _, _, _) => k
    case AllOf(names) => AllOf(RenamedAll(names, n, m))
    case AnyOf(names) => AnyOf(RenamedAll(names, n, m))
    case Not(name) => Not(if name == n then m else name)
    case Elapsed(name, ms) => Elapsed(if name == n then m else name, ms)
  }

  ghost function RenamedRegion(r: Region, n: Name, m: Name): Region {
    if r.RelativeTo? && r.name == n then RelativeTo(m) else r
  }

  ghost function RenamedAll(names: seq<Name>, n: Name, m: Name): (r: seq<Name>)
    ensures |r| == |names| && forall i :: 0 <= i < |names| ==> r[i] == if names[i] == n then m else names[i]
  {
    seq(|names|, i requires 0 <= i < |names| => if names[i] == n then m else names[i])
  }

  /** The edges are exactly the names that occur in the definition. */
  lemma EdgesAreOccurrences(k: Kind, n: Name, m: Name)
    requires n != m
    ensures n in EdgesOf(k) <==> Renamed(k, n, m) != k
  {
    if k.AllOf? || k.AnyOf? {
      if n !in k.names { assert RenamedAll(k.names, n, m) == k.names; }
      if n in k.names {
        var i :| 0 <= i < |k.names| && k.names[i] == n;
        assert RenamedAll(k.names, n, m)[i] == m;
      }
    }
  }

  // ----- Shape -----

  datatype DslError =
    | EmptyLogicalOp(op: string)
    | UnknownPredicateName(name: Name, hint: Option<string>)
    | ElapsedReferenceMissing(name: Name)
    | PredicateCycle(cycle: seq<Name>)

  predicate ShapeOk(k: Kind, preds: Map) {
    (k.AllOf? || k.AnyOf? ==> k.names != []) && forall n :: n in EdgesOf(k) ==> n in preds
  }

  ghost predicate WellShaped(preds: Map) {
    forall n :: n in preds ==> ShapeOk(preds[n], preds)
  }

  /** The names as text, in the map's iteration order. */
  function Texts(order: seq<Name>): seq<string> {
    seq(|order|, i requires 0 <= i < |order| => order[i].text)
  }

  /** `e` is a true complaint about `k`, with the hint its name deserves. */
  ghost predicate Complains(e: DslError, k: Kind, preds: Map, order: seq<Name>) {
    match e
    case EmptyLogicalOp(op) => (k == AllOf([]) && op == "all_of") || (k == AnyOf([]) && op == "any_of")
    case UnknownPredicateName(name, hint) =>
      !k.Elapsed? && name in EdgesOf(k) && name !in preds && Hint.IsHint(name.text, Texts(order), hint)
    case ElapsedReferenceMissing(name) => k.Elapsed? && k.name == name && name !in preds
    case PredicateCycle(_) => false
  }

  /** `order` is the map's iteration order. */
  ghost predicate Enumerates(order: seq<Name>, preds: Map) {
    && (forall i, j :: 0 <= i < j < |order| ==> order[i] != order[j])
    && forall n :: n in order <==> n in preds
  }

  method ResolveName(name: Name, preds: Map, order: seq<Name>) returns (r: Option<DslError>)
    requires Enumerates(order, preds)
    ensures r.None? <==> name in preds
    ensures r.Some? ==> r.value.UnknownPredicateName? && r.value.name == name && Hint.IsHint(name.text, Texts(order), r.value.hint)
  {
    if name in preds { return None; }
    var hint := Hint.DidYouMean(name.text, Texts(order));
    r := Some(UnknownPredicateName(name, hint));
  }

  /** The hint for an undefined name is a defined one. */
  lemma HintIsDefined(name: Name, preds: Map, order: seq<Name>, hint: Option<string>)
    requires Enumerates(order, preds) && name !in preds && Hint.IsHint(name.text, Texts(order), hint)
    ensures hint.Some? <==> exists n :: n in preds && Hint.Distance(name.text, n.text) <= 1
    ensures hint.Some? ==> Name(hint.value) in preds && Hint.Distance(name.text, hint.value) <= 1
  {
    var texts := Texts(order);
    forall i | 0 <= i < |order| ensures texts[i] == order[i].text != name.text && order[i] in preds {
      assert order[i] in order && order[i] == Name(texts[i]) && name == Name(name.text);
    }
    forall n | n in preds && Hint.Distance(name.text, n.text) <= 1 ensures hint.Some? {
      var i :| 0 <= i < |order| && order[i] == n;
      assert texts[i] == n.text;
    }
    if hint.Some? {
      var i :| 0 <= i < |texts| && Hint.Distance(name.text, texts[i]) <= 1 && hint == Some(texts[i]);
      assert order[i] == Name(hint.value);
    }
  }

  method CheckReferences(k: Kind, preds: Map, order: seq<Name>) returns (r: Option<DslError>)
    requires Enumerates(order, preds)
    ensures r.None? <==> ShapeOk(k, preds)
    ensures r.Some? ==> Complains(r.value, k, preds, order)
  {
    var names := EdgesOf(k);
    if k.Elapsed? {
      return if k.name in preds then None else Some(ElapsedReferenceMissing(k.name));
    }
    if (k.AllOf? || k.AnyOf?) && k.names == [] {
      return Some(EmptyLogicalOp(if k.AllOf? then "all_of" else "any_of"));
    }
    for i := 0 to |names|
      invariant forall j :: 0 <= j < i ==> names[j] in preds
    {
      var e := ResolveName(names[i], preds, order);
      if e.Some? { return e; }
    }
    return None;
  }

  /** The first complaint, in iteration order. */
  method ValidateShape(preds: Map, order: seq<Name>) returns (r: Option<DslError>)
    requires Enumerates(order, preds)
    ensures r.None? <==> WellShaped(preds)
    ensures r.Some? ==>
      exists i :: 0 <= i < |order| && Complains(r.value, preds[order[i]], preds, order)
                  && forall j :: 0 <= j < i ==> ShapeOk(preds[order[j]], preds)
  {
    for i := 0 to |order|
      invariant forall j :: 0 <= j < i ==> ShapeOk(preds[order[j]], preds)
    {
      var e := CheckReferences(preds[order[i]], preds, order);
      if e.Some? { return e; }
    }
    return None;
  }

  // ----- The dependency graph -----

  ghost predicate Edge(preds: Map, a: Name, b: Name) {
    a in preds && b in preds && b in EdgesOf(preds[a])
  }

  ghost predicate Link(preds: Map, p: seq<Name>, i: nat) {
    i + 1 < |p| ==> Edge(preds, p[i], p[i + 1])
  }

  ghost predicate IsPath(preds: Map, p: seq<Name>) {
    (forall n :: n in p ==> n in preds) && forall i: nat :: Link(preds, p, i)
  }

  ghost predicate IsCycle(preds: Map, c: seq<Name>) {
    |c| >= 2 && c[0] == c[|c| - 1] && IsPath(preds, c)
  }

  ghost predicate Acyclic(preds: Map) {
    forall c :: !IsCycle(preds, c)
  }

  /** A topological rank: every dependency has a smaller number. */
  ghost predicate IsRank(preds: Map, rank: map<Name, nat>) {
    rank.Keys == preds.Keys && forall a, b :: Edge(preds, a, b) ==> rank[b] < rank[a]
  }

  lemma {:induction false} RankFallsAlongPath(preds: Map, rank: map<Name, nat>, p: seq<Name>, i: nat, j: nat)
    requires IsRank(preds, rank) && IsPath(preds, p) && i < j < |p|
    ensures rank[p[j]] < rank[p[i]]
  {
    assert Link(preds, p, j - 1);
    if i < j - 1 { RankFallsAlongPath(preds, rank, p, i, j - 1); }
  }

  lemma RankForbidsCycles(preds: Map, rank: map<Name, nat>)
    requires IsRank(preds, rank)
    ensures Acyclic(preds)
  {
    forall c | IsCycle(preds, c) ensures false { RankFallsAlongPath(preds, rank, c, 0, |c| - 1); }
  }

  // ----- The search -----

  datatype Color = White | Gray | Black

  /** A node being visited and how many of its edges have been followed. */
  datatype Frame = Frame(node: Name, followed: nat)

  /** The top frame has followed one more edge. */
  function Advance(stack: seq<Frame>): seq<Frame>
    requires stack != []
  {
    stack[|stack| - 1 := Frame(stack[|stack| - 1].node, stack[|stack| - 1].followed + 1)]
  }

  function Whites(color: map<Name, Color>): set<Name> {
    set n | n in color && color[n].White?
  }

  /** The stack is a path of the gray nodes, `pos` saying where each one is. */
  ghost predicate OnStack(preds: Map, color: map<Name, Color>, stack: seq<Frame>, pos: map<Name, nat>) {
    && color.Keys == preds.Keys
    && (forall n :: n in pos <==> n in preds && color[n].Gray?)
    && (forall n :: n in pos ==> pos[n] < |stack| && stack[pos[n]].node == n)
    && (forall i: nat :: i < |stack| ==> stack[i].node in pos && pos[stack[i].node] == i)
    && (forall i: nat {:trigger Framed(preds, color, stack, pos, i)} :: i < |stack| ==> Framed(preds, color, stack, pos, i))
  }

  /** The edges a frame has followed lead to finished nodes or to the next frame, and
      the next frame was reached by one of them. */
  ghost predicate Framed(preds: Map, color: map<Name, Color>, stack: seq<Frame>, pos: map<Name, nat>, i: nat)
    requires i < |stack| && color.Keys == preds.Keys
  {
    stack[i].node in preds &&
    var edges := EdgesOf(preds[stack[i].node]);
    && stack[i].followed <= |edges|
    && (forall j: nat :: j < stack[i].followed ==> Followed(preds, color, pos, i, edges[j]))
    && (i + 1 < |stack| ==> stack[i + 1].node in edges)
  }

  ghost predicate Followed(preds: Map, color: map<Name, Color>, pos: map<Name, nat>, i: nat, e: Name)
    requires color.Keys == preds.Keys
  {
    e in preds ==> color[e].Black? || (e in pos && pos[e] == i + 1)
  }

  /** Finished nodes depend only on nodes finished earlier; `next` is the next number. */
  ghost predicate Finished(preds: Map, color: map<Name, Color>, rank: map<Name, nat>, next: nat) {
    && color.Keys == preds.Keys
    && (forall n :: n in rank <==> n in preds && color[n].Black?)
    && (forall n :: n in rank ==> rank[n] < next && FinishedNode(preds, rank, n))
  }

  ghost predicate FinishedNode(preds: Map, rank: map<Name, nat>, a: Name) {
    a in rank && forall b {:trigger Edge(preds, a, b)} :: Edge(preds, a, b) ==> b in rank && rank[b] < rank[a]
  }

  /** Following an edge to a finished (or undefined) node. */
  lemma SkipStep(preds: Map, color: map<Name, Color>, stack: seq<Frame>, pos: map<Name, nat>, next: Name)
    requires OnStack(preds, color, stack, pos) && stack != []
    requires var f := stack[|stack| - 1];
             && f.node in preds && f.followed < |EdgesOf(preds[f.node])|
             && next == EdgesOf(preds[f.node])[f.followed]
    requires next in preds ==> color[next].Black?
    ensures OnStack(preds, color, Advance(stack), pos)
  {
    var stack' := Advance(stack);
    forall i: nat | i < |stack| ensures Framed(preds, color, stack', pos, i) {
      assert Framed(preds, color, stack, pos, i);
    }
  }

  /** Following an edge to a white node pushes it. */
  lemma PushStep(preds: Map, color: map<Name, Color>, stack: seq<Frame>, pos: map<Name, nat>, next: Name)
    requires OnStack(preds, color, stack, pos) && stack != []
    requires var f := stack[|stack| - 1];
             && f.node in preds && f.followed < |EdgesOf(preds[f.node])|
             && next == EdgesOf(preds[f.node])[f.followed]
    requires next in preds && color[next].White?
    ensures OnStack(preds, color[next := Gray], Advance(stack) + [Frame(next, 0)], pos[next := |stack|])
    ensures Whites(color[next := Gray]) < Whites(color)
  {
    assert next in Whites(color) && next !in Whites(color[next := Gray]);
    var color', pos' := color[next := Gray], pos[next := |stack|];
    var stack' := Advance(stack) + [Frame(next, 0)];
    forall i: nat | i < |stack'| ensures Framed(preds, color', stack', pos', i) {
      if i < |stack| {
        assert Framed(preds, color, stack, pos, i);
        var edges := EdgesOf(preds[stack[i].node]);
        forall j: nat | j < stack'[i].followed ensures Followed(preds, color', pos', i, edges[j]) {
          assert j < stack[i].followed ==> Followed(preds, color, pos, i, edges[j]);
        }
      }
    }
  }

  lemma GrayKeepsFinished(preds: Map, color: map<Name, Color>, rank: map<Name, nat>, number: nat, next: Name)
    requires Finished(preds, color, rank, number) && next in preds && color[next].White?
    ensures Finished(preds, color[next := Gray], rank, number)
  {
  }

  /** A frame with every edge followed is popped. */
  lemma PopStep(preds: Map, color: map<Name, Color>, stack: seq<Frame>, pos: map<Name, nat>)
    requires OnStack(preds, color, stack, pos) && stack != []
    ensures var cur := stack[|stack| - 1].node;
            OnStack(preds, color[cur := Black], stack[..|stack| - 1], pos - {cur})
              && Whites(color[cur := Black]) == Whites(color)
  {
    var top := |stack| - 1;
    var cur := stack[top].node;
    var color', pos', stack' := color[cur := Black], pos - {cur}, stack[..top];
    forall i: nat | i < top ensures Framed(preds, color', stack', pos', i) {
      assert Framed(preds, color, stack, pos, i);
      var edges := EdgesOf(preds[stack[i].node]);
      forall j: nat | j < stack[i].followed ensures Followed(preds, color', pos', i, edges[j]) {
        assert Followed(preds, color, pos, i, edges[j]);
      }
    }
  }

  /** ... and finished: all it depends on already is. */
  lemma FinishStep(preds: Map, color: map<Name, Color>, stack: seq<Frame>, pos: map<Name, nat>, rank: map<Name, nat>,
                   next: nat)
    requires OnStack(preds, color, stack, pos) && stack != [] && Finished(preds, color, rank, next)
    requires var f := stack[|stack| - 1]; f.node in preds && f.followed == |EdgesOf(preds[f.node])|
    ensures var cur := stack[|stack| - 1].node; Finished(preds, color[cur := Black], rank[cur := next], next + 1)
  {
    var top := |stack| - 1;
    var cur := stack[top].node;
    assert Framed(preds, color, stack, pos, top);
    forall b | Edge(preds, cur, b) ensures color[b].Black? {
      var j: nat :| j < |EdgesOf(preds[cur])| && EdgesOf(preds[cur])[j] == b;
      assert Followed(preds, color, pos, top, b);
    }
    var rank' := rank[cur := next];
    assert rank'.Keys == rank.Keys + {cur};
    forall n | n in rank' ensures FinishedNode(preds, rank', n) {
      assert n != cur ==> FinishedNode(preds, rank, n);
    }
  }

  lemma LeaveStep(preds: Map, color: map<Name, Color>, stack: seq<Frame>, pos: map<Name, nat>, path: seq<Name>,
                  rank: map<Name, nat>, next: nat)
    requires Searching(preds, color, stack, pos, path, rank, next) && stack != []
    requires var f := stack[|stack| - 1]; f.node in preds && f.followed >= |EdgesOf(preds[f.node])|
    ensures var (cur, top) := (stack[|stack| - 1].node, |stack| - 1);
            && Searching(preds, color[cur := Black], stack[..top], pos - {cur}, path[..top], rank[cur := next], next + 1)
            && Whites(color[cur := Black]) == Whites(color)
  {
    assert Framed(preds, color, stack, pos, |stack| - 1);
    PopStep(preds, color, stack, pos);
    FinishStep(preds, color, stack, pos, rank, next);
  }

  /** A search begins with one gray node. */
  lemma StartStep(preds: Map, color: map<Name, Color>, rank: map<Name, nat>, next: nat, start: Name)
    requires start in preds && start in color && color[start].White? && Finished(preds, color, rank, next)
    requires forall n :: n in preds ==> !color[n].Gray?
    ensures OnStack(preds, color[start := Gray], [Frame(start, 0)], map[start := 0])
    ensures Finished(preds, color[start := Gray], rank, next)
  {
    GrayKeepsFinished(preds, color, rank, next, start);
  }

  /** A gray node met again closes a cycle of the path. */
  lemma GrayClosesCycle(preds: Map, color: map<Name, Color>, stack: seq<Frame>, pos: map<Name, nat>, path: seq<Name>,
                        k: nat)
    requires OnStack(preds, color, stack, pos) && stack != []
    requires |path| == |stack| && forall i :: 0 <= i < |path| ==> path[i] == stack[i].node
    requires k < |path| && path[k] in EdgesOf(preds[stack[|stack| - 1].node])
    ensures IsCycle(preds, path[k..] + [path[k]])
  {
    var c := path[k..] + [path[k]];
    forall i: nat ensures Link(preds, c, i) {
      if i + 1 < |c| {
        assert c[i] == path[k + i];
        assert Framed(preds, color, stack, pos, k + i);
      }
    }
  }

  method PositionOf(path: seq<Name>, n: Name) returns (k: nat)
    requires n in path
    ensures k < |path| && path[k] == n
  {
    k := 0;
    while path[k] != n
      invariant k < |path| && forall j :: 0 <= j < k ==> path[j] != n
      decreases |path| - k
    {
      k := k + 1;
    }
  }

  /** The path list names the stack's nodes. */
  predicate Names(path: seq<Name>, stack: seq<Frame>) {
    |path| == |stack| && forall i :: 0 <= i < |path| ==> path[i] == stack[i].node
  }

  /** One edge of the top frame: into a white node, back to a gray one, or to be skipped. */
  method FollowEdge(preds: Map, color0: map<Name, Color>, stack0: seq<Frame>, path0: seq<Name>,
                    ghost pos0: map<Name, nat>,
                    ghost rank: map<Name, nat>, ghost number: nat)
    returns (cycle: Option<seq<Name>>, color: map<Name, Color>, stack: seq<Frame>, path: seq<Name>, ghost pos: map<Name, nat>)
    requires Searching(preds, color0, stack0, pos0, path0, rank, number) && stack0 != []
    requires var f := stack0[|stack0| - 1]; f.node in preds && f.followed < |EdgesOf(preds[f.node])|
    ensures cycle.Some? ==> IsCycle(preds, cycle.value)
    ensures cycle.None? ==> Searching(preds, color, stack, pos, path, rank, number) && stack != []
    ensures forall n :: n in pos0 ==> n in pos
    ensures cycle.None? ==>
      || Whites(color) < Whites(color0)
      || (color == color0 && |stack| == |stack0| && Remaining(preds, stack[|stack| - 1]) < Remaining(preds, stack0[|stack0| - 1]))
  {
    color, stack, path, pos := color0, Advance(stack0), path0, pos0;
    var top := |stack0| - 1;
    assert Framed(preds, color0, stack0, pos0, top);
    var next := EdgesOf(preds[stack0[top].node])[stack0[top].followed];
    cycle := None;
    if next in preds && color[next].White? {
      PushStep(preds, color0, stack0, pos0, next);
      GrayKeepsFinished(preds, color0, rank, number, next);
      color, pos, path, stack := color[next := Gray], pos[next := |stack0|], path + [next], stack + [Frame(next, 0)];
    } else if next in preds && color[next].Gray? {
      assert path[pos[next]] == next;
      var k := PositionOf(path, next);
      GrayClosesCycle(preds, color0, stack0, pos0, path, k);
      cycle := Some(path[k..] + [next]);
    } else {
      SkipStep(preds, color0, stack0, pos0, next);
    }
  }

  /** The top frame has no edge left: its node is done. */
  method Leave(preds: Map, color0: map<Name, Color>, stack0: seq<Frame>, path0: seq<Name>, ghost pos0: map<Name, nat>,
               ghost rank0: map<Name, nat>, ghost number0: nat)
    returns (color: map<Name, Color>, stack: seq<Frame>, path: seq<Name>, ghost pos: map<Name, nat>,
             ghost rank: map<Name, nat>, ghost number: nat)
    requires Searching(preds, color0, stack0, pos0, path0, rank0, number0) && stack0 != []
    requires var f := stack0[|stack0| - 1]; f.node in preds && f.followed >= |EdgesOf(preds[f.node])|
    ensures Searching(preds, color, stack, pos, path, rank, number) && Whites(color) == Whites(color0)
    ensures |stack| < |stack0|
    ensures forall n :: n in rank0 ==> n in rank
    ensures forall n :: n in pos0 ==> n in pos || n in rank
  {
    var top := |stack0| - 1;
    var cur := stack0[top].node;
    LeaveStep(preds, color0, stack0, pos0, path0, rank0, number0);
    color, stack, path := color0[cur := Black], stack0[..top], path0[..top];
    pos, rank, number := pos0 - {cur}, rank0[cur := number0], number0 + 1;
  }

  /** What shrinks: the white nodes, then the stack, then the top frame's edges. */
  ghost predicate Shrinks(preds: Map, color: map<Name, Color>, stack: seq<Frame>, color': map<Name, Color>,
                          stack': seq<Frame>) {
    || Whites(color') < Whites(color)
    || (Whites(color') == Whites(color) && |stack'| < |stack|)
    || (Whites(color') == Whites(color) && |stack'| == |stack| > 0
        && Remaining(preds, stack'[|stack| - 1]) < Remaining(preds, stack[|stack| - 1]))
  }

  method SearchStep(preds: Map, color0: map<Name, Color>, stack0: seq<Frame>, path0: seq<Name>,
                    ghost pos0: map<Name, nat>,
                    ghost rank0: map<Name, nat>, ghost number0: nat)
    returns (cycle: Option<seq<Name>>, color: map<Name, Color>, stack: seq<Frame>, path: seq<Name>,
             ghost pos: map<Name, nat>, ghost rank: map<Name, nat>, ghost number: nat)
    requires Searching(preds, color0, stack0, pos0, path0, rank0, number0) && stack0 != []
    ensures cycle.Some? ==> IsCycle(preds, cycle.value)
    ensures cycle.None? ==> Searching(preds, color, stack, pos, path, rank, number) && Shrinks(preds, color0, stack0, color, stack)
    ensures forall n :: n in rank0 ==> n in rank
    ensures forall n :: n in pos0 ==> n in pos || n in rank
  {
    var top := stack0[|stack0| - 1];
    TopIsFramed(preds, color0, stack0, pos0);
    if top.followed < |EdgesOf(preds[top.node])| {
      rank, number := rank0, number0;
      cycle, color, stack, path, pos := FollowEdge(preds, color0, stack0, path0, pos0, rank0, number0);
    } else {
      cycle := None;
      color, stack, path, pos, rank, number := Leave(preds, color0, stack0, path0, pos0, rank0, number0);
    }
  }

  /** Search from one white node: a cycle, or everything reachable is finished. */
  method SearchFrom(preds: Map, start: Name, color0: map<Name, Color>, ghost rank0: map<Name, nat>, ghost next0: nat)
    returns (cycle: Option<seq<Name>>, color: map<Name, Color>, ghost rank: map<Name, nat>, ghost number: nat)
    requires start in preds && start in color0 && color0[start].White?
    requires Finished(preds, color0, rank0, next0) && forall n :: n in preds ==> !color0[n].Gray?
    ensures cycle.Some? ==> IsCycle(preds, cycle.value)
    ensures cycle.None? ==>
      Finished(preds, color, rank, number)
        && (forall n :: n in preds ==> !color[n].Gray?) && start in rank && forall n :: n in rank0 ==> n in rank
  {
    StartStep(preds, color0, rank0, next0, start);
    color, rank, number := color0[start := Gray], rank0, next0;
    var stack, path := [Frame(start, 0)], [start];
    ghost var pos: map<Name, nat> := map[start := 0];
    while stack != []
      invariant Searching(preds, color, stack, pos, path, rank, number)
      invariant forall n :: n in rank0 ==> n in rank
      invariant start in rank || start in pos
      decreases Whites(color), |stack|, if stack == [] then 0 else Remaining(preds, stack[|stack| - 1])
    {
      TopIsFramed(preds, color, stack, pos);
      cycle, color, stack, path, pos, rank, number := SearchStep(preds, color, stack, path, pos, rank, number);
      if cycle.Some? { return; }
    }
    cycle := None;
  }

  ghost predicate Searching(preds: Map, color: map<Name, Color>, stack: seq<Frame>, pos: map<Name, nat>,
                            path: seq<Name>, rank: map<Name, nat>, number: nat) {
    OnStack(preds, color, stack, pos) && Finished(preds, color, rank, number) && Names(path, stack)
  }

  lemma TopIsFramed(preds: Map, color: map<Name, Color>, stack: seq<Frame>, pos: map<Name, nat>)
    requires OnStack(preds, color, stack, pos) && stack != []
    ensures var f := stack[|stack| - 1]; f.node in preds && f.followed <= |EdgesOf(preds[f.node])| && Remaining(preds, f) >= 0
  {
    assert Framed(preds, color, stack, pos, |stack| - 1);
  }

  ghost function Remaining(preds: Map, f: Frame): int {
    if f.node in preds then |EdgesOf(preds[f.node])| - f.followed else 0
  }

  method SearchAll(preds: Map, order: seq<Name>) returns (cycle: Option<seq<Name>>, color: map<Name, Color>,
                   ghost rank: map<Name, nat>, ghost next: nat)
    requires forall j :: 0 <= j < |order| ==> order[j] in preds
    ensures cycle.Some? ==> IsCycle(preds, cycle.value)
    ensures cycle.None? ==> Finished(preds, color, rank, next) && forall j :: 0 <= j < |order| ==> order[j] in rank
  {
    color := map n | n in preds :: White;
    rank, next := map[], 0;
    for i := 0 to |order|
      invariant Finished(preds, color, rank, next)
      invariant forall n :: n in preds ==> !color[n].Gray?
      invariant forall j :: 0 <= j < i ==> order[j] in rank
    {
      if color[order[i]].White? {
        cycle, color, rank, next := SearchFrom(preds, order[i], color, rank, next);
        if cycle.Some? { return; }
      }
    }
    cycle := None;
  }

  lemma AllFinishedIsRank(preds: Map, order: seq<Name>, color: map<Name, Color>, rank: map<Name, nat>, next: nat)
    requires Enumerates(order, preds) && Finished(preds, color, rank, next)
    requires forall j :: 0 <= j < |order| ==> order[j] in rank
    ensures IsRank(preds, rank)
  {
    forall n | n in preds ensures n in rank { assert n in order; }
    assert rank.Keys == preds.Keys;
    forall a, b | Edge(preds, a, b) ensures rank[b] < rank[a] { assert FinishedNode(preds, rank, a); }
  }

  /** The validator. It accepts exactly the well-shaped acyclic maps, an accepted map has
      a topological rank, and a reported cycle is a real one. */
  method ValidateGraph(preds: Map, order: seq<Name>) returns (r: Result<(), DslError>)
    requires Enumerates(order, preds)
    ensures r.Ok? <==> WellShaped(preds) && Acyclic(preds)
    ensures r.Ok? ==> exists rank :: IsRank(preds, rank)
    ensures r.Err? && r.error.PredicateCycle? ==> WellShaped(preds) && IsCycle(preds, r.error.cycle)
    ensures r.Err? && !r.error.PredicateCycle? ==> exists n :: n in preds && Complains(r.error, preds[n], preds, order)
  {
    var shape := ValidateShape(preds, order);
    if shape.Some? { return Err(shape.value); }
    forall j | 0 <= j < |order| ensures order[j] in preds { assert order[j] in order; }
    ghost var rank, next;
    var cycle, color;
    cycle, color, rank, next := SearchAll(preds, order);
    if cycle.Some? { return Err(PredicateCycle(cycle.value)); }
    AllFinishedIsRank(preds, order, color, rank, next);
    RankForbidsCycles(preds, rank);
    return Ok(());
  }
}
