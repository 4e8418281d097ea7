/** Action arbitration: at most one program's watch steps dispatch per tick. */
module Arbiter {
  import opened Common
  import opened Program

  datatype Candidate<T> = Candidate(id: Pid, priority: int, payload: T)
  datatype Ruling<T> = Ruling(id: Pid, payload: T, dispatch: bool, loserOf: Option<Pid>)

  /** The order candidates are compared in: priority, then id. */
  predicate AtMost(p: int, a: Pid, q: int, b: Pid) {
    p < q || (p == q && a <= b)
  }

  /** `max_by`: a later candidate replaces an equal earlier one. */
  function MaxBy<T>(cs: seq<Candidate<T>>): (w: Candidate<T>)
    requires cs != []
    ensures w in cs
    ensures forall c :: c in cs ==> c.priority < w.priority || (c.priority == w.priority && c.id <= w.id)
  {
    if |cs| == 1 then cs[0]
    else
      var best, last := MaxBy(cs[..|cs| - 1]), cs[|cs| - 1];
      if AtMost(best.priority, best.id, last.priority, last.id) then last else best
  }

  function Resolve<T>(cs: seq<Candidate<T>>): seq<Ruling<T>> {
    if |cs| <= 1 then seq(|cs|, i requires 0 <= i < |cs| => Ruling(cs[i].id, cs[i].payload, true, None))
    else
      var winner := MaxBy(cs).id;
      seq(|cs|, i requires 0 <= i < |cs| =>
        Ruling(cs[i].id, cs[i].payload, cs[i].id == winner, if cs[i].id == winner then None else Some(winner)))
  }

  ghost predicate DistinctIds<T>(cs: seq<Candidate<T>>) {
    forall i, j :: 0 <= i < j < |cs| ==> cs[i].id != cs[j].id
  }

  /** No candidate has a higher priority, nor the same with a higher id. */
  ghost predicate Exceeds<T>(c: Candidate<T>, cs: seq<Candidate<T>>) {
    forall d :: d in cs ==> d.priority < c.priority || (d.priority == c.priority && d.id <= c.id)
  }

  /** `w` is the program that must win among `cs`. */
  ghost predicate Wins<T>(cs: seq<Candidate<T>>, w: Pid) {
    exists c :: c in cs && c.id == w && Exceeds(c, cs)
  }

  /** One ruling per candidate, in order and payload intact; the maximum alone
      dispatches, and every loser names it. */
  lemma ResolveRules<T>(cs: seq<Candidate<T>>) returns (w: Pid)
    requires cs != [] && DistinctIds(cs)
    ensures Wins(cs, w)
    ensures |Resolve(cs)| == |cs|
    ensures forall i :: 0 <= i < |cs| ==>
      Resolve(cs)[i] == Ruling(cs[i].id, cs[i].payload, cs[i].id == w, if cs[i].id == w then None else Some(w))
    ensures exists i :: 0 <= i < |cs| && Resolve(cs)[i].dispatch && forall j :: 0 <= j < |cs| && Resolve(cs)[j].dispatch ==> j == i
  {
    var m := MaxBy(cs);
    w := m.id;
    assert Exceeds(m, cs) && Wins(cs, w);
    var i :| 0 <= i < |cs| && cs[i] == m;
    assert Resolve(cs)[i].dispatch;
  }

  /** The winner does not depend on the order candidates arrive in. */
  lemma WinnerIgnoresOrder<T>(cs: seq<Candidate<T>>, ds: seq<Candidate<T>>, v: Pid, w: Pid)
    requires multiset(cs) == multiset(ds)
    requires Wins(cs, v) && Wins(ds, w)
    ensures v == w
  {
    var c :| c in cs && c.id == v && Exceeds(c, cs);
    var d :| d in ds && d.id == w && Exceeds(d, ds);
    assert c in multiset(ds) && d in multiset(cs);
  }
}
