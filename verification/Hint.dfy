/** The did-you-mean helper: names within one edit of a misspelt one. */
module Hint {
  import opened Common

  // ----- The reference: Levenshtein distance -----

  function Min(a: nat, b: nat): nat {
    if a <= b then a else b
  }

  ghost function Distance(a: string, b: string): nat
    decreases |a| + |b|
  {
    if a == [] then |b|
    else if b == [] then |a|
    else
      Min(Min(Distance(a[1..], b) + 1, Distance(a, b[1..]) + 1),
          Distance(a[1..], b[1..]) + if a[0] == b[0] then 0 else 1)
  }

  lemma {:induction false} DistanceZero(a: string, b: string)
    ensures Distance(a, b) == 0 <==> a == b
    decreases |a| + |b|
  {
    if a != [] && b != [] {
      DistanceZero(a[1..], b[1..]);
      if a == b { assert a[1..] == b[1..]; }
      if a[0] == b[0] && a[1..] == b[1..] { assert a == [a[0]] + a[1..] && b == [b[0]] + b[1..]; }
    }
  }

  lemma {:induction false} DistanceAtLeastLengthGap(a: string, b: string)
    ensures Distance(a, b) >= |a| - |b| && Distance(a, b) >= |b| - |a|
    decreases |a| + |b|
  {
    if a != [] && b != [] {
      DistanceAtLeastLengthGap(a[1..], b);
      DistanceAtLeastLengthGap(a, b[1..]);
      DistanceAtLeastLengthGap(a[1..], b[1..]);
    }
  }

  /** One more letter in front costs one edit. */
  lemma DistanceOfInsertion(a: string)
    requires a != []
    ensures Distance(a, a[1..]) <= 1 && Distance(a[1..], a) <= 1
  {
    DistanceZero(a[1..], a[1..]);
  }

  /** A common first letter changes nothing about being within one edit. */
  lemma CommonHead(a: string, b: string)
    requires a != [] && b != [] && a[0] == b[0]
    ensures Distance(a, b) <= 1 <==> Distance(a[1..], b[1..]) <= 1
  {
    DistanceZero(a[1..], b);
    DistanceZero(a, b[1..]);
    if a[1..] == b { DistanceOfInsertion(b); }
    if a == b[1..] { DistanceOfInsertion(a); }
  }

  /** With different first letters, the one edit is spent here. */
  lemma DifferentHead(a: string, b: string)
    requires a != [] && b != [] && a[0] != b[0]
    ensures Distance(a, b) <= 1 <==> a[1..] == b || a == b[1..] || a[1..] == b[1..]
  {
    DistanceZero(a[1..], b);
    DistanceZero(a, b[1..]);
    DistanceZero(a[1..], b[1..]);
  }

  lemma {:induction false} DistanceSymmetric(a: string, b: string)
    ensures Distance(a, b) == Distance(b, a)
    decreases |a| + |b|
  {
    if a != [] && b != [] {
      DistanceSymmetric(a[1..], b);
      DistanceSymmetric(a, b[1..]);
      DistanceSymmetric(a[1..], b[1..]);
    }
  }

  // ----- The greedy test -----

  ghost function Mismatches(a: string, b: string): nat
    requires |a| == |b|
  {
    if a == [] then 0 else (if a[0] == b[0] then 0 else 1) + Mismatches(a[1..], b[1..])
  }

  lemma {:induction false} NoMismatch(a: string, b: string)
    requires |a| == |b|
    ensures Mismatches(a, b) == 0 <==> a == b
  {
    if a != [] {
      NoMismatch(a[1..], b[1..]);
      assert a == [a[0]] + a[1..] && b == [b[0]] + b[1..];
    }
  }

  lemma {:induction false} SubstitutionIsDistance(a: string, b: string)
    requires |a| == |b|
    ensures Mismatches(a, b) <= 1 <==> Distance(a, b) <= 1
  {
    if a != [] {
      SubstitutionIsDistance(a[1..], b[1..]);
      if a[0] == b[0] {
        CommonHead(a, b);
      } else {
        DifferentHead(a, b);
        NoMismatch(a[1..], b[1..]);
      }
    }
  }

  /** `longer` is `shorter` with one letter put in somewhere. */
  ghost predicate Inserts(shorter: string, longer: string)
    requires |longer| == |shorter| + 1
  {
    if shorter == [] then true
    else if shorter[0] == longer[0] then Inserts(shorter[1..], longer[1..])
    else shorter == longer[1..]
  }

  lemma {:induction false} InsertionIsDistance(shorter: string, longer: string)
    requires |longer| == |shorter| + 1
    ensures Inserts(shorter, longer) <==> Distance(shorter, longer) <= 1
  {
    if shorter != [] {
      if shorter[0] == longer[0] {
        InsertionIsDistance(shorter[1..], longer[1..]);
        CommonHead(shorter, longer);
      } else {
        DifferentHead(shorter, longer);
      }
    }
  }

  method IsInsertion(shorter: string, longer: string) returns (yes: bool)
    ensures yes <==> |longer| == |shorter| + 1 && Distance(shorter, longer) <= 1
  {
    if |longer| != |shorter| + 1 { return false; }
    InsertionIsDistance(shorter, longer);
    var si, foundGap := 0, false;
    for i := 0 to |longer|
      invariant si == (if foundGap then i - 1 else i) && 0 <= si <= |shorter|
      invariant !foundGap ==> (Inserts(shorter, longer) <==>
        if si < |shorter| then Inserts(shorter[si..], longer[i..]) else true)
      invariant foundGap ==> (Inserts(shorter, longer) <==> shorter[si..] == longer[i..])
    {
      if si < |shorter| && shorter[si] == longer[i] {
        assert shorter[si..] == [shorter[si]] + shorter[si + 1..] && longer[i..] == [longer[i]] + longer[i + 1..];
        si := si + 1;
      } else {
        if foundGap {
          assert si < |shorter| ==> shorter[si..][0] != longer[i..][0];
          return false;
        }
        assert si < |shorter| ==> longer[i..][1..] == longer[i + 1..];
        foundGap := true;
      }
    }
    return true;
  }

  /** The greedy test is exactly Levenshtein distance at most one. */
  method DistanceAtMost1(a: string, b: string) returns (yes: bool)
    ensures yes <==> Distance(a, b) <= 1
  {
    DistanceAtLeastLengthGap(a, b);
    if |a| == |b| {
      SubstitutionIsDistance(a, b);
      var diff := 0;
      for i := 0 to |a|
        invariant diff <= 1
        invariant Mismatches(a, b) == diff + Mismatches(a[i..], b[i..])
      {
        assert a[i..][1..] == a[i + 1..] && b[i..][1..] == b[i + 1..];
        if a[i] != b[i] {
          diff := diff + 1;
          if diff > 1 { return false; }
        }
      }
      return diff <= 1;
    } else if |a| < |b| {
      yes := IsInsertion(a, b);
    } else {
      DistanceSymmetric(a, b);
      yes := IsInsertion(b, a);
    }
  }

  /** The hint for a name: the first candidate within one edit, unless that is the name
      itself; none when no candidate is that close. */
  ghost predicate IsHint(needle: string, candidates: seq<string>, hint: Option<string>) {
    && ((exists i :: 0 <= i < |candidates| && Distance(needle, candidates[i]) <= 1) ==>
          exists i :: 0 <= i < |candidates| && Distance(needle, candidates[i]) <= 1
            && (forall j :: 0 <= j < i ==> Distance(needle, candidates[j]) > 1)
            && hint == if candidates[i] == needle then None else Some(candidates[i]))
    && ((forall i :: 0 <= i < |candidates| ==> Distance(needle, candidates[i]) > 1) ==> hint == None)
  }

  method DidYouMean(needle: string, candidates: seq<string>) returns (hint: Option<string>)
    ensures IsHint(needle, candidates, hint)
  {
    for n := 0 to |candidates|
      invariant forall j :: 0 <= j < n ==> Distance(needle, candidates[j]) > 1
    {
      DistanceZero(needle, candidates[n]);
      if candidates[n] == needle { return None; }
      var close := DistanceAtMost1(needle, candidates[n]);
      if close { return Some(candidates[n]); }
    }
    return None;
  }
}
