/** E0107: a local used as if it had methods no single type defines together. */
module Constraints {
  import opened Strings
  import opened Types

  /** One call on a tracked local: the method, its span, and the type the receiver had. */
  datatype Use = Use(name: string, start: nat, end: nat, recv: Ty)

  datatype Verdict =
    | Quiet
    | Contradiction
    | Inferred(ty: string)
    | UnionCandidate(tys: seq<string>)

  /** `constraint_candidates`: the sorted, repeat-free type names that define a method. */
  type Candidates = string -> seq<string>

  ghost predicate Sorted(cands: Candidates) {
    forall m :: Increasing(cands(m))
  }

  // ----- the straight-line life of a binding -----

  datatype Event = Called(x: string, use: Use) | Rebound(x: string)

  /** The accumulator after `events`, from `base`: `collect_constraint` and `kill_constraint`. */
  function CollectFrom(base: map<string, seq<Use>>, events: seq<Event>): map<string, seq<Use>> {
    if events == [] then base
    else
      var before := CollectFrom(base, events[..|events| - 1]);
      match events[|events| - 1]
      case Called(x, use) => before[x := (if x in before then before[x] else []) + [use]]
      case Rebound(x) => before - {x}
  }

  /** What a scope has collected by its end. */
  function Collected(events: seq<Event>): map<string, seq<Use>> { CollectFrom(map[], events) }

  lemma {:induction false} CollectThen(base: map<string, seq<Use>>, a: seq<Event>, b: seq<Event>)
    ensures CollectFrom(base, a + b) == CollectFrom(CollectFrom(base, a), b)
    decreases |b|
  {
    if b == [] {
      assert a + b == a;
    } else {
      assert (a + b)[..|a + b| - 1] == a + b[..|b| - 1];
      CollectThen(base, a, b[..|b| - 1]);
    }
  }

  function UsesOf(events: seq<Event>, x: string): seq<Use> {
    if events == [] then []
    else
      var rest := UsesOf(events[..|events| - 1], x);
      var e := events[|events| - 1];
      if e.Called? && e.x == x then rest + [e.use] else rest
  }

  /** A call before the last reassignment never counts: what is kept for `x` are exactly
      its calls since then. */
  lemma {:induction false} OnlyCallsSinceRebinding(before: seq<Event>, after: seq<Event>, x: string)
    requires Rebound(x) !in after
    ensures var c := Collected(before + [Rebound(x)] + after);
            (if x in c then c[x] else []) == UsesOf(after, x)
    decreases |after|
  {
    var all := before + [Rebound(x)] + after;
    if after == [] {
      assert all[..|all| - 1] == before && all[|all| - 1] == Rebound(x);
    } else {
      assert all[..|all| - 1] == before + [Rebound(x)] + after[..|after| - 1];
      assert all[|all| - 1] == after[|after| - 1];
      OnlyCallsSinceRebinding(before, after[..|after| - 1], x);
    }
  }

  /** The events after the last reassignment of `x`. */
  function SinceRebound(events: seq<Event>, x: string): (r: seq<Event>)
    ensures Rebound(x) !in r
    ensures r == events || (exists n :: 0 <= n < |events| && events == events[..n] + [Rebound(x)] + r)
  {
    if events == [] then []
    else
      var last := events[|events| - 1];
      if last == Rebound(x) then
        assert events == events[..|events| - 1] + [Rebound(x)] + [];
        []
      else
        var front := events[..|events| - 1];
        var r := SinceRebound(front, x);
        assert front != r ==> exists n :: 0 <= n < |front| && events == events[..n] + [Rebound(x)] + (r + [last]) by {
          if front != r {
            var n :| 0 <= n < |front| && front == front[..n] + [Rebound(x)] + r;
            assert events == events[..n] + [Rebound(x)] + (r + [last]);
          }
        }
        r + [last]
  }

  lemma {:induction false} NeverRebound(events: seq<Event>, x: string)
    requires Rebound(x) !in events
    ensures var c := Collected(events); (if x in c then c[x] else []) == UsesOf(events, x)
    decreases |events|
  {
    if events != [] { NeverRebound(events[..|events| - 1], x); }
  }

  /** In any life of a scope: what it holds against `x` are the calls on `x` since its last reassignment. */
  lemma CollectedSinceRebound(events: seq<Event>, x: string)
    ensures var c := Collected(events); (if x in c then c[x] else []) == UsesOf(SinceRebound(events, x), x)
  {
    var r := SinceRebound(events, x);
    if r == events {
      NeverRebound(events, x);
    } else {
      var n :| 0 <= n < |events| && events == events[..n] + [Rebound(x)] + r;
      OnlyCallsSinceRebinding(events[..n], r, x);
    }
  }

  // ----- the verdict -----

  function Names(calls: seq<Use>): set<string> {
    set c | c in calls :: c.name
  }

  /** The distinct methods, in order of first use. */
  function Distinct(calls: seq<Use>): seq<string> {
    if calls == [] then []
    else
      var rest := Distinct(calls[..|calls| - 1]);
      var n := calls[|calls| - 1].name;
      if n in rest then rest else rest + [n]
  }

  function Retain(tys: seq<string>, keep: seq<string>): seq<string> {
    if tys == [] then []
    else Retain(tys[..|tys| - 1], keep) + (if tys[|tys| - 1] in keep then [tys[|tys| - 1]] else [])
  }

  function Intersect(methods: seq<string>, cands: Candidates): seq<string>
    requires methods != []
  {
    if |methods| == 1 then cands(methods[0])
    else Retain(Intersect(methods[..|methods| - 1], cands), cands(methods[|methods| - 1]))
  }

  function Classify(calls: seq<Use>, cands: Candidates): Verdict {
    var methods := Distinct(calls);
    if |methods| < 2 || (exists i :: 0 <= i < |methods| && cands(methods[i]) == []) then Quiet
    else Outcome(Intersect(methods, cands))
  }

  /** `intersection_outcome`, with the empty intersection in front. */
  function Outcome(tys: seq<string>): Verdict {
    if tys == [] then Contradiction
    else if |tys| == 1 then Inferred(tys[0])
    else if |tys| <= 4 then UnionCandidate(tys)
    else Quiet
  }

  lemma {:induction false} DistinctIsNames(calls: seq<Use>)
    ensures forall n :: n in Distinct(calls) <==> n in Names(calls)
    ensures forall i, j :: 0 <= i < j < |Distinct(calls)| ==> Distinct(calls)[i] != Distinct(calls)[j]
    ensures |Distinct(calls)| == |Names(calls)|
  {
    if calls != [] {
      var front, last := calls[..|calls| - 1], calls[|calls| - 1];
      DistinctIsNames(front);
      assert calls == front + [last];
      assert Names(calls) == Names(front) + {last.name};
    }
  }

  lemma {:induction false} RetainKeeps(tys: seq<string>, keep: seq<string>)
    ensures forall x :: x in Retain(tys, keep) <==> x in tys && x in keep
    ensures Increasing(tys) ==> Increasing(Retain(tys, keep))
  {
    if tys != [] {
      var front, last := tys[..|tys| - 1], tys[|tys| - 1];
      RetainKeeps(front, keep);
      assert tys == front + [last];
      if Increasing(tys) {
        assert forall x :: x in front ==> Less(x, last);
        assert forall i :: 0 <= i < |Retain(front, keep)| ==> Retain(front, keep)[i] in front;
      }
    }
  }

  lemma {:induction false} IntersectMeaning(methods: seq<string>, cands: Candidates)
    requires methods != [] && Sorted(cands)
    ensures forall x :: x in Intersect(methods, cands) <==> forall m :: m in methods ==> x in cands(m)
    ensures Increasing(Intersect(methods, cands))
  {
    if |methods| > 1 {
      var front, last := methods[..|methods| - 1], methods[|methods| - 1];
      IntersectMeaning(front, cands);
      RetainKeeps(Intersect(front, cands), cands(last));
      assert methods == front + [last];
    }
  }

  /** Does type `t` define every method the binding was called with? */
  ghost predicate Answers(calls: seq<Use>, cands: Candidates, t: string) {
    forall n :: n in Names(calls) ==> t in cands(n)
  }

  ghost predicate Traceable(calls: seq<Use>, cands: Candidates) {
    |Names(calls)| >= 2 && forall n :: n in Names(calls) ==> cands(n) != []
  }

  /** E0107 fires exactly when two or more distinct methods were called, each is defined
      by some type, and no type defines them all. */
  lemma ContradictionIff(calls: seq<Use>, cands: Candidates)
    requires Sorted(cands)
    ensures Classify(calls, cands) == Contradiction <==>
            Traceable(calls, cands) && !exists t :: Answers(calls, cands, t)
  {
    var methods := Distinct(calls);
    DistinctIsNames(calls);
    if Traceable(calls, cands) {
      IntersectMeaning(methods, cands);
      var tys := Intersect(methods, cands);
      if tys != [] {
        assert tys[0] in tys && Answers(calls, cands, tys[0]);
      }
      if t :| Answers(calls, cands, t) {
        assert t in tys;
      }
    } else if |methods| >= 2 {
      var n :| n in Names(calls) && cands(n) == [];
      assert n in methods;
    }
  }

  /** A traceable binding with no answering type is a contradiction, with one inferred, with two to four listed. */
  predicate Decided(v: Verdict, tys: seq<string>) {
    match v
    case Contradiction => tys == []
    case Inferred(t) => tys == [t]
    case UnionCandidate(all) => tys == all && 2 <= |tys| <= 4
    case Quiet => |tys| > 4
  }

  /** The verdict is decided by the sorted list of exactly the answering types; an untraceable binding stays quiet. */
  lemma AnswersListed(calls: seq<Use>, cands: Candidates)
    requires Sorted(cands)
    ensures !Traceable(calls, cands) ==> Classify(calls, cands) == Quiet
    ensures Traceable(calls, cands) ==>
      exists tys :: Increasing(tys) && (forall t :: t in tys <==> Answers(calls, cands, t)) &&
                    Decided(Classify(calls, cands), tys)
  {
    if Traceable(calls, cands) {
      TraceableListed(calls, cands);
    } else {
      DistinctIsNames(calls);
      if |Names(calls)| >= 2 {
        var n :| n in Names(calls) && cands(n) == [];
        assert n in Distinct(calls);
      }
    }
  }

  lemma TraceableListed(calls: seq<Use>, cands: Candidates)
    requires Sorted(cands) && Traceable(calls, cands)
    ensures exists tys :: Increasing(tys) && (forall t :: t in tys <==> Answers(calls, cands, t)) &&
                          Decided(Classify(calls, cands), tys)
  {
    DistinctIsNames(calls);
    var methods := Distinct(calls);
    IntersectMeaning(methods, cands);
    var tys := Intersect(methods, cands);
    assert forall t :: t in tys <==> Answers(calls, cands, t);
  }

  /** Reordering or repeating calls changes no verdict: only the set of methods counts. */
  lemma VerdictByMethodSet(a: seq<Use>, b: seq<Use>, cands: Candidates)
    requires Sorted(cands) && Names(a) == Names(b)
    ensures Classify(a, cands) == Classify(b, cands)
  {
    DistinctIsNames(a);
    DistinctIsNames(b);
    var ma, mb := Distinct(a), Distinct(b);
    if Traceable(a, cands) {
      IntersectMeaning(ma, cands);
      IntersectMeaning(mb, cands);
      IncreasingUnique(Intersect(ma, cands), Intersect(mb, cands));
    } else if |ma| >= 2 {
      var n :| n in Names(a) && cands(n) == [];
      assert n in ma && n in mb;
    }
  }

  // ----- the loops of `classify_binding` -----

  /** Dedupe by method, look the candidates up, intersect by `retain`. */
  method ClassifyBinding(calls: seq<Use>, cands: Candidates) returns (v: Verdict)
    ensures v == Classify(calls, cands)
  {
    var seen: set<string> := {};
    var deduped: seq<string> := [];
    for i := 0 to |calls|
      invariant deduped == Distinct(calls[..i])
      invariant forall n :: n in seen <==> n in deduped
    {
      assert calls[..i + 1][..i] == calls[..i];
      if calls[i].name !in seen {
        seen := seen + {calls[i].name};
        deduped := deduped + [calls[i].name];
      }
    }
    assert calls[..|calls|] == calls;
    if |deduped| < 2 { return Quiet; }
    for i := 0 to |deduped|
      invariant forall j :: 0 <= j < i ==> cands(deduped[j]) != []
    {
      if cands(deduped[i]) == [] { return Quiet; }
    }
    var intersection := cands(deduped[0]);
    for i := 1 to |deduped|
      invariant intersection == Intersect(deduped[..i], cands)
    {
      assert deduped[..i + 1][..i] == deduped[..i];
      intersection := RetainIn(intersection, cands(deduped[i]));
    }
    assert deduped[..|deduped|] == deduped;
    return Outcome(intersection);
  }

  /** `Vec::retain` */
  method RetainIn(tys: seq<string>, keep: seq<string>) returns (r: seq<string>)
    ensures r == Retain(tys, keep)
  {
    r := [];
    for i := 0 to |tys|
      invariant r == Retain(tys[..i], keep)
    {
      assert tys[..i + 1][..i] == tys[..i];
      if tys[i] in keep { r := r + [tys[i]]; }
    }
    assert tys[..|tys|] == tys;
  }
}
