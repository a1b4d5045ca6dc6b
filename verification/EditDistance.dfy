/** Did-you-mean: bounded Levenshtein distance over two swapped rows, and the choice of the
    closest candidate. */
module EditDistance {
  import opened Types
  import opened Strings

  function Min(a: nat, b: nat): nat { if a < b then a else b }

  function Max(a: nat, b: nat): nat { if a < b then b else a }

  function Front(s: string): string
    requires s != []
  {
    s[..|s| - 1]
  }

  function Last(s: string): char
    requires s != []
  {
    s[|s| - 1]
  }

  function Differ(a: char, b: char): nat { if a == b then 0 else 1 }

  function Lev(a: string, b: string): nat
    decreases |a| + |b|
  {
    if a == [] then |b|
    else if b == [] then |a|
    else Min(Min(Lev(Front(a), b) + 1, Lev(a, Front(b)) + 1), Lev(Front(a), Front(b)) + Differ(Last(a), Last(b)))
  }

  // ----- edit scripts, the independent meaning of the distance -----

  datatype Edit = Insert(c: char) | Delete | Replace(c: char)

  /** What the script makes of `a`; None when it does not fit `a`. */
  function Apply(script: seq<Edit>, a: string): Option<string> {
    if script == [] then (if a == [] then Some([]) else None)
    else
      var rest, e := script[..|script| - 1], script[|script| - 1];
      match e
      case Insert(c) => (match Apply(rest, a) case Some(r) => Some(r + [c]) case None => None)
      case Delete => if a == [] then None else Apply(rest, Front(a))
      case Replace(c) =>
        if a == [] then None else (match Apply(rest, Front(a)) case Some(r) => Some(r + [c]) case None => None)
  }

  /** One per insertion, deletion, and replacement by another character. */
  function Cost(script: seq<Edit>, a: string): nat {
    if script == [] then 0
    else
      var rest, e := script[..|script| - 1], script[|script| - 1];
      if e.Insert? then Cost(rest, a) + 1
      else if a == [] then 0
      else Cost(rest, Front(a)) + (if e.Delete? then 1 else Differ(Last(a), e.c))
  }

  /** No script from `a` to `b` is cheaper than the distance. */
  lemma {:induction false} ScriptsCostAtLeast(script: seq<Edit>, a: string, b: string)
    requires Apply(script, a) == Some(b)
    ensures Cost(script, a) >= Lev(a, b)
    decreases |script|
  {
    if script != [] {
      var rest, e := script[..|script| - 1], script[|script| - 1];
      match e
      case Insert(c) =>
        assert b != [] && Front(b) == Apply(rest, a).value;
        ScriptsCostAtLeast(rest, a, Front(b));
      case Delete =>
        ScriptsCostAtLeast(rest, Front(a), b);
      case Replace(c) =>
        assert b != [] && Front(b) == Apply(rest, Front(a)).value;
        ScriptsCostAtLeast(rest, Front(a), Front(b));
    }
  }

  /** Some script from `a` to `b` costs exactly the distance. */
  lemma {:induction false} BestScript(a: string, b: string) returns (script: seq<Edit>)
    ensures Apply(script, a) == Some(b) && Cost(script, a) == Lev(a, b)
    decreases |a| + |b|
  {
    if a == [] && b == [] {
      script := [];
    } else {
      var rest, e;
      if a == [] || (b != [] && Lev(a, b) == Lev(a, Front(b)) + 1) {
        rest := BestScript(a, Front(b));
        e := Insert(Last(b));
      } else if b == [] || Lev(a, b) == Lev(Front(a), b) + 1 {
        rest := BestScript(Front(a), b);
        e := Delete;
      } else {
        rest := BestScript(Front(a), Front(b));
        e := Replace(Last(b));
      }
      script := rest + [e];
      assert script[..|script| - 1] == rest && script[|script| - 1] == e;
      if b != [] { assert Front(b) + [Last(b)] == b; }
    }
  }

  // ----- bounds the early exits rely on -----

  lemma {:induction false} LengthGap(a: string, b: string)
    ensures Lev(a, b) >= Max(|a|, |b|) - Min(|a|, |b|)
    decreases |a| + |b|
  {
    if a != [] && b != [] {
      LengthGap(Front(a), b);
      LengthGap(a, Front(b));
      LengthGap(Front(a), Front(b));
    }
  }

  /** `D(i, j)`: the distance between the first `i` and the first `j` characters. */
  ghost function D(a: string, b: string, i: nat, j: nat): nat
    requires i <= |a| && j <= |b|
  {
    Lev(a[..i], b[..j])
  }

  lemma DStep(a: string, b: string, i: nat, j: nat)
    requires i <= |a| && j <= |b|
    ensures i == 0 ==> D(a, b, i, j) == j
    ensures j == 0 ==> D(a, b, i, j) == i
    ensures i > 0 && j > 0 ==>
            D(a, b, i, j) == Min(Min(D(a, b, i - 1, j) + 1, D(a, b, i, j - 1) + 1),
                                 D(a, b, i - 1, j - 1) + Differ(a[i - 1], b[j - 1]))
  {
    if i > 0 { assert Front(a[..i]) == a[..i - 1]; }
    if j > 0 { assert Front(b[..j]) == b[..j - 1]; }
  }

  /** Every entry of row `i` is above `m`. */
  ghost predicate RowAbove(a: string, b: string, i: nat, m: nat)
    requires i <= |a|
  {
    forall j :: 0 <= j <= |b| ==> D(a, b, i, j) > m
  }

  /** A row above the cutoff keeps every later row above it. */
  lemma {:induction false} RowsStayAbove(a: string, b: string, i: nat, k: nat, m: nat)
    requires i <= k <= |a| && RowAbove(a, b, i, m)
    ensures RowAbove(a, b, k, m)
    decreases k
  {
    if i < k {
      RowsStayAbove(a, b, i, k - 1, m);
      RowAboveNext(a, b, k, |b|, m);
    }
  }

  lemma {:induction false} RowAboveNext(a: string, b: string, k: nat, j: nat, m: nat)
    requires 0 < k <= |a| && j <= |b| && RowAbove(a, b, k - 1, m)
    ensures forall h :: 0 <= h <= j ==> D(a, b, k, h) > m
    decreases j
  {
    DStep(a, b, k, j);
    if j > 0 {
      RowAboveNext(a, b, k, j - 1, m);
    } else {
      DStep(a, b, k - 1, 0);
      assert D(a, b, k - 1, 0) > m;
    }
  }

  /** What the loop returns: 3 for a length gap or an abandoned row, else the distance. */
  ghost function Saturated(a: string, b: string): nat {
    if Max(|a|, |b|) - Min(|a|, |b|) > 2 then 3
    else if exists i :: 0 < i <= |a| && RowAbove(a, b, i, 2) then 3
    else Lev(a, b)
  }

  /** The first `n` entries of `row` are row `i` of the table. */
  ghost predicate IsRow(a: string, b: string, i: nat, row: seq<nat>, n: nat)
    requires i <= |a|
  {
    n <= |row| == |b| + 1 && forall j :: 0 <= j < n ==> row[j] == D(a, b, i, j)
  }

  ghost predicate LeastOf(min: nat, row: seq<nat>) {
    min in row && forall x :: x in row ==> min <= x
  }

  lemma RowMinDecides(a: string, b: string, i: nat, row: seq<nat>, min: nat)
    requires i <= |a| && IsRow(a, b, i, row, |b| + 1)
    requires LeastOf(min, row)
    ensures min > 2 <==> RowAbove(a, b, i, 2)
  {
    var k :| 0 <= k < |row| && row[k] == min;
    assert D(a, b, i, k) == min;
    forall j | 0 <= j <= |b| ensures D(a, b, i, j) >= min {
      assert row[j] == D(a, b, i, j) && row[j] in row;
    }
  }

  /** `edit_distance`: exact up to 2, above 2 whenever the true distance is. */
  method Distance(a: string, b: string) returns (d: nat)
    ensures d == Saturated(a, b)
    ensures d <= 2 <==> Lev(a, b) <= 2
    ensures d <= 2 ==> d == Lev(a, b)
  {
    LengthGap(a, b);
    if Max(|a|, |b|) - Min(|a|, |b|) > 2 { return 3; }
    var prev := new nat[|b| + 1](j requires 0 <= j <= |b| => j);
    var cur := new nat[|b| + 1](_ => 0);
    forall j | 0 <= j <= |b| ensures prev[j] == D(a, b, 0, j) { DStep(a, b, 0, j); }
    for i := 0 to |a|
      invariant prev.Length == cur.Length == |b| + 1 && prev != cur && fresh(prev) && fresh(cur)
      invariant IsRow(a, b, i, prev[..], |b| + 1)
      invariant forall k :: 0 < k <= i ==> !RowAbove(a, b, k, 2)
    {
      var rowMin := NextRow(a, b, i, prev, cur);
      RowMinDecides(a, b, i + 1, cur[..], rowMin);
      if rowMin > 2 {
        RowsStayAbove(a, b, i + 1, |a|, 2);
        assert D(a, b, |a|, |b|) > 2 && a[..|a|] == a && b[..|b|] == b;
        return 3;
      }
      prev, cur := cur, prev;
    }
    assert a[..|a|] == a && b[..|b|] == b && prev[..][|b|] == D(a, b, |a|, |b|);
    return prev[|b|];
  }

  /** One row of the table, with its minimum. */
  method NextRow(a: string, b: string, i: nat, prev: array<nat>, cur: array<nat>) returns (rowMin: nat)
    requires i < |a| && prev.Length == cur.Length == |b| + 1 && prev != cur
    requires IsRow(a, b, i, prev[..], |b| + 1)
    modifies cur
    ensures IsRow(a, b, i + 1, cur[..], |b| + 1)
    ensures LeastOf(rowMin, cur[..])
  {
    ghost var above := prev[..];
    DStep(a, b, i + 1, 0);
    cur[0] := i + 1;
    rowMin := cur[0];
    for j := 0 to |b|
      invariant prev[..] == above
      invariant IsRow(a, b, i + 1, cur[..], j + 1)
      invariant LeastOf(rowMin, cur[..j + 1])
    {
      DStep(a, b, i + 1, j + 1);
      assert above[j] == D(a, b, i, j) && above[j + 1] == D(a, b, i, j + 1);
      ghost var done := cur[..j + 1];
      assert cur[..][j] == D(a, b, i + 1, j);
      cur[j + 1] := Min(Min(prev[j + 1] + 1, cur[j] + 1), prev[j] + Differ(a[i], b[j]));
      rowMin := Min(rowMin, cur[j + 1]);
      assert cur[..j + 2] == done + [cur[j + 1]];
    }
    assert cur[..|b| + 1] == cur[..];
  }

  // ----- how far past the cutoff the answer can go -----

  lemma {:induction false} Extend(a: string, b: string, i: nat, j: nat, k: nat)
    requires i <= |a| && j <= k <= |b|
    ensures D(a, b, i, k) <= D(a, b, i, j) + (k - j)
    decreases k
  {
    if j < k {
      Extend(a, b, i, j, k - 1);
      DStep(a, b, i, k);
      if i == 0 { DStep(a, b, i, k - 1); }
    }
  }

  /** The source's comment says distant pairs report 3; they can report up to 6, and no more: the answer passes 3
      exactly when neither exit is taken and the true distance does. */
  lemma AtMostSix(a: string, b: string)
    ensures Saturated(a, b) <= 6
    ensures Saturated(a, b) > 3 <==>
            && Max(|a|, |b|) - Min(|a|, |b|) <= 2
            && (forall i :: 0 < i <= |a| ==> !RowAbove(a, b, i, 2))
            && Lev(a, b) > 3
  {
    var gap := Max(|a|, |b|) - Min(|a|, |b|) > 2;
    assert a[..|a|] == a && b[..|b|] == b;
    if !gap && a != [] && !RowAbove(a, b, |a|, 2) {
      var j :| 0 <= j <= |b| && D(a, b, |a|, j) <= 2;
      LengthGap(a, b[..j]);
      Extend(a, b, |a|, j, |b|);
    } else if a == [] {
      DStep(a, b, 0, |b|);
    }
  }

  predicate Cell(prev: seq<nat>, next: seq<nat>, c: char, b: string, j: nat)
    requires j < |b| && |prev| == |next| == |b| + 1
  {
    next[j + 1] == Min(Min(prev[j + 1] + 1, next[j] + 1), prev[j] + Differ(c, b[j]))
  }

  lemma {:induction false} RowFollows(a: string, b: string, i: nat, prev: seq<nat>, next: seq<nat>, n: nat)
    requires i < |a| && n <= |b| && IsRow(a, b, i, prev, |b| + 1)
    requires |next| == |b| + 1 && next[0] == i + 1 && forall j :: 0 <= j < |b| ==> Cell(prev, next, a[i], b, j)
    ensures IsRow(a, b, i + 1, next, n + 1)
    decreases n
  {
    DStep(a, b, i + 1, n);
    if n > 0 {
      RowFollows(a, b, i, prev, next, n - 1);
      assert Cell(prev, next, a[i], b, n - 1);
    }
  }

  /** Two pairs of letters against the same pairs swapped around another pair, such as "aabb" against "bbccaa". */
  predicate Crossed(a: string, b: string) {
    && |a| == 4 && |b| == 6
    && a[0] == a[1] == b[4] == b[5] && a[2] == a[3] == b[0] == b[1] && b[2] == b[3]
    && a[0] != a[2] && a[2] != b[2] && b[2] != a[0]
  }

  lemma CrossedRow(a: string, b: string, i: nat, prev: seq<nat>, next: seq<nat>)
    requires Crossed(a, b) && i < 4 && IsRow(a, b, i, prev, 7) && |next| == 7 && next[0] == i + 1
    requires Cell(prev, next, a[i], b, 0) && Cell(prev, next, a[i], b, 1) && Cell(prev, next, a[i], b, 2)
    requires Cell(prev, next, a[i], b, 3) && Cell(prev, next, a[i], b, 4) && Cell(prev, next, a[i], b, 5)
    ensures IsRow(a, b, i + 1, next, 7)
  {
    forall j | 0 <= j < 6 ensures Cell(prev, next, a[i], b, j) {}
    RowFollows(a, b, i, prev, next, 6);
  }

  lemma FirstRow(a: string, b: string, row: seq<nat>)
    requires |row| == |b| + 1 && forall j :: 0 <= j < |row| ==> row[j] == j
    ensures IsRow(a, b, 0, row, |b| + 1)
  {
    forall j | 0 <= j <= |b| ensures row[j] == D(a, b, 0, j) { DStep(a, b, 0, j); }
  }

  lemma TwoRows(a: string, b: string, r1: seq<nat>, r2: seq<nat>)
    requires Crossed(a, b) && r1 == [1, 1, 2, 3, 4, 4, 5] && r2 == [2, 2, 2, 3, 4, 4, 4]
    ensures IsRow(a, b, 1, r1, 7) && IsRow(a, b, 2, r2, 7)
  {
    var r0: seq<nat> := [0, 1, 2, 3, 4, 5, 6];
    FirstRow(a, b, r0);
    CrossedRow(a, b, 0, r0, r1);
    CrossedRow(a, b, 1, r1, r2);
  }

  lemma LastRows(a: string, b: string, r2: seq<nat>, r3: seq<nat>, r4: seq<nat>)
    requires Crossed(a, b) && IsRow(a, b, 2, r2, 7) && r2 == [2, 2, 2, 3, 4, 4, 4]
    requires r3 == [3, 2, 2, 3, 4, 5, 5] && r4 == [4, 3, 2, 3, 4, 5, 6]
    ensures IsRow(a, b, 3, r3, 7) && IsRow(a, b, 4, r4, 7)
  {
    CrossedRow(a, b, 2, r2, r3);
    CrossedRow(a, b, 3, r3, r4);
  }

  /** Such a pair reports 6. */
  lemma SixIsReached(a: string, b: string)
    requires Crossed(a, b)
    ensures Saturated(a, b) == 6
  {
    var r1: seq<nat>, r2: seq<nat> := [1, 1, 2, 3, 4, 4, 5], [2, 2, 2, 3, 4, 4, 4];
    var r3: seq<nat>, r4: seq<nat> := [3, 2, 2, 3, 4, 5, 5], [4, 3, 2, 3, 4, 5, 6];
    TwoRows(a, b, r1, r2);
    LastRows(a, b, r2, r3, r4);
    RowsEnd(a, b, r1, r2, r3, r4);
  }

  lemma RowsEnd(a: string, b: string, r1: seq<nat>, r2: seq<nat>, r3: seq<nat>, r4: seq<nat>)
    requires Crossed(a, b)
    requires IsRow(a, b, 1, r1, 7) && IsRow(a, b, 2, r2, 7) && IsRow(a, b, 3, r3, 7) && IsRow(a, b, 4, r4, 7)
    requires r1[0] == 1 && r2[0] == 2 && r3[1] == 2 && r4[2] == 2 && r4[6] == 6
    ensures Saturated(a, b) == 6
  {
    assert D(a, b, 1, 0) == 1 && D(a, b, 2, 0) == 2 && D(a, b, 3, 1) == 2 && D(a, b, 4, 2) == 2;
    assert a[..4] == a && b[..6] == b && D(a, b, 4, 6) == 6;
  }

  // ----- the closest candidate -----

  /** A candidate: the spelling compared with the typo and the key it stands for. */
  datatype Candidate = Candidate(shown: string, key: string)

  /** Close enough, and not the typo itself. */
  predicate Eligible(typo: string, c: Candidate) {
    c.shown != typo && Lev(typo, c.shown) <= 2
  }

  /** Ordered by distance, then by key. */
  predicate Before(typo: string, c: Candidate, d: Candidate) {
    Lev(typo, c.shown) < Lev(typo, d.shown) || (Lev(typo, c.shown) == Lev(typo, d.shown) && Less(c.key, d.key))
  }

  ghost predicate Closest(typo: string, cands: seq<Candidate>, best: Candidate) {
    best in cands && Eligible(typo, best) && forall c :: c in cands && Eligible(typo, c) ==> !Before(typo, c, best)
  }

  /** The key answered is the one of a least eligible candidate, or there is none. */
  ghost predicate Answer(typo: string, cands: seq<Candidate>, r: Option<string>) {
    match r
    case None => forall c :: c in cands ==> !Eligible(typo, c)
    case Some(key) => exists best :: Closest(typo, cands, best) && best.key == key
  }

  /** `at` is a least eligible candidate so far, if there is any. */
  ghost predicate Leading(typo: string, cands: seq<Candidate>, at: Option<Candidate>) {
    if at.None? then forall c :: c in cands ==> !Eligible(typo, c) else Closest(typo, cands, at.value)
  }

  predicate Overtakes(typo: string, c: Candidate, at: Option<Candidate>) {
    Eligible(typo, c) && (at.None? || Before(typo, c, at.value))
  }

  lemma LeadingStep(typo: string, cands: seq<Candidate>, at: Option<Candidate>, c: Candidate)
    requires Leading(typo, cands, at)
    ensures Leading(typo, cands + [c], if Overtakes(typo, c, at) then Some(c) else at)
  {
    if Overtakes(typo, c, at) && at.Some? {
      NewBest(typo, cands, at.value, c);
    } else if Overtakes(typo, c, at) {
      LessIrreflexive(c.key);
    }
  }

  /** `closest_const_key`, and `closest_name` when every key is its own spelling. */
  method ClosestKey(typo: string, cands: seq<Candidate>) returns (r: Option<string>)
    ensures Answer(typo, cands, r)
  {
    var best: Option<(nat, string)> := None;
    ghost var at: Option<Candidate> := None;
    for i := 0 to |cands|
      invariant Leading(typo, cands[..i], at)
      invariant best == if at.None? then None else Some((Lev(typo, at.value.shown), at.value.key))
    {
      var c := cands[i];
      assert cands[..i + 1] == cands[..i] + [c];
      LeadingStep(typo, cands[..i], at, c);
      if c.shown == typo { continue; }
      var d := Distance(typo, c.shown);
      if d > 2 { continue; }
      if best.None? || d < best.value.0 || (d == best.value.0 && Less(c.key, best.value.1)) {
        best, at := Some((d, c.key)), Some(c);
      }
    }
    assert cands[..|cands|] == cands;
    r := if best.Some? then Some(best.value.1) else None;
  }

  lemma NewBest(typo: string, cands: seq<Candidate>, old_: Candidate, c: Candidate)
    requires Closest(typo, cands, old_) && Eligible(typo, c) && Before(typo, c, old_)
    ensures Closest(typo, cands + [c], c)
  {
    forall x | x in cands + [c] && Eligible(typo, x) ensures !Before(typo, x, c) {
      if x in cands {
        if Before(typo, x, c) { BeforeTransitive(typo, x, c, old_); }
      } else {
        LessIrreflexive(c.key);
      }
    }
  }

  lemma BeforeTransitive(typo: string, a: Candidate, b: Candidate, c: Candidate)
    requires Before(typo, a, b) && Before(typo, b, c)
    ensures Before(typo, a, c)
  {
    if Less(a.key, b.key) && Less(b.key, c.key) { LessTransitive(a.key, b.key, c.key); }
  }

  /** Iteration order and repetition never leak: the same candidates give the same answer. */
  lemma AnswerByCandidateSet(typo: string, a: seq<Candidate>, b: seq<Candidate>, ra: Option<string>, rb: Option<string>)
    requires forall c :: c in a <==> c in b
    requires Answer(typo, a, ra) && Answer(typo, b, rb)
    ensures ra == rb
  {
    if ra.Some? && rb.Some? {
      var ca :| Closest(typo, a, ca) && ca.key == ra.value;
      var cb :| Closest(typo, b, cb) && cb.key == rb.value;
      LessTotal(ca.key, cb.key);
      assert !Before(typo, ca, cb) && !Before(typo, cb, ca);
    }
  }
}
