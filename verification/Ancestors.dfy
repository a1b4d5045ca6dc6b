/** `ancestors`: the method-resolution chain of a class, and what its `complete` flag is worth. */
module Ancestors {
  import opened Types
  import Compat

  /** Names as the index resolves them; `None` is a name that resolves nowhere. */
  datatype ClassDef = ClassDef(prepends: seq<Option<ClassId>>, includes: seq<Option<ClassId>>,
                               superclass: Option<Option<ClassId>>)

  datatype Graph = Graph(defs: map<ClassId, ClassDef>, ambiguous: set<ClassId>) {
    /** Every resolved name is a class of the index. */
    ghost predicate Rooted() {
      forall c, d :: c in defs && d in Succ(c) ==> d in defs
    }

    /** The classes a class names. */
    function Succ(c: ClassId): set<ClassId>
      requires c in defs
    {
      Named(defs[c].prepends) + Named(defs[c].includes) + Named(SuperOf(defs[c]))
    }

    /** Every name resolves and the ancestry is not ambiguous. */
    predicate Clean(c: ClassId)
      requires c in defs
    {
      c !in ambiguous && Resolved(defs[c].prepends) && Resolved(defs[c].includes) && Resolved(SuperOf(defs[c]))
    }
  }

  function SuperOf(d: ClassDef): seq<Option<ClassId>> { if d.superclass.Some? then [d.superclass.value] else [] }

  function Named(names: seq<Option<ClassId>>): set<ClassId> { set n | n in names && n.Some? :: n.value }

  predicate Resolved(names: seq<Option<ClassId>>) { forall i :: 0 <= i < |names| ==> names[i].Some? }

  // ----- reachability -----

  ghost predicate IsPath(g: Graph, p: seq<ClassId>) {
    && p != [] && (forall i :: 0 <= i < |p| ==> p[i] in g.defs)
    && forall i, j :: 0 <= i && j == i + 1 && j < |p| ==> p[j] in g.Succ(p[i])
  }

  /** `c` is `a` or an ancestor of `a`, by resolved names. */
  ghost predicate Reaches(g: Graph, a: ClassId, c: ClassId) {
    exists p :: IsPath(g, p) && p[0] == a && p[|p| - 1] == c
  }

  ghost predicate ReachedFrom(g: Graph, from: set<ClassId>, c: ClassId) { exists a :: a in from && Reaches(g, a, c) }

  lemma ReachesSelf(g: Graph, a: ClassId)
    requires a in g.defs
    ensures Reaches(g, a, a)
  {
    assert IsPath(g, [a]);
  }

  lemma ReachesMore(g: Graph, a: ClassId, b: ClassId, c: ClassId)
    requires a in g.defs && b in g.Succ(a) && Reaches(g, b, c)
    ensures Reaches(g, a, c)
  {
    var p :| IsPath(g, p) && p[0] == b && p[|p| - 1] == c;
    var q := [a] + p;
    forall i, j | 0 <= i && j == i + 1 && j < |q| ensures q[j] in g.Succ(q[i]) {
      if i > 0 { assert p[j - 1] in g.Succ(p[i - 1]); }
    }
    assert IsPath(g, q);
  }

  /** A set that holds `a` and the classes each member names holds whatever `a` reaches. */
  lemma {:induction false} ClosedHolds(g: Graph, s: set<ClassId>, p: seq<ClassId>, n: nat)
    requires IsPath(g, p) && p[0] in s && forall c :: c in s && c in g.defs ==> g.Succ(c) <= s
    requires n < |p|
    ensures p[n] in s
  {
    if n > 0 {
      ClosedHolds(g, s, p, n - 1);
      assert p[n] in g.Succ(p[n - 1]);
    }
  }

  // ----- the walk -----

  datatype Walk = Walk(out: seq<ClassId>, visited: set<ClassId>, complete: bool)

  ghost predicate NoRepeat(s: seq<ClassId>) { forall i, j :: 0 <= i < j < |s| ==> s[i] != s[j] }

  /** Everything listed was visited, once. */
  ghost predicate Sound(g: Graph, w: Walk) {
    w.visited <= g.defs.Keys && NoRepeat(w.out) && forall c :: c in w.out ==> c in w.visited
  }

  /** From `a` to `b` the walk visited `from`: what is new is listed, reachable, and names visited classes only. */
  ghost predicate Went(g: Graph, a: Walk, b: Walk, from: set<ClassId>) {
    && Sound(g, a) && Sound(g, b) && a.out <= b.out && a.visited + from <= b.visited
    && (forall c :: c in b.visited && c !in a.visited ==>
          c in b.out && ReachedFrom(g, from, c) && g.Succ(c) <= b.visited)
    && (forall c :: c in b.out && c !in a.out ==> c !in a.visited)
  }

  /** `complete` survives exactly when every name met resolved and every new class is clean. */
  ghost predicate Judged(g: Graph, a: Walk, b: Walk, resolved: bool)
    requires b.visited <= g.defs.Keys
  {
    b.complete <==> a.complete && resolved && forall c :: c in b.visited && c !in a.visited ==> g.Clean(c)
  }

  lemma WentThen(g: Graph, a: Walk, b: Walk, c: Walk, from: set<ClassId>, next: set<ClassId>)
    requires Went(g, a, b, from) && Went(g, b, c, next)
    ensures Went(g, a, c, from + next)
  {
    forall x | x in c.visited && x !in a.visited
      ensures x in c.out && ReachedFrom(g, from + next, x) && g.Succ(x) <= c.visited
    {
      if x in b.visited {
        var r :| r in from && Reaches(g, r, x);
      } else {
        var r :| r in next && Reaches(g, r, x);
      }
    }
  }

  lemma JudgedThen(g: Graph, a: Walk, b: Walk, c: Walk, r: bool, r': bool)
    requires b.visited <= c.visited <= g.defs.Keys && a.visited <= b.visited
    requires Judged(g, a, b, r) && Judged(g, b, c, r')
    ensures Judged(g, a, c, r && r')
  {}

  lemma ThroughId(g: Graph, id: ClassId, from: set<ClassId>, x: ClassId)
    requires id in g.defs && from <= g.Succ(id) && ReachedFrom(g, from, x)
    ensures ReachedFrom(g, {id}, x)
  {
    var r :| r in from && Reaches(g, r, x);
    ReachesMore(g, id, r, x);
  }

  /** A class walked as a whole: marked, its prepends, itself, its includes and superclass. */
  lemma WentThrough(g: Graph, a: Walk, id: ClassId, marked: Walk, b: Walk, listed: Walk, c: Walk)
    requires g.Rooted() && Sound(g, a) && id in g.defs && id !in a.visited
    requires marked.out == a.out && marked.visited == a.visited + {id}
    requires Went(g, marked, b, Named(g.defs[id].prepends))
    requires listed == b.(out := b.out + [id])
    requires Went(g, listed, c, Named(g.defs[id].includes) + Named(SuperOf(g.defs[id])))
    ensures Went(g, a, c, {id})
  {
    var d := g.defs[id];
    ReachesSelf(g, id);
    assert listed.out[|b.out|] == id && c.out[|b.out|] == id;
    forall x | x in c.visited && x !in a.visited
      ensures x in c.out && ReachedFrom(g, {id}, x) && g.Succ(x) <= c.visited
    {
      if x != id {
        if x in b.visited {
          assert x in b.out && x in listed.out;
          ThroughId(g, id, Named(d.prepends), x);
        } else {
          ThroughId(g, id, Named(d.includes) + Named(SuperOf(d)), x);
        }
      }
    }
  }

  lemma ListedSound(g: Graph, marked: Walk, b: Walk, id: ClassId, from: set<ClassId>)
    requires Went(g, marked, b, from) && id in marked.visited && id !in marked.out
    ensures Sound(g, b.(out := b.out + [id]))
  {}

  lemma JudgedThrough(g: Graph, a: Walk, id: ClassId, marked: Walk, b: Walk, listed: Walk, c: Walk)
    requires id in g.defs && id !in a.visited && marked.visited == a.visited + {id}
    requires marked.visited <= b.visited && listed == b.(out := b.out + [id]) && b.visited <= c.visited <= g.defs.Keys
    requires marked.complete == (a.complete && id !in g.ambiguous)
    requires Judged(g, marked, b, Resolved(g.defs[id].prepends))
    requires Judged(g, listed, c, Resolved(g.defs[id].includes) && Resolved(SuperOf(g.defs[id])))
    ensures Judged(g, a, c, true)
  {
    if c.complete {
      forall x | x in c.visited && x !in a.visited ensures g.Clean(x) {}
    }
  }

  // ----- order: prepends, self, includes, superclass; a later name stands nearer -----

  /** In `out` from position `from`, `out[..cut]` holds every class of `late` not seen before, and nothing new that is
      not reached from `late`. */
  ghost predicate Cut(g: Graph, seen: set<ClassId>, out: seq<ClassId>, from: nat, late: set<ClassId>, cut: nat) {
    && from <= cut <= |out| && (forall i :: from <= i < cut ==> ReachedFrom(g, late, out[i]))
    && forall c :: c in late ==> c in seen || c in out[..cut]
  }

  ghost predicate Split(g: Graph, seen: set<ClassId>, out: seq<ClassId>, from: nat, late: set<ClassId>) {
    exists cut: nat :: Cut(g, seen, out, from, late, cut)
  }

  /** What later names bring stands before what only earlier names bring. */
  ghost predicate Nearer(g: Graph, seen: set<ClassId>, out: seq<ClassId>, from: nat, names: seq<Option<ClassId>>) {
    forall j :: 0 <= j <= |names| ==> Split(g, seen, out, from, Named(names[j..]))
  }

  /** From position `from`: what the prepends bring, `id`, what the includes bring, what the superclass brings. */
  ghost predicate Laid(g: Graph, seen: set<ClassId>, out: seq<ClassId>, from: nat, id: ClassId)
    requires id in g.defs
  {
    exists k: nat :: from <= k < |out| && out[k] == id
      && Nearer(g, seen + {id}, out[..k], from, g.defs[id].prepends)
      && Nearer(g, seen + {id}, out, k + 1, SuperOf(g.defs[id]) + g.defs[id].includes)
  }

  lemma NamedJoin(a: seq<Option<ClassId>>, b: seq<Option<ClassId>>)
    ensures Named(a + b) == Named(a) + Named(b)
  {}

  lemma NewIsReached(g: Graph, a: Walk, b: Walk, from: set<ClassId>, i: nat)
    requires Went(g, a, b, from) && |a.out| <= i < |b.out|
    ensures ReachedFrom(g, from, b.out[i])
  {
    forall c | c in a.out ensures c != b.out[i] {
      var m :| 0 <= m < |a.out| && a.out[m] == c;
      assert b.out[m] == c;
    }
  }

  lemma NearerOne(g: Graph, a: Walk, b: Walk, name: Option<ClassId>)
    requires Went(g, a, b, Named([name]))
    ensures Nearer(g, a.visited, b.out, |a.out|, [name])
  {
    forall i | |a.out| <= i < |b.out| ensures ReachedFrom(g, Named([name]), b.out[i]) {
      NewIsReached(g, a, b, Named([name]), i);
    }
    assert [name][0..] == [name] && b.out[..|b.out|] == b.out;
    assert Cut(g, a.visited, b.out, |a.out|, Named([name][0..]), |b.out|);
    assert Cut(g, a.visited, b.out, |a.out|, Named([name][1..]), |a.out|);
  }

  lemma NearerNone(g: Graph, seen: set<ClassId>, out: seq<ClassId>)
    ensures Nearer(g, seen, out, |out|, [])
  {
    assert Cut(g, seen, out, |out|, Named([][0..]), |out|);
  }

  lemma ReachedFromMore(g: Graph, from: set<ClassId>, more: set<ClassId>, c: ClassId)
    requires ReachedFrom(g, from, c) && from <= more
    ensures ReachedFrom(g, more, c)
  {}

  lemma NearerThen(g: Graph, a: Walk, b: Walk, c: Walk, first: seq<Option<ClassId>>, next: seq<Option<ClassId>>)
    requires Went(g, a, b, Named(first)) && Went(g, b, c, Named(next))
    requires Nearer(g, a.visited, b.out, |a.out|, first) && Nearer(g, b.visited, c.out, |b.out|, next)
    ensures Nearer(g, a.visited, c.out, |a.out|, next + first)
  {
    var names := next + first;
    forall j | 0 <= j <= |names| ensures Split(g, a.visited, c.out, |a.out|, Named(names[j..])) {
      if j <= |next| {
        var cut: nat :| Cut(g, b.visited, c.out, |b.out|, Named(next[j..]), cut);
        assert names[j..] == next[j..] + first;
        NamedJoin(next[j..], first);
        CutThen(g, a, b, c, Named(first), Named(next[j..]), cut);
      } else {
        var cut: nat :| Cut(g, a.visited, b.out, |a.out|, Named(first[j - |next|..]), cut);
        assert names[j..] == first[j - |next|..] && c.out[..cut] == b.out[..cut];
        assert Cut(g, a.visited, c.out, |a.out|, Named(names[j..]), cut);
      }
    }
  }

  lemma CutThen(g: Graph, a: Walk, b: Walk, c: Walk, first: set<ClassId>, late: set<ClassId>, cut: nat)
    requires Went(g, a, b, first) && b.out <= c.out && Cut(g, b.visited, c.out, |b.out|, late, cut)
    ensures Cut(g, a.visited, c.out, |a.out|, late + first, cut)
  {
    forall i | |a.out| <= i < cut ensures ReachedFrom(g, late + first, c.out[i]) {
      if i < |b.out| {
        NewIsReached(g, a, b, first, i);
        ReachedFromMore(g, first, late + first, c.out[i]);
      } else {
        ReachedFromMore(g, late, late + first, c.out[i]);
      }
    }
    forall x | x in b.visited && x !in a.visited ensures x in c.out[..cut] {
      var m :| 0 <= m < |b.out| && b.out[m] == x;
      assert c.out[..cut][m] == x;
    }
  }

  /** What the prefix of `out` before `from` already lists counts as seen. */
  lemma SeenEarlier(g: Graph, seen: set<ClassId>, more: set<ClassId>, out: seq<ClassId>, from: nat,
                    names: seq<Option<ClassId>>)
    requires from <= |out| && Nearer(g, more, out, from, names)
    requires forall x :: x in more ==> x in seen || x in out[..from]
    ensures Nearer(g, seen, out, from, names)
  {
    forall j | 0 <= j <= |names| ensures Split(g, seen, out, from, Named(names[j..])) {
      var cut: nat :| Cut(g, more, out, from, Named(names[j..]), cut);
      assert out[..from] <= out[..cut];
      assert Cut(g, seen, out, from, Named(names[j..]), cut);
    }
  }

  lemma LaidThrough(g: Graph, a: Walk, id: ClassId, marked: Walk, b: Walk, listed: Walk, c: Walk)
    requires id in g.defs && marked.out == a.out && marked.visited == a.visited + {id}
    requires Went(g, marked, b, Named(g.defs[id].prepends)) && listed == b.(out := b.out + [id]) && listed.out <= c.out
    requires Nearer(g, marked.visited, b.out, |a.out|, g.defs[id].prepends)
    requires Nearer(g, listed.visited, c.out, |listed.out|, SuperOf(g.defs[id]) + g.defs[id].includes)
    ensures Laid(g, a.visited, c.out, |a.out|, id)
  {
    var k := |b.out|;
    assert c.out[..k + 1] == b.out + [id];
    assert c.out[..k] == b.out && c.out[k] == c.out[..k + 1][k];
    SeenEarlier(g, a.visited + {id}, listed.visited, c.out, k + 1, SuperOf(g.defs[id]) + g.defs[id].includes);
  }

  class Linearizer {
    const g: Graph
    var w: Walk

    constructor (g: Graph)
      ensures this.g == g && w == Walk([], {}, true)
    {
      this.g, w := g, Walk([], {}, true);
    }

    /** `linearize`: the first occurrence wins, so a cycle or a diamond ends here. */
    method Linearize(id: ClassId)
      requires g.Rooted() && Sound(g, w) && id in g.defs
      modifies this
      ensures Went(g, old(w), w, {id}) && Judged(g, old(w), w, true)
      ensures id !in old(w).visited ==> Laid(g, old(w).visited, w.out, |old(w).out|, id)
      decreases g.defs.Keys - w.visited, 1, 0
    {
      if id in w.visited { return; }
      var d := g.defs[id];
      NamesRooted(g, id);
      w := w.(visited := w.visited + {id}, complete := w.complete && id !in g.ambiguous);
      ghost var marked := w;
      LinearizeAll(d.prepends);
      ghost var b := w;
      ListedSound(g, marked, b, id, Named(d.prepends));
      w := w.(out := w.out + [id]);
      ghost var listed := w;
      LinearizeAll(d.includes);
      ghost var late := w;
      LinearizeAll(SuperOf(d));
      WentThen(g, listed, late, w, Named(d.includes), Named(SuperOf(d)));
      NearerThen(g, listed, late, w, d.includes, SuperOf(d));
      JudgedThen(g, listed, late, w, Resolved(d.includes), Resolved(SuperOf(d)));
      WentThrough(g, old(w), id, marked, b, listed, w);
      JudgedThrough(g, old(w), id, marked, b, listed, w);
      LaidThrough(g, old(w), id, marked, b, listed, w);
    }

    /** The names of one list, last first. */
    method LinearizeAll(names: seq<Option<ClassId>>)
      requires g.Rooted() && Sound(g, w) && Named(names) <= g.defs.Keys
      modifies this
      ensures Went(g, old(w), w, Named(names)) && Judged(g, old(w), w, Resolved(names))
      ensures Nearer(g, old(w).visited, w.out, |old(w).out|, names)
      decreases g.defs.Keys - w.visited, 3, |names|
    {
      if names == [] {
        NearerNone(g, w.visited, w.out);
        return;
      }
      var n := |names| - 1;
      NamedSplit(names);
      LinearizeName(names[n]);
      ghost var mid := w;
      NearerOne(g, old(w), mid, names[n]);
      LinearizeAll(names[..n]);
      NearerThen(g, old(w), mid, w, [names[n]], names[..n]);
      assert names[..n] + [names[n]] == names;
      WentThen(g, old(w), mid, w, Named([names[n]]), Named(names[..n]));
      JudgedThen(g, old(w), mid, w, names[n].Some?, Resolved(names[..n]));
    }

    method LinearizeName(name: Option<ClassId>)
      requires g.Rooted() && Sound(g, w) && Named([name]) <= g.defs.Keys
      modifies this
      ensures Went(g, old(w), w, Named([name])) && Judged(g, old(w), w, name.Some?)
      decreases g.defs.Keys - w.visited, 2
    {
      OneNamed(name);
      if name.Some? { Linearize(name.value); } else { w := w.(complete := false); }
    }
  }

  lemma NamesRooted(g: Graph, id: ClassId)
    requires g.Rooted() && id in g.defs
    ensures Named(g.defs[id].prepends) <= g.defs.Keys
    ensures Named(g.defs[id].includes) <= g.defs.Keys && Named(SuperOf(g.defs[id])) <= g.defs.Keys
  {
    forall d | d in g.Succ(id) ensures d in g.defs {}
  }

  lemma OneNamed(name: Option<ClassId>)
    ensures Named([name]) == if name.Some? then {name.value} else {}
  {
    assert [name][0] == name;
  }

  lemma NamedSplit(names: seq<Option<ClassId>>)
    requires names != []
    ensures var n := |names| - 1;
            && Named(names) == Named([names[n]]) + Named(names[..n])
            && (Resolved(names) <==> names[n].Some? && Resolved(names[..n]))
  {
    var n := |names| - 1;
    OneNamed(names[n]);
    assert names == names[..n] + [names[n]];
  }

  // ----- ancestors -----

  /** Every class reachable from `id` is clean. */
  ghost predicate AllClean(g: Graph, id: ClassId) {
    forall c :: Reaches(g, id, c) ==> c in g.defs && g.Clean(c)
  }

  /** `ancestors`: ends on any graph, cyclic mixins included, lists exactly the classes `id` reaches, each once, and is
      complete exactly when every one of them names only what resolves and is unambiguous. Prepends come first, then
      `id`, its includes and its superclass; of two mixins the later one is nearer. */
  method AncestorsOf(g: Graph, id: ClassId) returns (out: seq<ClassId>, complete: bool)
    requires g.Rooted() && id in g.defs
    ensures NoRepeat(out)
    ensures forall c :: c in out <==> Reaches(g, id, c)
    ensures complete <==> AllClean(g, id)
    ensures Laid(g, {}, out, 0, id)
  {
    var walk := new Linearizer(g);
    walk.Linearize(id);
    out, complete := walk.w.out, walk.w.complete;
    WalkIsReach(g, id, walk.w);
  }

  lemma WalkIsReach(g: Graph, id: ClassId, w: Walk)
    requires g.Rooted() && id in g.defs
    requires Went(g, Walk([], {}, true), w, {id}) && Judged(g, Walk([], {}, true), w, true)
    ensures forall c :: c in w.out <==> Reaches(g, id, c)
    ensures w.complete <==> AllClean(g, id)
  {
    forall c ensures c in w.out <==> Reaches(g, id, c) {
      if c in w.out { assert ReachedFrom(g, {id}, c); }
      if Reaches(g, id, c) {
        var p :| IsPath(g, p) && p[0] == id && p[|p| - 1] == c;
        ClosedHolds(g, w.visited, p, |p| - 1);
      }
    }
    assert forall c :: c in w.visited <==> c in w.out;
  }

  // ----- what the walks answer about every class -----

  /** The index whose answers the walks are. */
  ghost function IndexOf(g: Graph): Compat.Index {
    Compat.Index(map c | c in g.defs :: set d | d in g.defs && Reaches(g, c, d), set c | c in g.defs && AllClean(g, c))
  }

  lemma ListsWhatIsReached(g: Graph, c: ClassId, d: ClassId)
    ensures IndexOf(g).Lists(c, d) <==> c in g.defs && Reaches(g, c, d)
  {
    if c in g.defs && Reaches(g, c, d) {
      var p :| IsPath(g, p) && p[0] == c && p[|p| - 1] == d;
      assert d in g.defs;
    }
  }

  /** `actual` is the ancestry of the running program: an index class names none but real ancestors,
      and a clean one names all its direct ones. */
  ghost predicate Mirrors(g: Graph, actual: Graph) {
    forall c :: c in g.defs ==>
      c in actual.defs && g.Succ(c) <= actual.Succ(c) && (g.Clean(c) ==> actual.Succ(c) <= g.Succ(c))
  }

  ghost predicate Runs(actual: Graph, w: World) {
    forall c, d :: w.Sub(c, d) <==> c == d || Reaches(actual, c, d)
  }

  lemma ReachesReal(g: Graph, actual: Graph, c: ClassId, d: ClassId)
    requires Mirrors(g, actual) && Reaches(g, c, d)
    ensures Reaches(actual, c, d)
  {
    var p :| IsPath(g, p) && p[0] == c && p[|p| - 1] == d;
    forall i, j | 0 <= i && j == i + 1 && j < |p| ensures p[j] in actual.Succ(p[i]) {
      assert p[j] in g.Succ(p[i]);
    }
    assert IsPath(actual, p);
  }

  /** A real path from a class whose ancestry is complete is a path of the index. */
  lemma {:induction false} CleanPath(g: Graph, actual: Graph, p: seq<ClassId>, n: nat)
    requires g.Rooted() && Mirrors(g, actual) && IsPath(actual, p) && p[0] in g.defs && AllClean(g, p[0])
    requires n < |p|
    ensures Reaches(g, p[0], p[n])
  {
    if n == 0 {
      ReachesSelf(g, p[0]);
    } else {
      CleanPath(g, actual, p, n - 1);
      CleanStep(g, actual, p[0], p[n - 1], p[n]);
    }
  }

  lemma CleanStep(g: Graph, actual: Graph, a: ClassId, b: ClassId, c: ClassId)
    requires g.Rooted() && Mirrors(g, actual) && AllClean(g, a) && Reaches(g, a, b)
    requires b in actual.defs && c in actual.Succ(b)
    ensures Reaches(g, a, c)
  {
    ReachesEnd(g, a, b, c);
  }

  lemma ReachesEnd(g: Graph, a: ClassId, b: ClassId, c: ClassId)
    requires c in g.defs && Reaches(g, a, b) && c in g.Succ(b)
    ensures Reaches(g, a, c)
  {
    var p :| IsPath(g, p) && p[0] == a && p[|p| - 1] == b;
    var q := p + [c];
    forall i, j | 0 <= i && j == i + 1 && j < |q| ensures q[j] in g.Succ(q[i]) {
      if j < |p| { assert p[j] in g.Succ(p[i]); }
    }
    assert IsPath(g, q);
  }

  lemma ReachesOn(g: Graph, a: ClassId, b: ClassId, c: ClassId)
    requires Reaches(g, a, b) && Reaches(g, b, c)
    ensures Reaches(g, a, c)
  {
    var p :| IsPath(g, p) && p[0] == a && p[|p| - 1] == b;
    var q :| IsPath(g, q) && q[0] == b && q[|q| - 1] == c;
    var r := p + q[1..];
    forall i, j | 0 <= i && j == i + 1 && j < |r| ensures r[j] in g.Succ(r[i]) {
      if j < |p| {
        assert p[j] in g.Succ(p[i]);
      } else {
        assert q[j - |p| + 1] in g.Succ(q[i - |p| + 1]);
      }
    }
    assert IsPath(g, r);
  }

  /** What the walks list is true and a complete list misses nothing: all that the verdicts of `compatible` rest on. */
  lemma WalksDescribe(g: Graph, actual: Graph, w: World)
    requires g.Rooted() && Mirrors(g, actual) && Runs(actual, w)
    ensures IndexOf(g).Describes(w) && w.Transitive()
  {
    forall c, d ensures IndexOf(g).Lists(c, d) <==> c in g.defs && Reaches(g, c, d) {
      ListsWhatIsReached(g, c, d);
    }
    forall c, d | Reaches(g, c, d) ensures w.Sub(c, d) { ReachesReal(g, actual, c, d); }
    forall c, d | c in g.defs && AllClean(g, c) && Reaches(actual, c, d) ensures Reaches(g, c, d) {
      var p :| IsPath(actual, p) && p[0] == c && p[|p| - 1] == d;
      CleanPath(g, actual, p, |p| - 1);
    }
    forall c, d, e {:trigger w.Sub(c, d), w.Sub(d, e)} | w.Sub(c, d) && w.Sub(d, e) ensures w.Sub(c, e) {
      if c != d && d != e { ReachesOn(actual, c, d, e); }
    }
  }
}
