/** Whole runs of the checker: what a check and a census promise, and runs that show where a promise stops. */
module Runs {
  import opened Types
  import opened Census
  import opened Constraints
  import opened Project
  import opened Footprint
  import opened Verdicts
  import opened Typing
  import opened Accusations
  import opened Walker

  const UNGUARDED: Guards := Guards([], [], [], [])

  /** What a file is walked under. */
  function FileCtx(casts: seq<Cast>): Ctx { Ctx(false, casts, UNGUARDED, 0, SUnknown, Busy({}, {})) }

  /** What the top level of a file is. */
  const TOP: Place := Place(None, false, false)

  /** Every diagnostic is proven of a step of the derivation. */
  ghost predicate AllProven(p: Oracle, ds: seq<ItemDeriv>, diags: seq<Diag>) {
    forall d :: d in diags ==> Proven(p, Steps(ds), d)
  }

  /** A fresh checker that has walked a whole file. */
  method WalkFile(p: Oracle, census: bool, dark: bool, blank: CallStats, casts: seq<Cast>, file: seq<Item>,
                  operands: map<string, Ty>)
      returns (checker: Checker, ghost ds: seq<ItemDeriv>)
    requires Blank(blank)
    ensures fresh(checker) && checker.Valid() && checker.p == p && checker.census == census
    ensures checker.busy == Busy({}, {}) && (census ==> checker.log.stats.Total() == checker.count.entered)
    ensures DerivesItems(p, FileCtx(casts), FULL, file, TOP, map[], ds)
    ensures checker.log.diags == ItemsFx(p, ds).diags
  {
    checker := new Checker(p, census, Mode(false, dark, None, casts), blank);
    checker.scope := checker.scope.(operands := operands);
    var ignored;
    ignored, ds := checker.WalkItems(file, TOP, map[]);
  }

  /** `call_stats`: the census of a whole file adds up. `count`, `walked` and `ds` are the run's ghost record. The
      ancestry breakdown sums to the inconclusive bucket exactly when no `.new` took the arm without `initialize`. */
  method CallStatsOf(p: Oracle, blank: CallStats, casts: seq<Cast>, file: seq<Item>, operands: map<string, Ty>)
      returns (stats: CallStats, diags: seq<Diag>, ghost count: Count, ghost walked: Walked, ghost ds: seq<ItemDeriv>)
    requires Blank(blank)
    ensures DerivesItems(p, FileCtx(casts), FULL, file, TOP, map[], ds) && diags == ItemsFx(p, ds).diags
    ensures AllProven(p, ds, diags)
    ensures stats.Total() == count.entered && stats.Adds()
    ensures stats.buckets.diagnosed == CountCode(diags, E0101)
    ensures stats.buckets.inconclusive == stats.anc.Sum() + count.newNoInit
    ensures stats.anc.Sum() == stats.buckets.inconclusive <==> count.newNoInit == 0
    ensures forall k :: walked.keys[k] <= 1
    ensures forall c :: walked.classes[c] <= 1
  {
    var checker;
    checker, ds := WalkFile(p, true, false, blank, casts, file, operands);
    stats, diags, count, walked := checker.log.stats, checker.log.diags, checker.count, checker.walked;
    RaisedAreProven(p, casts, file, ds);
  }

  /** `check_file`: the diagnostics of a whole file are exactly those of a derivation of it, and each is proven; however
      often bodies are re-walked, each method and each class is walked at most once, and what is memoised for it has a
      derivation of its own. */
  method CheckFile(p: Oracle, blank: CallStats, casts: seq<Cast>, dark: bool, file: seq<Item>,
                   operands: map<string, Ty>)
      returns (diags: seq<Diag>, ghost walked: Walked, ghost memo: Memo, ghost ds: seq<ItemDeriv>, ghost proofs: Proofs)
    requires Blank(blank)
    ensures DerivesItems(p, FileCtx(casts), FULL, file, TOP, map[], ds) && diags == ItemsFx(p, ds).diags
    ensures AllProven(p, ds, diags)
    ensures MemoProven(p, memo, proofs)
    ensures forall k :: walked.keys[k] == if k in memo.methods then 1 else 0
    ensures forall c :: walked.classes[c] == if c in memo.ivars then 1 else 0
  {
    var checker;
    checker, ds := WalkFile(p, false, dark, blank, casts, file, operands);
    diags, walked, memo, proofs := checker.log.diags, checker.walked, checker.memo, checker.proofs;
    RaisedAreProven(p, casts, file, ds);
  }

  lemma RaisedAreProven(p: Oracle, casts: seq<Cast>, file: seq<Item>, ds: seq<ItemDeriv>)
    requires DerivesItems(p, FileCtx(casts), FULL, file, TOP, map[], ds)
    ensures AllProven(p, ds, ItemsFx(p, ds).diags)
  {
    StepsHold(ds);
    GoodItems(p, Steps(ds), FileCtx(casts), FULL, file, TOP, map[], ds);
  }

  /** One `.new` on a class without `initialize`, and the documented sum is off by one. */
  method NewBreaksAncestrySum(p: Oracle, blank: CallStats, c: ClassId, n: Node) returns (stats: CallStats)
    requires Blank(blank) && n.kind.CallNode? && n.kind.name == "new" && NewTarget(p, c).Bare?
    requires n.kind.recv.Some? && !n.kind.recv.value.kind.SelfRead?
    ensures stats.buckets.inconclusive == 1 && stats.anc.Sum() == 0
  {
    var checker := new Checker(p, true, Mode(false, false, None, []), blank);
    var _ := checker.DispatchNew(n, c, []);
    stats := checker.log.stats;
  }

  // ----- keyword defaults reach the walk in hand -----

  /** A use of each name, to see which of them a walk ends. */
  function Probe(names: set<string>): map<string, seq<Use>> { map x | x in names :: [Use("upcase", 0, 6, Unknown)] }

  /** The walk `method_return` opens for a method: from any bindings, it ends all names its keyword defaults assign and
      adds at least the returns they record, and leaves the rest alone when no default in the project does either. */
  method ReturnWalk(p: Oracle, blank: CallStats, key: Key, m: MethodSig, before: Local) returns (after: Local)
    requires Blank(blank) && LookupOf(p, key) == Found(m) && Openable(m)
    ensures Ran(p, before, after, DefFoot(m, FULL))
    ensures NoDefaultAssigns(p) ==> after.constraints == before.constraints
    ensures NoDefaultReturns(p) ==> after.returned == before.returned
  {
    var checker := new Checker(p, false, Mode(false, false, None, []), blank);
    checker.local := before;
    ghost var t := TrailOf(checker.local, checker.capture, checker.log);
    var _, w := checker.MethodReturn(key, m, SUnknown);
    after := checker.local;
    WalkRan(p, key, m, checker.memo.methods[key], w, t);
    assert key in p.methods;
    if NoDefaultReturns(p) { assert before.returned <= after.returned && |after.returned| == |before.returned|; }
  }

  lemma WalkRan(p: Oracle, key: Key, m: MethodSig, ty: Ty, w: Walk, t: Trail)
    requires Returned(p, FileCtx([]), FULL, key, m, ty, w) && w.Walk? && w.anew
    ensures Ran(p, t.local, Run(t, MethodLeak(p, w)).local, DefFoot(m, FULL))
  {
    assert MethodWalk(p, key, m, ty, w);
    WalkFoot(p, key, m, ty, w);
    if m.def.Some? {
      assert DerivesBody(p, w.cx, w.left, m.def.value, w.bodies[0]);
      GoodParams(p, EVERY, w.cx, w.left, m.def.value.params, w.bodies[0].defaults);
      SilentLeak(p, EVERY, w.cx, w.cx, w.bodies[0]);
    }
    CoversRan(p, t, MethodLeak(p, w), DefFoot(m, FULL));
  }

  /** The same for the walk `ivar_ty` opens for a class. */
  method IvarWalk(p: Oracle, blank: CallStats, c: ClassId, before: Local) returns (after: Local)
    requires Blank(blank) && c in p.classMethods
    ensures Ran(p, before, after, ClassFoot(p.classMethods[c], FULL))
    ensures NoDefaultAssigns(p) ==> after.constraints == before.constraints
    ensures NoDefaultReturns(p) ==> after.returned == before.returned
  {
    var checker := new Checker(p, false, Mode(false, false, None, []), blank);
    checker.local := before;
    ghost var t := TrailOf(checker.local, checker.capture, checker.log);
    var ty, w := checker.IvarTy(c, "@x", SUnknown);
    after := checker.local;
    ClassRan(p, c, "@x", ty, w, t);
    if NoDefaultReturns(p) { assert before.returned <= after.returned && |after.returned| == |before.returned|; }
  }

  lemma ClassRan(p: Oracle, c: ClassId, x: string, ty: Ty, w: Walk, t: Trail)
    requires IvarTyped(p, FileCtx([]), FULL, c, x, ty, w) && w.Walk? && w.anew && c in p.classMethods
    ensures Ran(p, t.local, Run(t, ClassLeak(p, w)).local, ClassFoot(p.classMethods[c], FULL))
  {
    BodiesFoot(p, w.cx, FULL, p.classMethods[c], w.bodies);
    GoodBodies(p, EVERY, w.cx, FULL, p.classMethods[c], w.bodies, w.cx);
    CoversRan(p, t, ClassLeak(p, w), ClassFoot(p.classMethods[c], FULL));
  }

  /** A keyword default that assigns `x`, at any depth the walker still reaches, ends the caller's constraint on its own
      `x`: the default is walked before `check_method_body` sets the constraints aside. */
  method KeywordDefaultEndsConstraint(p: Oracle, blank: CallStats, key: Key, m: MethodSig, x: string)
      returns (before: Local, after: Local)
    requires Blank(blank) && LookupOf(p, key) == Found(m) && Openable(m) && x in DefFoot(m, FULL).names
    ensures x in before.constraints && x !in after.constraints
  {
    before := Local(Probe({x}), []);
    after := ReturnWalk(p, blank, key, m, before);
  }

  /** A keyword default that returns adds its type to the caller's own returns. */
  method KeywordDefaultReturns(p: Oracle, blank: CallStats, key: Key, m: MethodSig)
    returns (before: Local, after: Local)
    requires Blank(blank) && LookupOf(p, key) == Found(m) && Openable(m) && DefFoot(m, FULL).exits > 0
    ensures before.returned == [] && after.returned != []
  {
    before := Local(map[], []);
    after := ReturnWalk(p, blank, key, m, before);
  }

  /** What opening every walk of the project shows: all of them leave constraints (returns) as found exactly when no
      keyword default a walk can reach assigns (returns). */
  method WalksLeaveBindings(p: Oracle, blank: CallStats) returns (names: bool, exits: bool)
    requires Blank(blank)
    ensures names <==> NoDefaultAssigns(p)
    ensures exits <==> NoDefaultReturns(p)
  {
    var a, b := MethodWalksLeave(p, blank);
    var c, d := ClassWalksLeave(p, blank);
    names, exits := a && c, b && d;
  }

  /** The methods among `keys` whose walk would show an assignment (a return). */
  ghost predicate MethodsQuiet(p: Oracle, keys: set<Key>, exits: bool) {
    forall k :: k in keys && k in p.methods && p.methods[k].Found? && Openable(p.methods[k].m) ==>
      var f := DefFoot(p.methods[k].m, FULL); if exits then f.exits == 0 else f.names == {}
  }

  ghost predicate ClassesQuiet(p: Oracle, cs: set<ClassId>, exits: bool) {
    forall c :: c in cs && c in p.classMethods ==>
      var f := ClassFoot(p.classMethods[c], FULL); if exits then f.exits == 0 else f.names == {}
  }

  method MethodWalksLeave(p: Oracle, blank: CallStats) returns (names: bool, exits: bool)
    requires Blank(blank)
    ensures (names ==> MethodsQuiet(p, p.methods.Keys, false)) && (!names ==> !NoDefaultAssigns(p))
    ensures (exits ==> MethodsQuiet(p, p.methods.Keys, true)) && (!exits ==> !NoDefaultReturns(p))
  {
    names, exits := true, true;
    var todo := p.methods.Keys;
    while todo != {}
      invariant todo <= p.methods.Keys
      invariant (names ==> MethodsQuiet(p, p.methods.Keys - todo, false)) && (!names ==> !NoDefaultAssigns(p))
      invariant (exits ==> MethodsQuiet(p, p.methods.Keys - todo, true)) && (!exits ==> !NoDefaultReturns(p))
    {
      var k :| k in todo;
      todo := todo - {k};
      if p.methods[k].Found? && Openable(p.methods[k].m) {
        var m := p.methods[k].m;
        var before := Local(Probe(DefFoot(m, FULL).names), []);
        var after := ReturnWalk(p, blank, k, m, before);
        ProbeShows(p, before, after, DefFoot(m, FULL));
        names, exits := names && after.constraints == before.constraints, exits && after.returned == [];
      }
    }
  }

  method ClassWalksLeave(p: Oracle, blank: CallStats) returns (names: bool, exits: bool)
    requires Blank(blank)
    ensures (names ==> ClassesQuiet(p, p.classMethods.Keys, false)) && (!names ==> !NoDefaultAssigns(p))
    ensures (exits ==> ClassesQuiet(p, p.classMethods.Keys, true)) && (!exits ==> !NoDefaultReturns(p))
  {
    names, exits := true, true;
    var todo := p.classMethods.Keys;
    while todo != {}
      invariant todo <= p.classMethods.Keys
      invariant (names ==> ClassesQuiet(p, p.classMethods.Keys - todo, false)) && (!names ==> !NoDefaultAssigns(p))
      invariant (exits ==> ClassesQuiet(p, p.classMethods.Keys - todo, true)) && (!exits ==> !NoDefaultReturns(p))
    {
      var c :| c in todo;
      todo := todo - {c};
      var f := ClassFoot(p.classMethods[c], FULL);
      var before := Local(Probe(f.names), []);
      var after := IvarWalk(p, blank, c, before);
      ProbeShows(p, before, after, f);
      names, exits := names && after.constraints == before.constraints, exits && after.returned == [];
    }
  }

  /** A walk that leaves the probe and the returns alone assigned and returned nothing. */
  lemma ProbeShows(p: Oracle, before: Local, after: Local, f: Foot)
    requires before == Local(Probe(f.names), []) && Ran(p, before, after, f)
    ensures after.constraints == before.constraints ==> f.names == {}
    ensures after.returned == [] ==> f.exits == 0
  {}

  // ----- E0107 accuses on unknown receivers -----

  /** A call on the plain local `x`. */
  predicate CallsOn(n: Node, x: string) {
    n.kind.CallNode? && n.kind.recv.Some? && n.kind.recv.value.kind == LocalRead(x)
  }

  function UseOf(n: Node): Use
    requires n.kind.CallNode?
  {
    Use(n.kind.name, n.kind.msg.0, n.kind.msg.1, Unknown)
  }

  /** Two calls on an `x` of unknown type: a contradictory pair is reported, on unknown receivers. */
  method TwoUses(p: Oracle, blank: CallStats, x: string, a: Node, b: Node) returns (diags: seq<Diag>)
    requires Blank(blank) && p.closedWorld && CallsOn(a, x) && CallsOn(b, x)
    requires Classify([UseOf(a), UseOf(b)], p.candidates) == Contradiction
    ensures |diags| == 1 && diags[0].message == NoCommonType(x, [UseOf(a), UseOf(b)])
  {
    var checker := new Checker(p, false, Mode(false, false, None, []), blank);
    TrackUse(checker, a, x);
    TrackUse(checker, b, x);
    BothTracked(x, UseOf(a), UseOf(b));
    ghost var order := checker.FlushConstraints();
    diags := checker.log.diags;
    OneFlushed(p, order, x, [UseOf(a), UseOf(b)]);
  }

  /** One dispatch on a receiver of unknown type, outside every guard. */
  method TrackUse(checker: Checker, n: Node, x: string)
    requires checker.Valid() && checker.p.closedWorld && !checker.mode.silent && CallsOn(n, x)
    requires checker.guards == UNGUARDED && checker.scope.rebindable == 0
    modifies checker
    ensures checker.Valid() && checker.mode == old(checker.mode) && checker.log.diags == old(checker.log).diags
    ensures checker.guards == old(checker.guards) && checker.scope == old(checker.scope)
    ensures checker.local == old(checker.local).(constraints := Tracking(old(checker.local).constraints, x, UseOf(n)))
  {
    PlainCall(checker.p, CtxOf(checker.mode, checker.scope, checker.guards, checker.busy, SUnknown),
              Site(n, Unknown, []),
              TrailOf(checker.local, checker.capture, checker.log));
    var _, _ := checker.Dispatch(n, Unknown, [], SUnknown);
    assert [Called(x, UseOf(n))][..0] == [];
  }

  function Tracking(cs: map<string, seq<Use>>, x: string, u: Use): map<string, seq<Use>> {
    cs[x := (if x in cs then cs[x] else []) + [u]]
  }

  lemma BothTracked(x: string, a: Use, b: Use)
    ensures Tracking(Tracking(map[], x, a), x, b) == map[x := [a, b]]
  {
    assert [] + [a] == [a] && [a] + [b] == [a, b];
  }

  lemma OneFlushed(p: Oracle, order: seq<string>, x: string, calls: seq<Use>)
    requires Lists(order, map[x := calls].Keys) && Classify(calls, p.candidates) == Contradiction
    ensures var ds := FlushDiags(p, order, map[x := calls], UNGUARDED, 0);
            |ds| == 1 && ds[0].message == NoCommonType(x, calls)
  {
    assert x in order;
    ListsSize(order, map[x := calls].Keys);
    assert order == [x] && order[..0] == [];
  }

  function CallOn(x: string, name: string): Node {
    Node((0, 1), CallNode(Some(Node((0, 1), LocalRead(x))), name, [], None, (2, 3), []))
  }

  /** `x.upcase; x.succ` where one class defines each method: an E0107, on receivers of unknown type. */
  method ContradictionOnUnknown(p: Oracle, blank: CallStats, x: string) returns (q: Oracle, diags: seq<Diag>)
    requires Blank(blank)
    ensures |diags| == 1 && diags[0].message.NoCommonType? && Receivers(diags[0]) == [Unknown, Unknown]
  {
    q := p.(closedWorld := true, candidates := n => if n == "upcase" then ["String"] else ["Integer"]);
    var a, b := CallOn(x, "upcase"), CallOn(x, "succ");
    OneClassEach([UseOf(a), UseOf(b)], q.candidates);
    diags := TwoUses(q, blank, x, a, b);
  }

  lemma OneClassEach(calls: seq<Use>, cands: Candidates)
    requires |calls| == 2 && calls[0].name == "upcase" && calls[1].name == "succ"
    requires forall n :: cands(n) == if n == "upcase" then ["String"] else ["Integer"]
    ensures Classify(calls, cands) == Contradiction
  {
    ContradictionIff(calls, cands);
    assert Names(calls) == {"upcase", "succ"} by {
      assert calls[0].name in Names(calls) && calls[1].name in Names(calls);
    }
    assert "upcase" != "succ" && |{"upcase", "succ"}| == 2;
  }
}
