/** What any walk of a piece of code does to the bindings of the walk in hand, whatever the index answers: the locals it
    assigns and the returns it records, down to the depth the walker still goes. */
module Footprint {
  import opened Types
  import opened Constraints
  import opened Project
  import opened Verdicts
  import opened Typing
  import Flow

  datatype Foot = Foot(names: set<string>, exits: nat)

  const NONE: Foot := Foot({}, 0)

  function Plus(a: Foot, b: Foot): Foot { Foot(a.names + b.names, a.exits + b.exits) }

  predicate Within(a: Foot, b: Foot) { a.names <= b.names && a.exits <= b.exits }

  function FootAt(n: Node, k: nat): Foot
    decreases n, 2
  {
    if k == 0 then NONE else Inside(n, k - 1)
  }

  /** One node, its children having `k` levels left. */
  function Inside(n: Node, k: nat): Foot
    decreases n, 1, 1
  {
    if Assigns(n) then AssignFoot(n, k)
    else if n.kind.ReturnNode? then ReturnFoot(n, k)
    else if n.kind.IvarWrite? then FootAt(n.kind.value, k)
    else if n.kind.Parts? || n.kind.Spread? then FootOf(n.kind.parts, k)
    else if n.kind.Stmts? then FootOf(n.kind.body, k)
    else if n.kind.IfNode? then IfFoot(n, k)
    else if n.kind.AndNode? || n.kind.OrNode? then AndOrFoot(n, k)
    else if n.kind.LambdaNode? then OptFoot(n.kind.block, k)
    else if n.kind.CallNode? then CallFoot(n, k)
    else NONE
  }

  function AssignFoot(n: Node, k: nat): Foot
    requires Assigns(n)
    decreases n, 1, 0
  {
    Plus(FootAt(n.kind.value, k), Foot(set x | x in AssignedNames(n), 0))
  }

  function ReturnFoot(n: Node, k: nat): Foot
    requires n.kind.ReturnNode?
    decreases n, 1, 0
  {
    Plus(FootOf(n.kind.args, k), Foot({}, 1))
  }

  function IfFoot(n: Node, k: nat): Foot
    requires n.kind.IfNode?
    decreases n, 1, 0
  {
    Plus(FootAt(n.kind.pred, k), Plus(FootOf(n.kind.thn, k), FootOf(n.kind.els, k)))
  }

  function AndOrFoot(n: Node, k: nat): Foot
    requires n.kind.AndNode? || n.kind.OrNode?
    decreases n, 1, 0
  {
    Plus(FootAt(n.kind.l, k), FootAt(n.kind.r, k))
  }

  function CallFoot(n: Node, k: nat): Foot
    requires n.kind.CallNode?
    decreases n, 1, 0
  {
    Plus(Plus(OptFoot(n.kind.recv, k), FootOf(n.kind.args, k)), BlockFoot(n.kind.blk, k))
  }

  function OptFoot(n: Option<Node>, k: nat): Foot
    decreases n, 1
  {
    if n.Some? then FootAt(n.value, k) else NONE
  }

  function BlockFoot(blk: Option<Block>, k: nat): Foot
    decreases blk, 1
  {
    if blk.Some? then OptFoot(blk.value.body, k) else NONE
  }

  function FootOf(ns: seq<Node>, k: nat): Foot
    decreases ns, 0
  {
    if ns == [] then NONE else Plus(FootAt(ns[0], k), FootOf(ns[1..], k))
  }

  /** The keyword defaults of a parameter list. */
  function ParamFoot(ps: seq<Param>, k: nat): Foot
    decreases |ps|
  {
    if ps == [] then NONE else Plus(ParamFoot(ps[..|ps| - 1], k), OptFoot(ps[|ps| - 1].default, k))
  }

  function DefFoot(m: MethodSig, k: nat): Foot { if m.def.Some? then ParamFoot(m.def.value.params, k) else NONE }

  function ClassFoot(ms: seq<MethodSig>, k: nat): Foot
    decreases |ms|
  {
    if ms == [] then NONE else Plus(DefFoot(ms[0], k), ClassFoot(ms[1..], k))
  }

  // ----- deeper cut-offs see less -----

  lemma {:induction false} LessDeep(n: Node, k: nat, k': nat)
    requires k <= k'
    ensures Within(FootAt(n, k), FootAt(n, k'))
    decreases n, 1
  {
    if k > 0 { InsideLess(n, k - 1, k' - 1); }
  }

  lemma {:induction false} InsideLess(n: Node, k: nat, k': nat)
    requires k <= k'
    ensures Within(Inside(n, k), Inside(n, k'))
    decreases n, 0
  {
    match n.kind
    case LocalWrite(_, v) => LessDeep(v, k, k');
    case LocalOrWrite(_, v) => LessDeep(v, k, k');
    case LocalOpWrite(_, v) => LessDeep(v, k, k');
    case MultiWrite(_, v) => LessDeep(v, k, k');
    case IvarWrite(_, v) => LessDeep(v, k, k');
    case ReturnNode(args) => ListLess(args, k, k');
    case Parts(parts, _) => ListLess(parts, k, k');
    case Spread(parts) => ListLess(parts, k, k');
    case Stmts(body) => ListLess(body, k, k');
    case IfNode(_, p, thn, _, els, _, _, _, _) =>
      LessDeep(p, k, k');
      ListLess(thn, k, k');
      ListLess(els, k, k');
    case AndNode(l, r, _) => LessDeep(l, k, k'); LessDeep(r, k, k');
    case OrNode(l, r) => LessDeep(l, k, k'); LessDeep(r, k, k');
    case LambdaNode(_, b) => if b.Some? { LessDeep(b.value, k, k'); }
    case CallNode(recv, _, args, blk, _, _) =>
      if recv.Some? { LessDeep(recv.value, k, k'); }
      ListLess(args, k, k');
      if blk.Some? && blk.value.body.Some? { LessDeep(blk.value.body.value, k, k'); }
      assert Within(BlockFoot(blk, k), BlockFoot(blk, k'));
      assert Within(OptFoot(recv, k), OptFoot(recv, k'));
    case _ =>
  }

  lemma {:induction false} ListLess(ns: seq<Node>, k: nat, k': nat)
    requires k <= k'
    ensures Within(FootOf(ns, k), FootOf(ns, k'))
    decreases ns, 0
  {
    if ns != [] {
      LessDeep(ns[0], k, k');
      ListLess(ns[1..], k, k');
    }
  }

  lemma {:induction false} ParamsLess(ps: seq<Param>, k: nat, k': nat)
    requires k <= k'
    ensures Within(ParamFoot(ps, k), ParamFoot(ps, k'))
    decreases |ps|
  {
    if ps != [] {
      ParamsLess(ps[..|ps| - 1], k, k');
      var d := ps[|ps| - 1].default;
      if d.Some? { LessDeep(d.value, k, k'); }
    }
  }

  // ----- the bindings a walk may touch -----

  /** Some entries ended, the others as they were. */
  ghost predicate Shrunk(a: map<string, seq<Use>>, b: map<string, seq<Use>>) {
    b.Keys <= a.Keys && forall x :: x in b ==> b[x] == a[x]
  }

  /** A signature whose body `method_return` may open. */
  predicate Openable(m: MethodSig) { m.ret.None? && !m.arityUnknown && m.def.Some? }

  /** No keyword default that a nested walk can reach assigns a local. */
  ghost predicate NoDefaultAssigns(p: Oracle) {
    && (forall k :: k in p.methods && p.methods[k].Found? && Openable(p.methods[k].m) ==>
          DefFoot(p.methods[k].m, FULL).names == {})
    && (forall c :: c in p.classMethods ==> ClassFoot(p.classMethods[c], FULL).names == {})
  }

  /** No keyword default that a nested walk can reach returns. */
  ghost predicate NoDefaultReturns(p: Oracle) {
    && (forall k :: k in p.methods && p.methods[k].Found? && Openable(p.methods[k].m) ==>
          DefFoot(p.methods[k].m, FULL).exits == 0)
    && (forall c :: c in p.classMethods ==> ClassFoot(p.classMethods[c], FULL).exits == 0)
  }

  /** The names a walk ends the constraints of. */
  function ReboundIn(events: seq<Event>): set<string> { set e | e in events && e.Rebound? :: e.x }

  /** An effect ends at least the names of the footprint and records at least its returns; exactly those as long as no
      keyword default anywhere assigns (returns). */
  ghost predicate Covers(p: Oracle, fx: Fx, f: Foot) {
    && f.names <= ReboundIn(fx.events) && |fx.rets| >= f.exits
    && (NoDefaultAssigns(p) ==> ReboundIn(fx.events) == f.names) && (NoDefaultReturns(p) ==> |fx.rets| == f.exits)
  }

  lemma CoversThen(p: Oracle, a: Fx, b: Fx, f: Foot, g: Foot)
    requires Covers(p, a, f) && Covers(p, b, g)
    ensures Covers(p, Then(a, b), Plus(f, g))
  {
    assert ReboundIn(a.events + b.events) == ReboundIn(a.events) + ReboundIn(b.events);
  }

  lemma CoversMore(p: Oracle, a: Fx, b: Fx, f: Foot)
    requires Covers(p, a, f) && Covers(p, b, NONE)
    ensures Covers(p, Then(a, b), f)
  {
    CoversThen(p, a, b, f, NONE);
  }

  lemma {:induction false} CoversRebinding(p: Oracle, xs: seq<string>)
    ensures Covers(p, Rebinding(xs), Foot(set x | x in xs, 0))
  {
    if xs != [] {
      var front, last := xs[..|xs| - 1], xs[|xs| - 1];
      CoversRebinding(p, front);
      assert xs == front + [last];
      assert ReboundIn(Rebounds(front) + [Rebound(last)]) == ReboundIn(Rebounds(front)) + {last};
    }
  }

  // ----- every derivation covers the footprint of its node -----

  lemma {:induction false} DerivFoot(p: Oracle, cx: Ctx, k: nat, n: Node, env: Env, d: Deriv)
    requires Derives(p, cx, k, n, env, d) && k <= FULL
    ensures Covers(p, d.fx, FootAt(n, k))
    decreases d, 9
  {
    if k > 0 { InfersFoot(p, cx, k - 1, n, env, d); }
  }

  lemma {:induction false} OptFeet(p: Oracle, cx: Ctx, k: nat, n: Option<Node>, env: Env, d: Deriv)
    requires DerivesOpt(p, cx, k, n, env, d) && k <= FULL
    ensures Covers(p, d.fx, OptFoot(n, k))
    decreases d, 10
  {
    if n.Some? { DerivFoot(p, cx, k, n.value, env, d); }
  }

  lemma {:induction false} AllFeet(p: Oracle, cx: Ctx, k: nat, ns: seq<Node>, env: Env, ds: seq<Deriv>)
    requires DerivesAll(p, cx, k, ns, env, ds) && k <= FULL
    ensures Covers(p, FxAll(ds), FootOf(ns, k))
    decreases ds, 0
  {
    if ns != [] {
      DerivFoot(p, cx, k, ns[0], env, ds[0]);
      AllFeet(p, cx, k, ns[1..], ds[0].env, ds[1..]);
      CoversThen(p, ds[0].fx, FxAll(ds[1..]), FootAt(ns[0], k), FootOf(ns[1..], k));
    }
  }

  lemma {:induction false} ListFeet(p: Oracle, cx: Ctx, k: nat, ns: seq<Node>, env: Env, d: Deriv)
    requires DerivesList(p, cx, k, ns, env, d) && k <= FULL
    ensures Covers(p, d.fx, FootOf(ns, k))
    decreases d, 6
  {
    AllFeet(p, cx, k, ns, env, d.kids);
  }

  lemma {:induction false} InfersFoot(p: Oracle, cx: Ctx, k: nat, n: Node, env: Env, d: Deriv)
    requires Infers(p, cx, k, n, env, d) && k <= FULL
    ensures Covers(p, d.fx, Inside(n, k))
    decreases d, 8
  {
    if Assigns(n) {
      WriteFoot(p, cx, k, n, env, d);
    } else if n.kind.IvarRead? {
      IvarFoot(p, cx, k, n, env, d);
    } else if n.kind.IvarWrite? {
      DerivFoot(p, cx, k, n.kind.value, env, d.kids[0]);
    } else if n.kind.Stmts? || n.kind.Parts? || n.kind.Spread? {
      ListFeet(p, cx, k, if n.kind.Stmts? then n.kind.body else n.kind.parts, env, d.kids[0]);
    } else {
      FlowFoot(p, cx, k, n, env, d);
    }
  }

  lemma {:induction false} FlowFoot(p: Oracle, cx: Ctx, k: nat, n: Node, env: Env, d: Deriv)
    requires Infers(p, cx, k, n, env, d) && k <= FULL && !Assigns(n)
    requires !n.kind.IvarWrite? && !n.kind.IvarRead? && !n.kind.Stmts? && !n.kind.Parts? && !n.kind.Spread?
    ensures Covers(p, d.fx, Inside(n, k))
    decreases d, 8, 0
  {
    if n.kind.IfNode? {
      BranchFeet(p, cx, k, n, env, d);
    } else if n.kind.AndNode? || n.kind.OrNode? {
      AndOrFeet(p, cx, k, n, env, d);
    } else if n.kind.ReturnNode? {
      ReturnFeet(p, cx, k, n, env, d);
    } else if n.kind.LambdaNode? {
      ClosureFoot(p, cx, k, Block(n.kind.params, n.kind.block, []), true, env, d);
    } else if n.kind.CallNode? {
      CallFeet(p, cx, k, n, env, d);
    }
  }

  lemma {:induction false} WriteFoot(p: Oracle, cx: Ctx, k: nat, n: Node, env: Env, d: Deriv)
    requires Assigns(n) && Writes(p, cx, k, n, env, d) && k <= FULL
    ensures Covers(p, d.fx, AssignFoot(n, k))
    decreases d, 7
  {
    DerivFoot(p, cx, k, n.kind.value, env, d.kids[0]);
    CoversRebinding(p, AssignedNames(n));
    CoversThen(p, d.kids[0].fx, Rebinding(AssignedNames(n)), FootAt(n.kind.value, k),
               Foot(set x | x in AssignedNames(n), 0));
  }

  lemma {:induction false} AndOrFeet(p: Oracle, cx: Ctx, k: nat, n: Node, env: Env, d: Deriv)
    requires (n.kind.AndNode? || n.kind.OrNode?) && AndsOrs(p, cx, k, n, env, d) && k <= FULL
    ensures Covers(p, d.fx, AndOrFoot(n, k))
    decreases d, 7
  {
    DerivFoot(p, cx, k, n.kind.l, env, d.kids[0]);
    DerivFoot(p, Under(cx, PushedClass(cx.guards, n)), k, n.kind.r, d.kids[0].env, d.kids[1]);
    CoversThen(p, d.kids[0].fx, d.kids[1].fx, FootAt(n.kind.l, k), FootAt(n.kind.r, k));
  }

  lemma {:induction false} ReturnFeet(p: Oracle, cx: Ctx, k: nat, n: Node, env: Env, d: Deriv)
    requires n.kind.ReturnNode? && Returns(p, cx, k, n, env, d) && k <= FULL
    ensures Covers(p, d.fx, ReturnFoot(n, k))
    decreases d, 7
  {
    var v := d.kids[0];
    ListFeet(p, cx, k, n.kind.args, env, v);
    CoversThen(p, v.fx, Returning(d.fx.rets[|v.fx.rets|]), FootOf(n.kind.args, k), Foot({}, 1));
  }

  lemma {:induction false} BranchFeet(p: Oracle, cx: Ctx, k: nat, n: Node, env: Env, d: Deriv)
    requires n.kind.IfNode? && Branches(p, cx, k, n, env, d) && k <= FULL
    ensures Covers(p, d.fx, IfFoot(n, k))
    decreases d, 7
  {
    var pred, thn, els := d.kids[0], d.kids[1], d.kids[2];
    DerivFoot(p, cx, k, n.kind.pred, env, pred);
    OneBranchFoot(p, cx, k, n, true, pred.env, thn);
    OneBranchFoot(p, cx, k, n, false, pred.env, els);
    CoversThen(p, thn.fx, els.fx, FootOf(n.kind.thn, k), FootOf(n.kind.els, k));
    CoversThen(p, pred.fx, Then(thn.fx, els.fx), FootAt(n.kind.pred, k),
               Plus(FootOf(n.kind.thn, k), FootOf(n.kind.els, k)));
  }

  lemma {:induction false} OneBranchFoot(p: Oracle, cx: Ctx, k: nat, n: Node, thn: bool, base: Env, d: Deriv)
    requires n.kind.IfNode? && Branch(p, cx, k, n, thn, base, d) && k <= FULL
    ensures Covers(p, d.fx, FootOf(if thn then n.kind.thn else n.kind.els, k))
    decreases d, 7
  {
    var holds := thn != n.kind.negated;
    var inner := if holds then Under(cx, Pushed(cx.guards, n.kind.definedGuard, n.kind.respondGuard)) else cx;
    ListFeet(p, inner, k, if thn then n.kind.thn else n.kind.els,
             if holds then Flow.WhenTrue(base, n.kind.narrow) else Flow.WhenFalse(base, n.kind.narrow), d);
  }

  lemma {:induction false} ClosureFoot(p: Oracle, cx: Ctx, k: nat, b: Block, rebindable: bool, env: Env, d: Deriv)
    requires Closes(p, cx, k, b, rebindable, env, d) && k <= FULL
    ensures Covers(p, d.fx, OptFoot(b.body, k))
    decreases d, 7
  {
    OptFeet(p, InBlock(cx, b, rebindable), k, b.body, BindUnknown(env, b.params), d.kids[0]);
  }

  lemma {:induction false} CallFeet(p: Oracle, cx: Ctx, k: nat, n: Node, env: Env, d: Deriv)
    requires n.kind.CallNode? && Calls(p, cx, k, n, env, d) && k <= FULL
    ensures Covers(p, d.fx, CallFoot(n, k))
    decreases d, 7
  {
    var site := SiteOf(cx, n, d.kids[0], d.kids[1]);
    OperandFeet(p, cx, k, n, env, d.kids);
    MethodLeakFoot(p, cx, k, site, d.ty, d.walk);
    VerdictFoot(p, cx, site);
    CoversMore(p, Fx([], UseEvents(p, cx.silent, site, cx.guards, cx.rebindable), [],
                     if cx.silent then [] else CallDiags(p, site, cx.guards, cx.rebindable)),
                  MethodLeak(p, d.walk), NONE);
    CoversMore(p, OperandFx(d.kids[0], d.kids[1], d.kids[2]), CallFx(p, cx, site, d.walk), CallFoot(n, k));
  }

  lemma VerdictFoot(p: Oracle, cx: Ctx, site: Site)
    requires site.call.kind.CallNode?
    ensures Covers(p, Fx([], UseEvents(p, cx.silent, site, cx.guards, cx.rebindable), [],
                         if cx.silent then [] else CallDiags(p, site, cx.guards, cx.rebindable)), NONE)
  {}

  lemma {:induction false} OperandFeet(p: Oracle, cx: Ctx, k: nat, n: Node, env: Env, ds: seq<Deriv>)
    requires n.kind.CallNode? && Operands(p, cx, k, n, env, ds) && k <= FULL
    ensures Covers(p, OperandFx(ds[0], ds[1], ds[2]), CallFoot(n, k))
    decreases ds, 0
  {
    ReceiverFoot(p, cx, k, n, env, ds[0]);
    ListFeet(p, cx, k, n.kind.args, ds[0].env, ds[1]);
    if n.kind.blk.Some? {
      ClosureFoot(p, cx, k, n.kind.blk.value, !p.keepsSelf(ds[0].ty, n.kind.name), ds[1].env, ds[2]);
    }
    CoversThen(p, ds[0].fx, ds[1].fx, OptFoot(n.kind.recv, k), FootOf(n.kind.args, k));
    CoversThen(p, Then(ds[0].fx, ds[1].fx), ds[2].fx, Plus(OptFoot(n.kind.recv, k), FootOf(n.kind.args, k)),
               BlockFoot(n.kind.blk, k));
  }

  lemma {:induction false} ReceiverFoot(p: Oracle, cx: Ctx, k: nat, n: Node, env: Env, d: Deriv)
    requires n.kind.CallNode? && Receives(p, cx, k, n, env, d) && k <= FULL
    ensures Covers(p, d.fx, OptFoot(n.kind.recv, k))
    decreases d, 6
  {
    if n.kind.recv.Some? {
      DerivFoot(p, Under(cx, Armed(cx.guards, n.kind.rspec)), k, n.kind.recv.value, env, d.kids[0]);
      CoversMore(p, d.kids[0].fx, Storing(ExtendedStores(n, cx.self)), OptFoot(n.kind.recv, k));
    }
  }

  // ----- what nested walks add -----

  lemma {:induction false} ParamFeet(p: Oracle, cx: Ctx, k: nat, ps: seq<Param>, ds: seq<Deriv>)
    requires DerivesParams(p, cx, k, ps, ds) && k <= FULL
    ensures Covers(p, FxAll(ds), ParamFoot(ps, k))
    decreases ds
  {
    if ps != [] {
      var n := |ps| - 1;
      ParamFeet(p, cx, k, ps[..n], ds[..n]);
      OptFeet(p, cx, k, ps[n].default, ParamEnv(ps[..n], ds[..n]), ds[n]);
      FxAllThen(ds[..n], ds[n]);
      assert ds == ds[..n] + [ds[n]];
      CoversThen(p, FxAll(ds[..n]), ds[n].fx, ParamFoot(ps[..n], k), OptFoot(ps[n].default, k));
    }
  }

  /** Of a body only its keyword defaults reach the bindings of the walk in hand. */
  lemma {:induction false} BodyFoot(p: Oracle, cx: Ctx, k: nat, def: Def, b: Body)
    requires DerivesBody(p, cx, k, def, b) && k <= FULL
    ensures Covers(p, BodyFx(p, cx, b), ParamFoot(def.params, k))
    decreases b
  {
    ParamFeet(p, cx, k, def.params, b.defaults);
    CoversMore(p, FxAll(b.defaults), BodyOut(p, cx, b.body, b.order), ParamFoot(def.params, k));
  }

  /** The defaults of a method the project's walks can reach. */
  ghost predicate Reached(p: Oracle, m: MethodSig) {
    && (NoDefaultAssigns(p) ==> DefFoot(m, FULL).names == {})
    && (NoDefaultReturns(p) ==> DefFoot(m, FULL).exits == 0)
  }

  lemma ReachedDeeper(p: Oracle, m: MethodSig, k: nat)
    requires Reached(p, m) && k <= FULL
    ensures NoDefaultAssigns(p) ==> DefFoot(m, k).names == {}
    ensures NoDefaultReturns(p) ==> DefFoot(m, k).exits == 0
  {
    if m.def.Some? { ParamsLess(m.def.value.params, k, FULL); }
  }

  /** The walk `method_return` opens does to the bindings in hand what its keyword defaults do. */
  lemma {:induction false} WalkFoot(p: Oracle, key: Key, m: MethodSig, ty: Ty, w: Walk)
    requires w.Walk? && w.anew && MethodWalk(p, key, m, ty, w) && w.left <= FULL
    ensures Covers(p, MethodLeak(p, w), DefFoot(m, w.left))
    decreases w
  {
    if m.def.Some? { BodyFoot(p, w.cx, w.left, m.def.value, w.bodies[0]); }
  }

  lemma {:induction false} MethodLeakFoot(p: Oracle, cx: Ctx, k: nat, site: Site, ty: Ty, w: Walk)
    requires site.call.kind.CallNode? && Answered(p, cx, k, site, ty, w) && k <= FULL
    ensures Covers(p, MethodLeak(p, w), NONE)
    decreases w
  {
    if w.Walk? && w.anew {
      var a := AnswerOf(p, cx.silent, site, cx.guards, cx.rebindable);
      assert Returned(p, cx, k, a.key, a.m, ty, w);
      assert w.left == k && MethodWalk(p, a.key, a.m, ty, w);
      if a.m.def.Some? {
        BodyFoot(p, w.cx, w.left, a.m.def.value, w.bodies[0]);
        assert a.key in p.methods && Openable(a.m);
        ReachedDeeper(p, a.m, k);
      }
    }
  }

  lemma {:induction false} BodiesFoot(p: Oracle, cx: Ctx, k: nat, ms: seq<MethodSig>, bs: seq<Body>)
    requires DerivesBodies(p, cx, k, ms, bs) && k <= FULL
    ensures Covers(p, BodiesFx(p, cx, bs), ClassFoot(ms, k))
    decreases bs
  {
    if ms != [] {
      BodiesFoot(p, cx, k, ms[1..], bs[1..]);
      if ms[0].def.Some? {
        var inner := cx.(casts := p.fileCasts(ms[0].file));
        BodyFoot(p, inner, k, ms[0].def.value, bs[0]);
        CoversThen(p, BodyFx(p, cx, bs[0]), BodiesFx(p, cx, bs[1..]), DefFoot(ms[0], k), ClassFoot(ms[1..], k));
      } else {
        CoversThen(p, STILL, BodiesFx(p, cx, bs[1..]), NONE, ClassFoot(ms[1..], k));
      }
    }
  }

  lemma {:induction false} ClassLess(ms: seq<MethodSig>, k: nat, k': nat)
    requires k <= k'
    ensures Within(ClassFoot(ms, k), ClassFoot(ms, k'))
    decreases |ms|
  {
    if ms != [] {
      if ms[0].def.Some? { ParamsLess(ms[0].def.value.params, k, k'); }
      ClassLess(ms[1..], k, k');
    }
  }

  lemma {:induction false} IvarFoot(p: Oracle, cx: Ctx, k: nat, n: Node, env: Env, d: Deriv)
    requires n.kind.IvarRead? && ReadsIvar(p, cx, k, n, env, d) && k <= FULL
    ensures Covers(p, d.fx, NONE)
    decreases d, 7
  {
    var w := d.walk;
    if cx.self.SInstance? && w.Walk? && w.anew {
      var c := cx.self.cls;
      assert ClassWalk(p, c, w) && w.left == k;
      BodiesFoot(p, w.cx, w.left, if c in p.classMethods then p.classMethods[c] else [], w.bodies);
      if c in p.classMethods { ClassLess(p.classMethods[c], k, FULL); }
    }
  }

  // ----- the bindings after a nested walk -----

  /** What a walk with footprint `f` leaves of the bindings when it is silent: its returns are added and every name it
      assigns is ended. Nothing else is touched as long as no keyword default anywhere assigns (returns). */
  ghost predicate Ran(p: Oracle, a: Local, b: Local, f: Foot) {
    && a.returned <= b.returned && |b.returned| >= |a.returned| + f.exits
    && (NoDefaultReturns(p) ==> |b.returned| == |a.returned| + f.exits)
    && Shrunk(a.constraints, b.constraints) && b.constraints.Keys !! f.names
    && (NoDefaultAssigns(p) && f.names == {} ==> b.constraints == a.constraints)
  }

  lemma {:induction false} OnlyEnds(base: map<string, seq<Use>>, events: seq<Event>)
    requires forall e :: e in events ==> e.Rebound?
    ensures CollectFrom(base, events) == base - ReboundIn(events)
    decreases |events|
  {
    if events != [] {
      var front, last := events[..|events| - 1], events[|events| - 1];
      assert forall e :: e in front ==> e in events;
      OnlyEnds(base, front);
      assert events == front + [last];
      assert last in events && ReboundIn(events) == ReboundIn(front) + {last.x};
    }
  }

  lemma CoversRan(p: Oracle, t: Trail, fx: Fx, f: Foot)
    requires Covers(p, fx, f) && forall e :: e in fx.events ==> e.Rebound?
    ensures Ran(p, t.local, Run(t, fx).local, f)
  {
    OnlyEnds(t.local.constraints, fx.events);
  }
}
