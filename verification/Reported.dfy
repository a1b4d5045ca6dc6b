/** Nothing provable is passed over: whatever a step of a file's derivation raises is among the diagnostics of the file,
    so every call, constant and binding with a proven fault that nothing spares is reported. */
module Reported {
  import opened Types
  import opened Constraints
  import opened Project
  import opened Verdicts
  import opened Typing
  import opened Faults
  import opened Accusations
  import opened Meaning
  import Flow

  // ----- effects gather up -----

  ghost predicate Within(a: Fx, b: Fx) {
    && (forall d :: d in a.diags ==> d in b.diags) && (forall e :: e in a.events ==> e in b.events)
    && forall s :: s in a.stores ==> s in b.stores
  }

  /** Whatever a part raises, tracks or stores, the whole does. */
  ghost predicate Gathers(d: Deriv)
    decreases d
  {
    forall i :: 0 <= i < |d.kids| ==> Within(d.kids[i].fx, d.fx) && Gathers(d.kids[i])
  }

  lemma {:induction false} PartGathered(c: Deriv, d: Deriv)
    requires PartOf(c, d) && Gathers(d)
    ensures Within(c.fx, d.fx)
    decreases d
  {
    if c != d {
      var i :| 0 <= i < |d.kids| && PartOf(c, d.kids[i]);
      PartGathered(c, d.kids[i]);
    }
  }

  lemma {:induction false} GatherExpr(p: Oracle, cx: Ctx, k: nat, n: Node, env: Env, d: Deriv)
    requires Derives(p, cx, k, n, env, d)
    ensures Gathers(d)
    decreases d, 9
  {
    if k > 0 { GatherInfers(p, cx, k - 1, n, env, d); }
  }

  lemma {:induction false} GatherOpt(p: Oracle, cx: Ctx, k: nat, n: Option<Node>, env: Env, d: Deriv)
    requires DerivesOpt(p, cx, k, n, env, d)
    ensures Gathers(d)
    decreases d, 10
  {
    if n.Some? { GatherExpr(p, cx, k, n.value, env, d); }
  }

  lemma {:induction false} GatherAll(p: Oracle, cx: Ctx, k: nat, ns: seq<Node>, env: Env, ds: seq<Deriv>)
    requires DerivesAll(p, cx, k, ns, env, ds)
    ensures forall i :: 0 <= i < |ds| ==> Gathers(ds[i]) && Within(ds[i].fx, FxAll(ds))
    decreases ds, 0
  {
    if ns != [] {
      GatherExpr(p, cx, k, ns[0], env, ds[0]);
      GatherAll(p, cx, k, ns[1..], ds[0].env, ds[1..]);
      forall i | 0 < i < |ds| ensures Gathers(ds[i]) && Within(ds[i].fx, FxAll(ds)) { assert ds[1..][i - 1] == ds[i]; }
    }
  }

  lemma {:induction false} GatherList(p: Oracle, cx: Ctx, k: nat, ns: seq<Node>, env: Env, d: Deriv)
    requires DerivesList(p, cx, k, ns, env, d)
    ensures Gathers(d)
    decreases d, 6
  {
    GatherAll(p, cx, k, ns, env, d.kids);
  }

  lemma {:induction false} GatherInfers(p: Oracle, cx: Ctx, k: nat, n: Node, env: Env, d: Deriv)
    requires Infers(p, cx, k, n, env, d)
    ensures Gathers(d)
    decreases d, 8
  {
    if Assigns(n) {
      GatherExpr(p, cx, k, n.kind.value, env, d.kids[0]);
    } else if n.kind.IvarRead? {
    } else if n.kind.IvarWrite? {
      GatherExpr(p, cx, k, n.kind.value, env, d.kids[0]);
    } else if n.kind.Stmts? || n.kind.Parts? || n.kind.Spread? {
      GatherList(p, cx, k, if n.kind.Stmts? then n.kind.body else n.kind.parts, env, d.kids[0]);
    } else if n.kind.IfNode? {
      GatherIf(p, cx, k, n, env, d);
    } else if n.kind.AndNode? || n.kind.OrNode? {
      GatherExpr(p, cx, k, n.kind.l, env, d.kids[0]);
      GatherExpr(p, Under(cx, PushedClass(cx.guards, n)), k, n.kind.r, d.kids[0].env, d.kids[1]);
    } else if n.kind.ReturnNode? {
      GatherList(p, cx, k, n.kind.args, env, d.kids[0]);
    } else if n.kind.LambdaNode? {
      GatherClosure(p, cx, k, Block(n.kind.params, n.kind.block, []), true, env, d);
    } else if n.kind.CallNode? {
      GatherCall(p, cx, k, n, env, d);
    }
  }

  lemma {:induction false} GatherIf(p: Oracle, cx: Ctx, k: nat, n: Node, env: Env, d: Deriv)
    requires n.kind.IfNode? && Branches(p, cx, k, n, env, d)
    ensures Gathers(d)
    decreases d, 7
  {
    GatherExpr(p, cx, k, n.kind.pred, env, d.kids[0]);
    GatherBranch(p, cx, k, n, true, d.kids[0].env, d.kids[1]);
    GatherBranch(p, cx, k, n, false, d.kids[0].env, d.kids[2]);
  }

  lemma {:induction false} GatherBranch(p: Oracle, cx: Ctx, k: nat, n: Node, thn: bool, base: Env, d: Deriv)
    requires n.kind.IfNode? && Branch(p, cx, k, n, thn, base, d)
    ensures Gathers(d)
    decreases d, 7
  {
    var holds := thn != n.kind.negated;
    GatherList(p, if holds then Under(cx, Pushed(cx.guards, n.kind.definedGuard, n.kind.respondGuard)) else cx, k,
               if thn then n.kind.thn else n.kind.els,
               if holds then Flow.WhenTrue(base, n.kind.narrow) else Flow.WhenFalse(base, n.kind.narrow), d);
  }

  lemma {:induction false} GatherClosure(p: Oracle, cx: Ctx, k: nat, b: Block, rebindable: bool, env: Env, d: Deriv)
    requires Closes(p, cx, k, b, rebindable, env, d)
    ensures Gathers(d)
    decreases d, 7
  {
    GatherOpt(p, InBlock(cx, b, rebindable), k, b.body, BindUnknown(env, b.params), d.kids[0]);
  }

  lemma {:induction false} GatherReceiver(p: Oracle, cx: Ctx, k: nat, n: Node, env: Env, d: Deriv)
    requires n.kind.CallNode? && Receives(p, cx, k, n, env, d)
    ensures Gathers(d)
    decreases d, 6
  {
    if n.kind.recv.Some? {
      GatherExpr(p, Under(cx, Armed(cx.guards, n.kind.rspec)), k, n.kind.recv.value, env, d.kids[0]);
    }
  }

  lemma {:induction false} GatherOperands(p: Oracle, cx: Ctx, k: nat, n: Node, env: Env, ds: seq<Deriv>)
    requires n.kind.CallNode? && Operands(p, cx, k, n, env, ds)
    ensures Gathers(ds[0]) && Gathers(ds[1]) && Gathers(ds[2])
    decreases ds, 0
  {
    GatherReceiver(p, cx, k, n, env, ds[0]);
    GatherList(p, cx, k, n.kind.args, ds[0].env, ds[1]);
    if n.kind.blk.Some? {
      GatherClosure(p, cx, k, n.kind.blk.value, !p.keepsSelf(ds[0].ty, n.kind.name), ds[1].env, ds[2]);
    }
  }

  lemma {:induction false} GatherCall(p: Oracle, cx: Ctx, k: nat, n: Node, env: Env, d: Deriv)
    requires n.kind.CallNode? && Calls(p, cx, k, n, env, d)
    ensures Gathers(d)
    decreases d, 7
  {
    GatherOperands(p, cx, k, n, env, d.kids);
    WithinCall(d.kids[0].fx, d.kids[1].fx, d.kids[2].fx, CallFx(p, cx, SiteOf(cx, n, d.kids[0], d.kids[1]), d.walk));
    ThreeGathered(d);
  }

  lemma ThreeGathered(d: Deriv)
    requires |d.kids| == 3 && Gathers(d.kids[0]) && Gathers(d.kids[1]) && Gathers(d.kids[2])
    requires Within(d.kids[0].fx, d.fx) && Within(d.kids[1].fx, d.fx) && Within(d.kids[2].fx, d.fx)
    ensures Gathers(d)
  {}

  lemma WithinCall(recv: Fx, args: Fx, blk: Fx, own: Fx)
    ensures var all := Then(Then(Then(recv, args), blk), own);
            Within(recv, all) && Within(args, all) && Within(blk, all)
  {}

  // ----- bodies and files -----

  lemma {:induction false} GatherParams(p: Oracle, cx: Ctx, k: nat, ps: seq<Param>, ds: seq<Deriv>)
    requires DerivesParams(p, cx, k, ps, ds)
    ensures forall i :: 0 <= i < |ds| ==> Gathers(ds[i]) && Within(ds[i].fx, FxAll(ds))
    decreases |ds|
  {
    if ps != [] {
      var n := |ps| - 1;
      GatherParams(p, cx, k, ps[..n], ds[..n]);
      GatherOpt(p, cx, k, ps[n].default, ParamEnv(ps[..n], ds[..n]), ds[n]);
      FxAllThen(ds[..n], ds[n]);
      assert ds == ds[..n] + [ds[n]];
      forall i | 0 <= i < n ensures Gathers(ds[i]) && Within(ds[i].fx, FxAll(ds)) { assert ds[..n][i] == ds[i]; }
    }
  }

  lemma BodyGathered(p: Oracle, cx: Ctx, k: nat, def: Def, b: Body, c: Deriv)
    requires DerivesBody(p, cx, k, def, b)
    requires PartOf(c, b.body) || exists i :: 0 <= i < |b.defaults| && PartOf(c, b.defaults[i])
    ensures forall d :: d in c.fx.diags ==> d in BodyFx(p, cx, b).diags
  {
    if PartOf(c, b.body) {
      GatherOpt(p, cx, k, def.body, ParamEnv(def.params, b.defaults), b.body);
      PartGathered(c, b.body);
    } else {
      var i :| 0 <= i < |b.defaults| && PartOf(c, b.defaults[i]);
      GatherParams(p, cx, k, def.params, b.defaults);
      PartGathered(c, b.defaults[i]);
    }
  }

  lemma {:induction false} ItemsGathered(p: Oracle, cx: Ctx, k: nat, items: seq<Item>, at: Place, env: Env,
                                         ds: seq<ItemDeriv>, c: Deriv)
    requires DerivesItems(p, cx, k, items, at, env, ds) && PartOfFile(c, ds)
    ensures forall d :: d in c.fx.diags ==> d in ItemsFx(p, ds).diags
    decreases ds, 0
  {
    var i :| 0 <= i < |ds| && PartOfItem(c, ds[i]);
    if i == 0 {
      ItemGathered(p, cx, k, items[0], at, env, ds[0], c);
    } else {
      assert ds[1..][i - 1] == ds[i];
      ItemsGathered(p, cx, k, items[1..], at, ItemEnv(items[0], env, ds[0]), ds[1..], c);
    }
  }

  lemma {:induction false} ItemGathered(p: Oracle, cx: Ctx, k: nat, item: Item, at: Place, env: Env, d: ItemDeriv,
                                        c: Deriv)
    requires DerivesItem(p, cx, k, item, at, env, d) && PartOfItem(c, d)
    ensures forall x :: x in c.fx.diags ==> x in ItemFx(p, d).diags
    decreases d, 1
  {
    match item
    case DefItem(def, ownSelf) => BodyGathered(p, d.cx, k, def, d.body, c);
    case ClassItem(cls, superclass, body, _) =>
      ItemsGathered(p, cx, k, body, Place(cls, false, true), map[], d.items, c);
    case SingletonItem(body) => ItemsGathered(p, cx, k, body, at.(inSingleton := true), env, d.items, c);
    case PlainItem(node) =>
      GatherExpr(p, cx.(self := ScopeSelf(at)), k, node, env, d.deriv);
      PartGathered(c, d.deriv);
  }

  // ----- what must be reported -----

  /** `c` is a step of the file's derivation `ds`. */
  ghost predicate StepOf(p: Oracle, cx: Ctx, k: nat, file: seq<Item>, at: Place, ds: seq<ItemDeriv>, c: Deriv) {
    DerivesItems(p, cx, k, file, at, map[], ds) && c in Steps(ds)
  }

  /** Whatever the lookups prove of a call that is walked live and that nothing spares is reported. */
  lemma CallReported(p: Oracle, file: seq<Item>, fileCx: Ctx, at: Place, ds: seq<ItemDeriv>, cx: Ctx, k: nat, n: Node,
                     env: Env, c: Deriv, d: Diag)
    requires StepOf(p, fileCx, FULL, file, at, ds, c) && n.kind.CallNode? && Calls(p, cx, k, n, env, c) && !cx.silent
    requires Claims(p, SiteOf(cx, n, c.kids[0], c.kids[1]), d) && d.guards == cx.guards && d.rebindable == cx.rebindable
    requires !Spared(n, cx.guards, cx.rebindable)
    ensures d in ItemsFx(p, ds).diags
  {
    RaisesExactly(p, SiteOf(cx, n, c.kids[0], c.kids[1]), cx.guards, cx.rebindable, d);
    ItemsGathered(p, fileCx, FULL, file, at, map[], ds, c);
  }

  /** In particular every proven miss: a receiver of known type, no lookup that finds the method or is inconclusive. */
  lemma MissReported(p: Oracle, file: seq<Item>, fileCx: Ctx, at: Place, ds: seq<ItemDeriv>, cx: Ctx, k: nat, n: Node,
                     env: Env, c: Deriv)
    requires StepOf(p, fileCx, FULL, file, at, ds, c) && n.kind.CallNode? && Calls(p, cx, k, n, env, c) && !cx.silent
    requires Missing(p, c.kids[0].ty, n.kind.name) && !Spared(n, cx.guards, cx.rebindable)
    requires c.kids[0].ty.Instance? && n.kind.recv.None? ==> n.kind.name !in cx.guards.respond
    ensures exists d :: d in ItemsFx(p, ds).diags && d.code == E0101 && d.span == n.kind.msg && d.message.NoMethod? &&
                        d.message.site.call == n
  {
    var site := SiteOf(cx, n, c.kids[0], c.kids[1]);
    var d := Diag(E0101, n.kind.msg, NoMethod(site), cx.guards, cx.rebindable);
    CallReported(p, file, fileCx, at, ds, cx, k, n, env, c, d);
  }

  /** Every read of a constant nothing proves to exist. */
  lemma ConstantReported(p: Oracle, file: seq<Item>, fileCx: Ctx, at: Place, ds: seq<ItemDeriv>, cx: Ctx, n: Node,
                         env: Env, c: Deriv)
    requires StepOf(p, fileCx, FULL, file, at, ds, c) && LeafOf(p, cx, n, env, c) && !cx.silent
    requires n.kind.ConstRead? && n.kind.ty.Unknown? && !p.constKnown(n.span) && n.kind.path !in cx.guards.defined
    ensures exists d :: d in ItemsFx(p, ds).diags && d.code == E0104 && d.span == n.span &&
                        d.message == NoConstant(n.kind.path)
  {
    var d := Diag(E0104, n.span, NoConstant(n.kind.path), cx.guards, cx.rebindable);
    assert d in c.fx.diags;
    ItemsGathered(p, fileCx, FULL, file, at, map[], ds, c);
  }

  // ----- contradictory bindings -----

  /** A live call on a plain local of unknown type counts as a use of it in the body it stands in. */
  lemma UseTracked(p: Oracle, bodyCx: Ctx, left: nat, def: Def, b: Body, cx: Ctx, k: nat, n: Node, env: Env, c: Deriv)
    requires DerivesBody(p, bodyCx, left, def, b) && PartOf(c, b.body)
    requires n.kind.CallNode? && Calls(p, cx, k, n, env, c) && !cx.silent && p.closedWorld
    requires n.kind.recv.Some? && n.kind.recv.value.kind.LocalRead? && c.kids[0].ty.Unknown?
    requires !Spared(n, cx.guards, cx.rebindable)
    ensures Called(n.kind.recv.value.kind.x, Use(n.kind.name, n.kind.msg.0, n.kind.msg.1, Unknown)) in b.body.fx.events
  {
    GatherOpt(p, bodyCx, left, def.body, ParamEnv(def.params, b.defaults), b.body);
    PartGathered(c, b.body);
  }

  /** The body `b`, walked under `cx`, is one of the file's. */
  ghost predicate BodyIn(b: Body, cx: Ctx, ds: seq<ItemDeriv>)
    decreases ds
  {
    exists i :: 0 <= i < |ds| && if ds[i].OfDef? then ds[i].body == b && ds[i].cx == cx
                                 else ds[i].OfScope? && BodyIn(b, cx, ds[i].items)
  }

  lemma {:induction false} Flushed(p: Oracle, xs: seq<string>, cs: map<string, seq<Use>>, g: Guards, r: nat, x: string,
                                   d: Diag)
    requires x in xs && x in cs && d in BindingDiags(p, x, cs[x], g, r)
    ensures d in FlushDiags(p, xs, cs, g, r)
    decreases |xs|
  {
    var n := |xs| - 1;
    if xs[n] != x { Flushed(p, xs[..n], cs, g, r, x, d); }
  }

  /** What a body of the file raises, the file does. */
  lemma {:induction false} BodyReported(p: Oracle, b: Body, cx: Ctx, ds: seq<ItemDeriv>)
    requires BodyIn(b, cx, ds) && b.Body?
    ensures forall d :: d in BodyFx(p, cx, b).diags ==> d in ItemsFx(p, ds).diags
    decreases ds
  {
    if ds[0].OfDef? && ds[0].body == b && ds[0].cx == cx {
    } else if ds[0].OfScope? && BodyIn(b, cx, ds[0].items) {
      BodyReported(p, b, cx, ds[0].items);
    } else {
      var i :| 0 <= i < |ds| && if ds[i].OfDef? then ds[i].body == b && ds[i].cx == cx
                                else ds[i].OfScope? && BodyIn(b, cx, ds[i].items);
      assert ds[1..][i - 1] == ds[i];
      BodyReported(p, b, cx, ds[1..]);
    }
  }

  /** A live body whose uses of a local since its last reassignment no type answers is reported for it. */
  lemma ContradictionReported(p: Oracle, ds: seq<ItemDeriv>, cx: Ctx, k: nat, def: Def, b: Body, x: string)
    requires BodyIn(b, cx, ds) && DerivesBody(p, cx, k, def, b) && !cx.silent && Sorted(p.candidates)
    requires var calls := UsesOf(SinceRebound(b.body.fx.events, x), x);
             Traceable(calls, p.candidates) && forall t :: !Answers(calls, p.candidates, t)
    ensures exists d :: d in ItemsFx(p, ds).diags && d.code == E0107 &&
                        d.message == NoCommonType(x, UsesOf(SinceRebound(b.body.fx.events, x), x))
  {
    var calls, cs := UsesOf(SinceRebound(b.body.fx.events, x), x), Collected(b.body.fx.events);
    CollectedSinceRebound(b.body.fx.events, x);
    ContradictionIff(calls, p.candidates);
    assert Names([]) == {};
    assert x in cs && cs[x] == calls;
    var d := Diag(E0107, (calls[0].start, calls[0].end), NoCommonType(x, calls), cx.guards, cx.rebindable);
    Flushed(p, b.order, cs, cx.guards, cx.rebindable, x, d);
    BodyReported(p, b, cx, ds);
  }

  // ----- instance variables -----

  lemma {:induction false} BodyStores(p: Oracle, cx: Ctx, bs: seq<Body>, i: nat)
    requires i < |bs| && bs[i].Body?
    ensures forall s :: s in bs[i].body.fx.stores ==> s in BodiesFx(p, cx, bs).stores
    decreases |bs|
  {
    if i > 0 {
      assert bs[1..][i - 1] == bs[i];
      BodyStores(p, cx, bs[1..], i - 1);
    }
  }

  lemma {:induction false} BodyDerived(p: Oracle, cx: Ctx, k: nat, ms: seq<MethodSig>, bs: seq<Body>, i: nat)
    requires DerivesBodies(p, cx, k, ms, bs) && i < |bs| && bs[i].Body?
    ensures ms[i].def.Some? && DerivesBody(p, cx.(casts := p.fileCasts(ms[i].file)), k, ms[i].def.value, bs[i])
    decreases |bs|
  {
    if i > 0 {
      assert bs[1..][i - 1] == bs[i] && ms[1..][i - 1] == ms[i];
      BodyDerived(p, cx, k, ms[1..], bs[1..], i - 1);
    }
  }

  /** Where the walk of a class gives an instance variable a known type, every write to it in the class's methods,
      however deep, has that type. */
  lemma IvarWritesAgree(p: Oracle, c: ClassId, w: Walk, x: string, i: nat, cx: Ctx, k: nat, n: Node, env: Env, d: Deriv)
    requires w.Walk? && ClassWalk(p, c, w) && Typed(IvarsOf(c, BodiesFx(p, w.cx, w.bodies).stores), x) != Unknown
    requires i < |w.bodies| && w.bodies[i].Body? && PartOf(d, w.bodies[i].body)
    requires n.kind.IvarWrite? && n.kind.x == x && WritesIvar(p, cx, k, n, env, d) && cx.self == SInstance(c)
    ensures d.ty == Typed(IvarsOf(c, BodiesFx(p, w.cx, w.bodies).stores), x)
  {
    var ms := if c in p.classMethods then p.classMethods[c] else [];
    var stores := BodiesFx(p, w.cx, w.bodies).stores;
    BodyDerived(p, w.cx, w.left, ms, w.bodies, i);
    var def, b := ms[i].def.value, w.bodies[i];
    GatherOpt(p, w.cx.(casts := p.fileCasts(ms[i].file)), w.left, def.body, ParamEnv(def.params, b.defaults), b.body);
    PartGathered(d, b.body);
    BodyStores(p, w.cx, w.bodies, i);
    assert [Store(c, x, d.ty)][0] in d.fx.stores;
    var j :| 0 <= j < |stores| && stores[j] == Store(c, x, d.ty);
    IvarExact(c, x, stores, Typed(IvarsOf(c, stores), x));
  }

  /** So a read of known type has the type of every write its class walk meets. */
  lemma IvarReadSound(p: Oracle, c: ClassId, cx: Ctx, k: nat, read: Node, env: Env, r: Deriv, i: nat, cx': Ctx, k': nat,
                      write: Node, env': Env, d: Deriv)
    requires read.kind.IvarRead? && ReadsIvar(p, cx, k, read, env, r) && r.ty != Unknown && cx.self == SInstance(c)
    requires write.kind.IvarWrite? && write.kind.x == read.kind.x && WritesIvar(p, cx', k', write, env', d)
    requires cx'.self == SInstance(c)
    requires r.walk.Walk? ==> i < |r.walk.bodies| && r.walk.bodies[i].Body? && PartOf(d, r.walk.bodies[i].body)
    ensures r.walk.Walk? && d.ty == r.ty
  {
    assert IvarTyped(p, cx, k, c, read.kind.x, r.ty, r.walk);
    IvarWritesAgree(p, c, r.walk, read.kind.x, i, cx', k', write, env', d);
  }
}
