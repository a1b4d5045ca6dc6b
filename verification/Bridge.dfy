/** Where the walker's trees and the flow analysis speak of the same program: the walker infers what the
    analysis infers, so what is proved sound of the one is sound of the other's memo. */
module Bridge {
  import opened Types
  import opened Project
  import opened Verdicts
  import opened Typing
  import opened Footprint
  import opened Ruby
  import opened Flow
  import FlowSound
  import Walker

  /** A type test on a local answers by the core tables, which the analysis does not know; only its facts count. */
  predicate Exact(e: Expr)
    decreases e
  {
    !e.NilP? && !e.IsAP? && (e.And? || e.Or? ==> Exact(e.l) && Exact(e.r))
  }

  function LitTy(e: Expr): Option<Ty> {
    if e.IntLit? then Some(Int)
    else if e.FloatLit? then Some(Float)
    else if e.StrLit? then Some(Str)
    else if e.SymLit? then Some(Sym)
    else if e.BoolLit? then Some(Bool)
    else if e.NilLit? then Some(Nil)
    else if e.DefinedP? then Some(Union([Str, Nil]))
    else None
  }

  /** Node `n`, walked as `d` says with `k` levels left, is the expression `e`; what a call answers is what the context
      says of its site. Literals of collections, `case` and blocks are not among the forms. */
  ghost predicate Matches(fc: Context, k: nat, n: Node, e: Expr, d: Deriv)
    decreases e, 1
  {
    k > 0 &&
    if LitTy(e).Some? then n.kind == Plain(LitTy(e).value)
    else match e
      case SelfRef => n.kind.SelfRead?
      case ConstRef(c) => n.kind.ConstRead? && n.kind.ty == if c.Project? then Class(c.cls) else Unknown
      case Read(x) => n.kind == LocalRead(x)
      case Write(x, v) => n.kind.LocalWrite? && n.kind.x == x && MatchesValue(fc, k - 1, n, v, d)
      case OrWrite(x, v) => n.kind.LocalOrWrite? && n.kind.x == x && MatchesValue(fc, k - 1, n, v, d)
      case AndWrite(x, v) => n.kind.LocalOpWrite? && n.kind.x == x && MatchesValue(fc, k - 1, n, v, d)
      case OpWrite(x, v, _) => n.kind.LocalOpWrite? && n.kind.x == x && MatchesValue(fc, k - 1, n, v, d)
      case If(_, _, _) => MatchesIf(fc, k - 1, n, e, d)
      case Unless(_, _, _) => MatchesIf(fc, k - 1, n, e, d)
      case And(_, _) => n.kind.AndNode? && MatchesBoth(fc, k - 1, n, e, d)
      case Or(_, _) => n.kind.OrNode? && MatchesBoth(fc, k - 1, n, e, d)
      case Stmts(body) => n.kind.Stmts? && |d.kids| == 1 && MatchesAll(fc, k - 1, n.kind.body, body, d.kids[0].kids)
      case Return(args) =>
        n.kind.ReturnNode? && |d.kids| == 1 && MatchesAll(fc, k - 1, n.kind.args, args, d.kids[0].kids)
      case NilP(x) => Asks(n, x, "nil?") && n.kind.args == []
      case IsAP(x, _) => Asks(n, x, "is_a?") && |n.kind.args| == 1 && n.kind.args[0].kind.ConstRead? && k > 1
      case Call(_, _, id) => d.ty == fc.sigs(id) && MatchesCall(fc, k - 1, n, e, d)
      case _ => false
  }

  /** `x.name(...)` without a block. */
  predicate Asks(n: Node, x: string, name: string) {
    && n.kind.CallNode? && n.kind.name == name && n.kind.blk.None? && n.kind.recv.Some?
    && n.kind.recv.value.kind == LocalRead(x)
  }

  ghost predicate MatchesValue(fc: Context, k: nat, n: Node, v: Expr, d: Deriv)
    requires Assigns(n)
    decreases v, 2
  {
    |d.kids| == 1 && Exact(v) && Matches(fc, k, n.kind.value, v, d.kids[0])
  }

  ghost predicate MatchesBoth(fc: Context, k: nat, n: Node, e: Expr, d: Deriv)
    requires (n.kind.AndNode? || n.kind.OrNode?) && (e.And? || e.Or?)
    decreases e, 0
  {
    |d.kids| == 2 && Matches(fc, k, n.kind.l, e.l, d.kids[0]) && Matches(fc, k, n.kind.r, e.r, d.kids[1])
  }

  ghost predicate MatchesIf(fc: Context, k: nat, n: Node, e: Expr, d: Deriv)
    requires e.If? || e.Unless?
    decreases e, 0
  {
    && n.kind.IfNode? && n.kind.negated == e.Unless? && n.kind.narrow == NarrowOf(e.pred, fc.closed)
    && n.kind.leaves == Diverges(e.thn) && n.kind.hasElse == e.els.Some? && |d.kids| == 3
    && Matches(fc, k, n.kind.pred, e.pred, d.kids[0]) && MatchesAll(fc, k, n.kind.thn, e.thn, d.kids[1].kids)
    && MatchesElse(fc, k, n.kind.els, e.els, d.kids[2].kids)
  }

  ghost predicate MatchesElse(fc: Context, k: nat, ns: seq<Node>, e: Option<Expr>, ds: seq<Deriv>)
    decreases e, 2
  {
    if e.None? then ns == []
    else |ns| == 1 && |ds| == 1 && Exact(e.value) && Matches(fc, k, ns[0], e.value, ds[0])
  }

  ghost predicate MatchesCall(fc: Context, k: nat, n: Node, e: Expr, d: Deriv)
    requires e.Call?
    decreases e, 0
  {
    && n.kind.CallNode? && n.kind.blk.None? && n.kind.name != "extend" && |d.kids| == 3
    && MatchesAll(fc, k, n.kind.args, e.args, d.kids[1].kids)
    && if e.recv.None? then n.kind.recv.None?
       else n.kind.recv.Some? && |d.kids[0].kids| == 1 &&
            Matches(fc, k, n.kind.recv.value, e.recv.value, d.kids[0].kids[0])
  }

  ghost predicate MatchesAll(fc: Context, k: nat, ns: seq<Node>, es: seq<Expr>, ds: seq<Deriv>)
    decreases es, 0
  {
    |ns| == |es| == |ds| &&
    (es != [] ==> Exact(es[0]) && Matches(fc, k, ns[0], es[0], ds[0]) && MatchesAll(fc, k, ns[1..], es[1..], ds[1..]))
  }

  // ----- the walker infers what the analysis infers -----

  /** No casts, the same `self`, and no keyword default that returns into the walk in hand. */
  ghost predicate Agree(p: Oracle, cx: Ctx, fc: Context) {
    cx.casts == [] && SelfAsTy(cx.self) == fc.selfTy && NoDefaultReturns(p)
  }

  ghost predicate Same(d: Deriv, r: Infer, exact: bool) {
    d.env == r.env && d.fx.rets == r.rets && (exact ==> d.ty == r.ty)
  }

  lemma {:induction false} Bridged(p: Oracle, cx: Ctx, fc: Context, k: nat, n: Node, env: Env, e: Expr, d: Deriv)
    requires Derives(p, cx, k, n, env, d) && Matches(fc, k, n, e, d) && Agree(p, cx, fc) && k <= FULL
    ensures Same(d, InferExpr(fc, e, env), Exact(e))
    decreases e, 1
  {
    if Control(e) {
      BridgedControl(p, cx, fc, k - 1, n, env, e, d);
    } else {
      BridgedPlain(p, cx, fc, k - 1, n, env, e, d);
    }
  }

  predicate Control(e: Expr) { e.If? || e.Unless? || e.And? || e.Or? || e.Stmts? || e.Return? }

  lemma {:induction false} BridgedControl(p: Oracle, cx: Ctx, fc: Context, k: nat, n: Node, env: Env, e: Expr, d: Deriv)
    requires Infers(p, cx, k, n, env, d) && Matches(fc, k + 1, n, e, d) && Agree(p, cx, fc) && k < FULL && Control(e)
    ensures Same(d, InferExpr(fc, e, env), Exact(e))
    decreases e, 0, 9
  {
    if e.If? || e.Unless? {
      BridgedIf(p, cx, fc, k, n, env, e, d);
    } else if e.And? || e.Or? {
      BridgedBoth(p, cx, fc, k, n, env, e, d);
    } else if e.Stmts? {
      BridgedStmts(p, cx, fc, k, n, env, e, d);
    } else {
      BridgedReturn(p, cx, fc, k, n, env, e, d);
    }
  }

  lemma {:induction false} BridgedPlain(p: Oracle, cx: Ctx, fc: Context, k: nat, n: Node, env: Env, e: Expr, d: Deriv)
    requires Infers(p, cx, k, n, env, d) && Matches(fc, k + 1, n, e, d) && Agree(p, cx, fc) && k < FULL && !Control(e)
    ensures Same(d, InferExpr(fc, e, env), Exact(e))
    decreases e, 0, 9
  {
    if e.Write? || e.OrWrite? || e.AndWrite? || e.OpWrite? {
      BridgedWrite(p, cx, fc, k, n, env, e, d);
    } else if e.NilP? || e.IsAP? {
      BridgedAsk(p, cx, fc, k, n, env, e, d);
    } else if e.Call? {
      BridgedCall(p, cx, fc, k, n, env, e, d);
    } else {
      BridgedLeaf(p, cx, fc, n, env, e, d);
    }
  }

  lemma {:induction false} BridgedLeaf(p: Oracle, cx: Ctx, fc: Context, n: Node, env: Env, e: Expr, d: Deriv)
    requires LeafOf(p, cx, n, env, d) && SelfAsTy(cx.self) == fc.selfTy
    requires if LitTy(e).Some? then n.kind == Plain(LitTy(e).value)
             else if e.SelfRef? then n.kind.SelfRead?
             else if e.ConstRef? then n.kind.ConstRead? && n.kind.ty == if e.c.Project? then Class(e.c.cls) else Unknown
             else e.Read? && n.kind == LocalRead(e.x)
    ensures Same(d, InferExpr(fc, e, env), true)
  {}

  lemma {:induction false} BridgedAll(p: Oracle, cx: Ctx, fc: Context, k: nat, ns: seq<Node>, env: Env, es: seq<Expr>,
                                      ds: seq<Deriv>)
    requires DerivesAll(p, cx, k, ns, env, ds) && MatchesAll(fc, k, ns, es, ds) && Agree(p, cx, fc) && k <= FULL
    ensures var m := InferList(fc, es, env);
            EndEnv(env, ds) == m.env && FxAll(ds).rets == m.rets && TysOf(ds) == m.tys
    decreases es, 0
  {
    if es != [] {
      Bridged(p, cx, fc, k, ns[0], env, es[0], ds[0]);
      BridgedAll(p, cx, fc, k, ns[1..], ds[0].env, es[1..], ds[1..]);
    }
  }

  lemma {:induction false} BridgedWrite(p: Oracle, cx: Ctx, fc: Context, k: nat, n: Node, env: Env, e: Expr, d: Deriv)
    requires (e.Write? || e.OrWrite? || e.AndWrite? || e.OpWrite?) && Matches(fc, k + 1, n, e, d)
    requires Infers(p, cx, k, n, env, d) && Agree(p, cx, fc) && k < FULL
    ensures Same(d, InferExpr(fc, e, env), true)
    decreases e, 0, 8
  {
    var v := d.kids[0];
    assert Writes(p, cx, k, n, env, d);
    Bridged(p, cx, fc, k, n.kind.value, env, e.e, v);
    BindOne(v.env, e.x, d.ty);
  }

  lemma {:induction false} BridgedBoth(p: Oracle, cx: Ctx, fc: Context, k: nat, n: Node, env: Env, e: Expr, d: Deriv)
    requires (e.And? || e.Or?) && Matches(fc, k + 1, n, e, d)
    requires Infers(p, cx, k, n, env, d) && Agree(p, cx, fc) && k < FULL
    ensures Same(d, InferExpr(fc, e, env), Exact(e))
    decreases e, 0, 8
  {
    assert AndsOrs(p, cx, k, n, env, d) && MatchesBoth(fc, k, n, e, d);
    Bridged(p, cx, fc, k, n.kind.l, env, e.l, d.kids[0]);
    Bridged(p, Under(cx, PushedClass(cx.guards, n)), fc, k, n.kind.r, d.kids[0].env, e.r, d.kids[1]);
  }

  lemma {:induction false} BridgedStmts(p: Oracle, cx: Ctx, fc: Context, k: nat, n: Node, env: Env, e: Expr, d: Deriv)
    requires e.Stmts? && Matches(fc, k + 1, n, e, d)
    requires Infers(p, cx, k, n, env, d) && Agree(p, cx, fc) && k < FULL
    ensures Same(d, InferExpr(fc, e, env), true)
    decreases e, 0, 8
  {
    var v := d.kids[0];
    assert WalksParts(p, cx, k, n, env, d) && DerivesList(p, cx, k, n.kind.body, env, v);
    BridgedAll(p, cx, fc, k, n.kind.body, env, e.body, v.kids);
  }

  lemma {:induction false} BridgedReturn(p: Oracle, cx: Ctx, fc: Context, k: nat, n: Node, env: Env, e: Expr, d: Deriv)
    requires e.Return? && Matches(fc, k + 1, n, e, d)
    requires Infers(p, cx, k, n, env, d) && Agree(p, cx, fc) && k < FULL
    ensures Same(d, InferExpr(fc, e, env), true)
    decreases e, 0, 8
  {
    var v := d.kids[0];
    assert Typing.Returns(p, cx, k, n, env, d) && DerivesList(p, cx, k, n.kind.args, env, v);
    BridgedAll(p, cx, fc, k, n.kind.args, env, e.args, v.kids);
  }

  lemma {:induction false} BridgedIf(p: Oracle, cx: Ctx, fc: Context, k: nat, n: Node, env: Env, e: Expr, d: Deriv)
    requires (e.If? || e.Unless?) && Matches(fc, k + 1, n, e, d)
    requires Infers(p, cx, k, n, env, d) && Agree(p, cx, fc) && k < FULL
    ensures Same(d, InferExpr(fc, e, env), true)
    decreases e, 0, 8
  {
    var pred, thn, els := d.kids[0], d.kids[1], d.kids[2];
    assert Branches(p, cx, k, n, env, d) && MatchesIf(fc, k, n, e, d);
    Bridged(p, cx, fc, k, n.kind.pred, env, e.pred, pred);
    BridgedBranch(p, cx, fc, k, n, pred.env, e, thn);
    BridgedElse(p, cx, fc, k, n, pred.env, e, els);
    JoinedAsInferred(fc, n, env, e, pred, thn, els, d);
  }

  lemma {:induction false} BridgedBranch(p: Oracle, cx: Ctx, fc: Context, k: nat, n: Node, base: Env, e: Expr, d: Deriv)
    requires (e.If? || e.Unless?) && n.kind.IfNode? && n.kind.negated == e.Unless?
    requires n.kind.narrow == NarrowOf(e.pred, fc.closed) && MatchesAll(fc, k, n.kind.thn, e.thn, d.kids)
    requires Branch(p, cx, k, n, true, base, d) && Agree(p, cx, fc) && k < FULL
    ensures var nw := NarrowOf(e.pred, fc.closed);
            var m := InferList(fc, e.thn, if e.If? then WhenTrue(base, nw) else WhenFalse(base, nw));
            d.env == m.env && d.fx.rets == m.rets && d.ty == LastTy(m.tys)
    decreases e, 0, 0
  {
    var holds := !n.kind.negated;
    var inner := if holds then Under(cx, Pushed(cx.guards, n.kind.definedGuard, n.kind.respondGuard)) else cx;
    var start := if holds then WhenTrue(base, n.kind.narrow) else WhenFalse(base, n.kind.narrow);
    assert DerivesList(p, inner, k, n.kind.thn, start, d);
    BridgedAll(p, inner, fc, k, n.kind.thn, start, e.thn, d.kids);
  }

  lemma {:induction false} BridgedElse(p: Oracle, cx: Ctx, fc: Context, k: nat, n: Node, base: Env, e: Expr, d: Deriv)
    requires (e.If? || e.Unless?) && n.kind.IfNode? && n.kind.negated == e.Unless?
    requires n.kind.narrow == NarrowOf(e.pred, fc.closed) && MatchesElse(fc, k, n.kind.els, e.els, d.kids)
    requires Branch(p, cx, k, n, false, base, d) && Agree(p, cx, fc) && k < FULL
    ensures var nw := NarrowOf(e.pred, fc.closed);
            Same(d, InferOpt(fc, e.els, if e.If? then WhenFalse(base, nw) else WhenTrue(base, nw)), true)
    decreases e, 0, 0
  {
    var holds := n.kind.negated;
    var inner := if holds then Under(cx, Pushed(cx.guards, n.kind.definedGuard, n.kind.respondGuard)) else cx;
    var start := if holds then WhenTrue(base, n.kind.narrow) else WhenFalse(base, n.kind.narrow);
    assert DerivesList(p, inner, k, n.kind.els, start, d) && DerivesAll(p, inner, k, n.kind.els, start, d.kids);
    if e.els.Some? {
      Bridged(p, inner, fc, k, n.kind.els[0], start, e.els.value, d.kids[0]);
      OneDerived(p, inner, k, n.kind.els, start, d);
    }
  }

  lemma OneDerived(p: Oracle, cx: Ctx, k: nat, ns: seq<Node>, env: Env, d: Deriv)
    requires DerivesList(p, cx, k, ns, env, d) && |ns| == 1 && |d.kids| == 1
    ensures d.env == d.kids[0].env && d.fx.rets == d.kids[0].fx.rets && d.ty == d.kids[0].ty
  {
    assert TysOf(d.kids) == [d.kids[0].ty] && d.kids[1..] == [];
    assert FxAll(d.kids) == Then(d.kids[0].fx, STILL) && EndEnv(env, d.kids) == d.kids[0].env;
  }

  lemma JoinedAsInferred(fc: Context, n: Node, env: Env, e: Expr, pred: Deriv, thn: Deriv, els: Deriv, d: Deriv)
    requires (e.If? || e.Unless?) && n.kind.IfNode? && n.kind.negated == e.Unless? && Joined(n, pred, thn, els, d)
    requires n.kind.narrow == NarrowOf(e.pred, fc.closed) && n.kind.leaves == Diverges(e.thn)
    requires n.kind.hasElse == e.els.Some?
    requires var p := InferExpr(fc, e.pred, env); pred.env == p.env && pred.fx.rets == p.rets
    requires var nw := NarrowOf(e.pred, fc.closed);
             var m := InferList(fc, e.thn, if e.If? then WhenTrue(pred.env, nw) else WhenFalse(pred.env, nw));
             thn.env == m.env && thn.fx.rets == m.rets && thn.ty == LastTy(m.tys)
    requires var nw := NarrowOf(e.pred, fc.closed);
             Same(els, InferOpt(fc, e.els, if e.If? then WhenFalse(pred.env, nw) else WhenTrue(pred.env, nw)), true)
    ensures Same(d, InferExpr(fc, e, env), true)
  {
    var nw := NarrowOf(e.pred, fc.closed);
    var p, holds, fails := InferExpr(fc, e.pred, env), WhenTrue(pred.env, nw), WhenFalse(pred.env, nw);
    if e.If? {
      FlowSound.InferIf(fc, e, env);
      JoinedIsBranched(fc, n, e.thn, e.els, p, holds, fails, pred, thn, els, d,
                       IfShortcut(e.pred, e.thn, e.els, fc.closed));
    } else {
      FlowSound.InferUnless(fc, e, env);
      JoinedIsBranched(fc, n, e.thn, e.els, p, fails, holds, pred, thn, els, d,
                       UnlessShortcut(e.pred, e.thn, e.els, fc.closed));
    }
  }

  lemma JoinedIsBranched(fc: Context, n: Node, body: seq<Expr>, other: Option<Expr>, p: Infer, thnEnv: Env, elsEnv: Env,
                         pred: Deriv, thn: Deriv, els: Deriv, d: Deriv, shortcut: bool)
    requires n.kind.IfNode? && Joined(n, pred, thn, els, d) && pred.env == p.env && pred.fx.rets == p.rets
    requires var m := InferList(fc, body, thnEnv); thn.env == m.env && thn.fx.rets == m.rets && thn.ty == LastTy(m.tys)
    requires Same(els, InferOpt(fc, other, elsEnv), true)
    requires shortcut <==> n.kind.narrow.Some? && n.kind.leaves && !n.kind.hasElse &&
                           (n.kind.negated ==> !n.kind.narrow.value.kind.IsAFact?)
    ensures Same(d, FlowSound.Branched(fc, body, other, p, thnEnv, elsEnv, shortcut), true)
  {
    assert pred.fx.rets + (thn.fx.rets + els.fx.rets) == pred.fx.rets + thn.fx.rets + els.fx.rets;
  }

  /** A call without a block leaves what its arguments leave; its nested walk leaks no returns. */
  lemma CallLeaves(p: Oracle, cx: Ctx, k: nat, n: Node, env: Env, d: Deriv)
    requires n.kind.CallNode? && Calls(p, cx, k, n, env, d) && NoDefaultReturns(p) && k <= FULL && n.kind.blk.None?
    ensures |d.kids| == 3 && d.env == d.kids[1].env && d.fx.rets == d.kids[0].fx.rets + d.kids[1].fx.rets
    ensures Receives(p, cx, k, n, env, d.kids[0]) && DerivesList(p, cx, k, n.kind.args, d.kids[0].env, d.kids[1])
  {
    var site := SiteOf(cx, n, d.kids[0], d.kids[1]);
    assert Operands(p, cx, k, n, env, d.kids);
    assert Blocks(p, cx, k, n, d.kids[0].ty, d.kids[1].env, d.kids[2]);
    MethodLeakFoot(p, cx, k, site, d.ty, d.walk);
    NothingMore(d, d.kids, CallFx(p, cx, site, d.walk));
  }

  lemma NothingMore(d: Deriv, ds: seq<Deriv>, fx: Fx)
    requires |ds| == 3 && d.fx == Then(OperandFx(ds[0], ds[1], ds[2]), fx) && fx.rets == [] && ds[2].fx.rets == []
    ensures d.fx.rets == ds[0].fx.rets + ds[1].fx.rets
  {}

  lemma {:induction false} BridgedCall(p: Oracle, cx: Ctx, fc: Context, k: nat, n: Node, env: Env, e: Expr, d: Deriv)
    requires e.Call? && Matches(fc, k + 1, n, e, d)
    requires Infers(p, cx, k, n, env, d) && Agree(p, cx, fc) && k < FULL
    ensures Same(d, InferExpr(fc, e, env), true)
    decreases e, 0, 8
  {
    assert Calls(p, cx, k, n, env, d) && MatchesCall(fc, k, n, e, d);
    CallLeaves(p, cx, k, n, env, d);
    BridgedReceiver(p, cx, fc, k, n, env, e, d.kids[0]);
    BridgedAll(p, cx, fc, k, n.kind.args, d.kids[0].env, e.args, d.kids[1].kids);
    CallAsInferred(fc, e, env, d.kids[0], d.kids[1], d);
  }

  lemma {:induction false} BridgedReceiver(p: Oracle, cx: Ctx, fc: Context, k: nat, n: Node, env: Env, e: Expr,
                                           d: Deriv)
    requires e.Call? && n.kind.CallNode? && n.kind.name != "extend" && (e.recv.None? <==> n.kind.recv.None?)
    requires e.recv.Some? ==> |d.kids| == 1 && Matches(fc, k, n.kind.recv.value, e.recv.value, d.kids[0])
    requires Receives(p, cx, k, n, env, d) && Agree(p, cx, fc) && k < FULL
    ensures var r := InferOpt(fc, e.recv, env); d.env == r.env && d.fx.rets == r.rets
    decreases e, 0, 0
  {
    if e.recv.Some? {
      Bridged(p, Under(cx, Armed(cx.guards, n.kind.rspec)), fc, k, n.kind.recv.value, env, e.recv.value, d.kids[0]);
    }
  }

  lemma CallAsInferred(fc: Context, e: Expr, env: Env, recv: Deriv, args: Deriv, d: Deriv)
    requires e.Call? && d.ty == fc.sigs(e.id) && d.env == args.env && d.fx.rets == recv.fx.rets + args.fx.rets
    requires var r := InferOpt(fc, e.recv, env); recv.env == r.env && recv.fx.rets == r.rets
    requires var m := InferList(fc, e.args, recv.env); args.env == m.env && args.fx.rets == m.rets
    ensures Same(d, InferExpr(fc, e, env), true)
  {}

  /** `x.nil?` and `x.is_a?(C)` change nothing. */
  lemma BridgedAsk(p: Oracle, cx: Ctx, fc: Context, k: nat, n: Node, env: Env, e: Expr, d: Deriv)
    requires (e.NilP? || e.IsAP?) && Matches(fc, k + 1, n, e, d)
    requires Infers(p, cx, k, n, env, d) && Agree(p, cx, fc) && k < FULL
    ensures Same(d, InferExpr(fc, e, env), false)
  {
    assert Calls(p, cx, k, n, env, d);
    CallLeaves(p, cx, k, n, env, d);
    AsksReceiver(p, cx, k, n, env, d.kids[0]);
    AskedArgs(p, cx, k, n.kind.args, env, d.kids[1]);
  }

  lemma AsksReceiver(p: Oracle, cx: Ctx, k: nat, n: Node, env: Env, d: Deriv)
    requires n.kind.CallNode? && n.kind.recv.Some? && n.kind.recv.value.kind.LocalRead? && n.kind.name != "extend"
    requires Receives(p, cx, k, n, env, d)
    ensures d.env == env && d.fx.rets == []
  {
    var r, inner := n.kind.recv.value, Under(cx, Armed(cx.guards, n.kind.rspec));
    assert Derives(p, inner, k, r, env, d.kids[0]);
    if k > 0 { assert Infers(p, inner, k - 1, r, env, d.kids[0]); }
  }

  lemma AskedArgs(p: Oracle, cx: Ctx, k: nat, ns: seq<Node>, env: Env, d: Deriv)
    requires DerivesList(p, cx, k, ns, env, d) && (ns == [] || (|ns| == 1 && ns[0].kind.ConstRead? && k > 0))
    ensures d.env == env && d.fx.rets == []
  {
    assert DerivesAll(p, cx, k, ns, env, d.kids);
    if ns != [] {
      OneDerived(p, cx, k, ns, env, d);
      assert Derives(p, cx, k, ns[0], env, d.kids[0]);
      assert Infers(p, cx, k - 1, ns[0], env, d.kids[0]);
    }
  }

  // ----- what is memoised is sound -----

  /** The body of method `m` is `e`, walked by `w` as the flow analysis walks it. */
  ghost predicate BodyMatches(p: Oracle, fc: Context, m: MethodSig, e: Expr, w: Walk) {
    && m.def.Some? && m.def.value.body.Some? && w.Walk? && |w.bodies| == 1 && w.bodies[0].Body? && w.left <= FULL
    && |w.bodies[0].defaults| == |m.def.value.params| && Agree(p, w.cx, fc) && Exact(e)
    && Matches(fc, w.left, m.def.value.body.value, e, w.bodies[0].body)
  }

  /** A memoised return type is the one the flow analysis folds from the body, or the sorbet signature's for Unknown. */
  lemma MemoIsInferred(p: Oracle, fc: Context, key: Key, m: MethodSig, e: Expr, ty: Ty, w: Walk)
    requires LookupOf(p, key) == Found(m) && Walker.MethodProven(p, key, ty, w) && BodyMatches(p, fc, m, e, w)
    ensures var b := w.bodies[0];
            ty == Filled(MethodReturn(fc, Some(e), ParamEnv(m.def.value.params, b.defaults)), m.sorbet)
  {
    var b, def := w.bodies[0], m.def.value;
    assert DerivesBody(p, w.cx, w.left, def, b);
    assert DerivesOpt(p, w.cx, w.left, def.body, ParamEnv(def.params, b.defaults), b.body);
    Bridged(p, w.cx, fc, w.left, def.body.value, ParamEnv(def.params, b.defaults), e, b.body);
  }

  /** So every value a run of the body ends with has the memoised type, unless a sorbet signature was trusted in
      place of Unknown. */
  lemma MemoIsSound(p: Oracle, fc: Context, rt: Runtime, key: Key, m: MethodSig, e: Expr, ty: Ty, w: Walk,
                    s: Ruby.Store)
    requires LookupOf(p, key) == Found(m) && Walker.MethodProven(p, key, ty, w) && BodyMatches(p, fc, m, e, w)
    requires FlowSound.Ready(rt, fc, ParamEnv(m.def.value.params, w.bodies[0].defaults), s)
    requires FlowSound.Covered(e, fc.closed)
    requires m.sorbet == Unknown ||
             MethodReturn(fc, Some(e), ParamEnv(m.def.value.params, w.bodies[0].defaults)) != Unknown
    ensures var o := Eval(rt, e, s); o.Normal? || o.Returned? ==> Has(rt.w, o.v, ty)
  {
    MemoIsInferred(p, fc, key, m, e, ty, w);
    FlowSound.MethodReturnSound(rt, fc, Some(e), ParamEnv(m.def.value.params, w.bodies[0].defaults), s);
  }
}
