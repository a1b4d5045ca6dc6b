/** What a diagnostic means: it follows from a derivation of the very call, nothing in force spares it, and the fault is
    real. */
module Accusations {
  import opened Types
  import opened Compat
  import opened Constraints
  import opened Project
  import opened Verdicts
  import opened Typing
  import opened Faults
  import opened Fillings
  import Flow

  // ----- the derivations a run is made of -----

  ghost predicate PartOf(c: Deriv, d: Deriv)
    decreases d
  {
    c == d || exists i :: 0 <= i < |d.kids| && PartOf(c, d.kids[i])
  }

  ghost predicate PartOfItem(c: Deriv, d: ItemDeriv)
    decreases d, 0
  {
    match d
    case OfDef(_, b) => b.Body? && (PartOf(c, b.body) || exists i :: 0 <= i < |b.defaults| && PartOf(c, b.defaults[i]))
    case OfNode(n) => PartOf(c, n)
    case OfScope(_, items) => exists i :: 0 <= i < |items| && PartOfItem(c, items[i])
  }

  ghost predicate PartOfFile(c: Deriv, ds: seq<ItemDeriv>) { exists i :: 0 <= i < |ds| && PartOfItem(c, ds[i]) }

  /** All derivations in the derivation of a file. */
  ghost function Steps(ds: seq<ItemDeriv>): iset<Deriv> { iset c | PartOfFile(c, ds) }

  ghost const EVERY: iset<Deriv> := iset c: Deriv | true

  /** With a derivation all it is made of. */
  ghost predicate Whole(run: iset<Deriv>) { forall d, i :: d in run && 0 <= i < |d.kids| ==> d.kids[i] in run }

  ghost predicate AllIn(ds: seq<Deriv>, run: iset<Deriv>) { forall i :: 0 <= i < |ds| ==> ds[i] in run }

  ghost predicate Holds(run: iset<Deriv>, d: ItemDeriv)
    decreases d
  {
    match d
    case OfDef(_, b) => b.Body? ==> b.body in run && AllIn(b.defaults, run)
    case OfNode(n) => n in run
    case OfScope(_, items) => forall i :: 0 <= i < |items| ==> Holds(run, items[i])
  }

  lemma {:induction false} KidOfPart(c: Deriv, i: nat, d: Deriv)
    requires PartOf(c, d) && i < |c.kids|
    ensures PartOf(c.kids[i], d)
    decreases d
  {
    if c == d {
      assert PartOf(d.kids[i], d.kids[i]);
    } else {
      var j :| 0 <= j < |d.kids| && PartOf(c, d.kids[j]);
      KidOfPart(c, i, d.kids[j]);
    }
  }

  lemma {:induction false} KidOfItem(c: Deriv, i: nat, d: ItemDeriv)
    requires PartOfItem(c, d) && i < |c.kids|
    ensures PartOfItem(c.kids[i], d)
    decreases d
  {
    match d
    case OfDef(_, b) =>
      if PartOf(c, b.body) {
        KidOfPart(c, i, b.body);
      } else {
        var j :| 0 <= j < |b.defaults| && PartOf(c, b.defaults[j]);
        KidOfPart(c, i, b.defaults[j]);
      }
    case OfNode(n) => KidOfPart(c, i, n);
    case OfScope(_, items) =>
      var j :| 0 <= j < |items| && PartOfItem(c, items[j]);
      KidOfItem(c, i, items[j]);
  }

  lemma {:induction false} HoldsParts(run: iset<Deriv>, d: ItemDeriv)
    requires forall c :: PartOfItem(c, d) ==> c in run
    ensures Holds(run, d)
    decreases d
  {
    match d
    case OfDef(_, b) =>
      if b.Body? {
        assert PartOf(b.body, b.body);
        forall i | 0 <= i < |b.defaults| ensures b.defaults[i] in run { assert PartOf(b.defaults[i], b.defaults[i]); }
      }
    case OfNode(n) => assert PartOf(n, n);
    case OfScope(_, items) =>
      forall i | 0 <= i < |items| ensures Holds(run, items[i]) {
        forall c | PartOfItem(c, items[i]) ensures c in run { assert PartOfItem(c, d); }
        HoldsParts(run, items[i]);
      }
  }

  lemma StepsHold(ds: seq<ItemDeriv>)
    ensures Whole(Steps(ds)) && forall i :: 0 <= i < |ds| ==> Holds(Steps(ds), ds[i])
  {
    forall d, j | d in Steps(ds) && 0 <= j < |d.kids| ensures d.kids[j] in Steps(ds) {
      var i :| 0 <= i < |ds| && PartOfItem(d, ds[i]);
      KidOfItem(d, j, ds[i]);
    }
    forall i | 0 <= i < |ds| ensures Holds(Steps(ds), ds[i]) {
      forall c | PartOfItem(c, ds[i]) ensures c in Steps(ds) { assert PartOfFile(c, ds); }
      HoldsParts(Steps(ds), ds[i]);
    }
  }

  // ----- proven diagnostics -----

  /** The receiver and the arguments a diagnostic speaks of are those the call has where the run derives it, not in
      silence, under the guards the diagnostic was raised under. */
  ghost predicate Derived(p: Oracle, run: iset<Deriv>, d: Diag, site: Site)
    requires site.call.kind.CallNode?
  {
    exists cx, k, env, c :: DerivedBy(p, run, d, site, cx, k, env, c)
  }

  ghost predicate DerivedBy(p: Oracle, run: iset<Deriv>, d: Diag, site: Site, cx: Ctx, k: nat, env: Env, c: Deriv)
    requires site.call.kind.CallNode?
  {
    && c in run && Calls(p, cx, k, site.call, env, c) && site == SiteOf(cx, site.call, c.kids[0], c.kids[1])
    && !cx.silent && cx.guards == d.guards && cx.rebindable == d.rebindable
  }

  /** An enclosing `&&` proved something of the receiver. */
  predicate Narrowed(call: Node, g: Guards)
    requires call.kind.CallNode?
  {
    call.kind.recv.Some? &&
    var name := ExprName(call.kind.recv.value);
    name.Some? && exists i :: 0 <= i < |g.narrowed| && g.narrowed[i].0 == name.value
  }

  /** What the lookups answer for the call proves the fault, and no guard spares the call. */
  ghost predicate ProvenCall(p: Oracle, run: iset<Deriv>, d: Diag, site: Site) {
    && site.call.kind.CallNode? && Derived(p, run, d, site) && Claims(p, site, d)
    && !Spared(site.call, d.guards, d.rebindable) && !Narrowed(site.call, d.guards)
  }

  /** A tracked use is a call of the run, on a plain local that has no type there. */
  ghost predicate Tracked(p: Oracle, run: iset<Deriv>, x: string, u: Use) {
    exists cx, k, n, env, c :: TrackedBy(p, run, x, u, cx, k, n, env, c)
  }

  ghost predicate TrackedBy(p: Oracle, run: iset<Deriv>, x: string, u: Use, cx: Ctx, k: nat, n: Node, env: Env,
                            c: Deriv) {
    && n.kind.CallNode? && c in run && Calls(p, cx, k, n, env, c) && c.kids[0].ty == Unknown && u.recv == Unknown
    && n.kind.recv.Some? && n.kind.recv.value.kind == LocalRead(x)
    && u.name == n.kind.name && (u.start, u.end) == n.kind.msg && !Spared(n, cx.guards, cx.rebindable) && !cx.silent
  }

  /** The calls a contradiction names are those of a body of the run on `x` since its last reassignment there. */
  ghost predicate OfBody(p: Oracle, run: iset<Deriv>, x: string, calls: seq<Use>) {
    exists cx, k, def, b ::
      DerivesBody(p, cx, k, def, b) && b.body in run && calls == UsesOf(SinceRebound(b.body.fx.events, x), x)
  }

  ghost predicate ProvenBinding(p: Oracle, run: iset<Deriv>, x: string, calls: seq<Use>) {
    && Classify(calls, p.candidates) == Contradiction && OfBody(p, run, x, calls)
    && forall i :: 0 <= i < |calls| ==> Tracked(p, run, x, calls[i])
  }

  /** The fault a diagnostic names is proven, and nothing in force spares it. */
  ghost predicate Proven(p: Oracle, run: iset<Deriv>, d: Diag) {
    match d.message
    case NoMethod(site) => ProvenCall(p, run, d, site)
    case WrongCount(site) => ProvenCall(p, run, d, site)
    case BadArgument(site, _) => ProvenCall(p, run, d, site)
    case NoConstant(path) => d.code == E0104 && !p.constKnown(d.span) && path !in d.guards.defined
    case NoCommonType(x, calls) => d.code == E0107 && ProvenBinding(p, run, x, calls)
  }

  // ----- every derivation raises proven diagnostics only -----

  /** `h` holds everything `g` holds, and maybe more pushed on top. */
  predicate Deeper(g: Guards, h: Guards) {
    g.defined <= h.defined && g.respond <= h.respond && g.subjects <= h.subjects && g.narrowed <= h.narrowed
  }

  /** What `&&` proves of a class object leaves its methods unknown. */
  ghost predicate NarrowsToUnknown(g: Guards) { forall i :: 0 <= i < |g.narrowed| ==> g.narrowed[i].1 == Unknown }

  /** Raised under everything `cx` holds. */
  ghost predicate Below(d: Diag, cx: Ctx) { Deeper(cx.guards, d.guards) && cx.rebindable <= d.rebindable }

  ghost predicate Good(p: Oracle, run: iset<Deriv>, cx: Ctx, fx: Fx) {
    && (forall d :: d in fx.diags ==> Proven(p, run, d) && Below(d, cx) && !cx.silent)
    && (forall x, u :: Called(x, u) in fx.events ==> Tracked(p, run, x, u) && !cx.silent)
  }

  lemma GoodThen(p: Oracle, run: iset<Deriv>, cx: Ctx, a: Fx, b: Fx)
    requires Good(p, run, cx, a) && Good(p, run, cx, b)
    ensures Good(p, run, cx, Then(a, b))
  {}

  lemma GoodOuter(p: Oracle, run: iset<Deriv>, cx: Ctx, inner: Ctx, fx: Fx)
    requires Good(p, run, inner, fx) && Deeper(cx.guards, inner.guards) && cx.rebindable <= inner.rebindable
    requires inner.silent == cx.silent
    ensures Good(p, run, cx, fx)
  {}

  lemma {:induction false} NoCalls(xs: seq<string>)
    ensures forall e :: e in Rebounds(xs) ==> e.Rebound?
  {
    if xs != [] { NoCalls(xs[..|xs| - 1]); }
  }

  lemma {:induction false} FoundNarrowed(names: seq<(string, Ty)>, x: string)
    requires forall i :: 0 <= i < |names| ==> names[i].1 == Unknown
    ensures FindNarrowed(names, x) ==
            if exists i :: 0 <= i < |names| && names[i].0 == x then Some(Unknown) else None
  {
    if names != [] && names[|names| - 1].0 != x {
      FoundNarrowed(names[..|names| - 1], x);
    }
  }

  lemma {:induction false} GoodExpr(p: Oracle, run: iset<Deriv>, cx: Ctx, k: nat, n: Node, env: Env, d: Deriv)
    requires Derives(p, cx, k, n, env, d) && NarrowsToUnknown(cx.guards)
    requires d in run && Whole(run)
    ensures Good(p, run, cx, d.fx)
    decreases d, 9
  {
    if k > 0 { GoodInfers(p, run, cx, k - 1, n, env, d); }
  }

  lemma {:induction false} GoodOpt(p: Oracle, run: iset<Deriv>, cx: Ctx, k: nat, n: Option<Node>, env: Env, d: Deriv)
    requires DerivesOpt(p, cx, k, n, env, d) && NarrowsToUnknown(cx.guards)
    requires d in run && Whole(run)
    ensures Good(p, run, cx, d.fx)
    decreases d, 10
  {
    if n.Some? { GoodExpr(p, run, cx, k, n.value, env, d); }
  }

  lemma {:induction false} GoodAll(p: Oracle, run: iset<Deriv>, cx: Ctx, k: nat, ns: seq<Node>, env: Env,
                                   ds: seq<Deriv>)
    requires DerivesAll(p, cx, k, ns, env, ds) && NarrowsToUnknown(cx.guards)
    requires AllIn(ds, run) && Whole(run)
    ensures Good(p, run, cx, FxAll(ds))
    decreases ds, 0
  {
    if ns != [] {
      GoodExpr(p, run, cx, k, ns[0], env, ds[0]);
      GoodAll(p, run, cx, k, ns[1..], ds[0].env, ds[1..]);
      GoodThen(p, run, cx, ds[0].fx, FxAll(ds[1..]));
    }
  }

  lemma {:induction false} GoodList(p: Oracle, run: iset<Deriv>, cx: Ctx, k: nat, ns: seq<Node>, env: Env, d: Deriv)
    requires DerivesList(p, cx, k, ns, env, d) && NarrowsToUnknown(cx.guards)
    requires d in run && Whole(run)
    ensures Good(p, run, cx, d.fx)
    decreases d, 6
  {
    GoodAll(p, run, cx, k, ns, env, d.kids);
  }

  lemma {:induction false} GoodInfers(p: Oracle, run: iset<Deriv>, cx: Ctx, k: nat, n: Node, env: Env, d: Deriv)
    requires Infers(p, cx, k, n, env, d) && NarrowsToUnknown(cx.guards)
    requires d in run && Whole(run)
    ensures Good(p, run, cx, d.fx)
    decreases d, 8
  {
    if Assigns(n) {
      GoodWrites(p, run, cx, k, n, env, d);
    } else if n.kind.IvarRead? {
      GoodIvar(p, run, cx, k, n, env, d);
    } else if n.kind.IvarWrite? {
      GoodExpr(p, run, cx, k, n.kind.value, env, d.kids[0]);
    } else if n.kind.Stmts? || n.kind.Parts? || n.kind.Spread? {
      GoodList(p, run, cx, k, if n.kind.Stmts? then n.kind.body else n.kind.parts, env, d.kids[0]);
    } else if n.kind.IfNode? {
      GoodIf(p, run, cx, k, n, env, d);
    } else if n.kind.AndNode? || n.kind.OrNode? {
      GoodAndOr(p, run, cx, k, n, env, d);
    } else if n.kind.ReturnNode? {
      GoodList(p, run, cx, k, n.kind.args, env, d.kids[0]);
    } else if n.kind.LambdaNode? {
      GoodClosure(p, run, cx, k, Block(n.kind.params, n.kind.block, []), true, env, d);
    } else if n.kind.CallNode? {
      GoodCall(p, run, cx, k, n, env, d);
    } else {
      GoodLeaf(p, run, cx, n, env, d);
    }
  }

  lemma GoodLeaf(p: Oracle, run: iset<Deriv>, cx: Ctx, n: Node, env: Env, d: Deriv)
    requires LeafOf(p, cx, n, env, d)
    ensures Good(p, run, cx, d.fx)
  {}

  lemma {:induction false} GoodWrites(p: Oracle, run: iset<Deriv>, cx: Ctx, k: nat, n: Node, env: Env, d: Deriv)
    requires Assigns(n) && Writes(p, cx, k, n, env, d) && NarrowsToUnknown(cx.guards)
    requires d in run && Whole(run)
    ensures Good(p, run, cx, d.fx)
    decreases d, 7
  {
    GoodExpr(p, run, cx, k, n.kind.value, env, d.kids[0]);
    NoCalls(AssignedNames(n));
    GoodThen(p, run, cx, d.kids[0].fx, Rebinding(AssignedNames(n)));
  }

  lemma {:induction false} GoodIf(p: Oracle, run: iset<Deriv>, cx: Ctx, k: nat, n: Node, env: Env, d: Deriv)
    requires n.kind.IfNode? && Branches(p, cx, k, n, env, d) && NarrowsToUnknown(cx.guards)
    requires d in run && Whole(run)
    ensures Good(p, run, cx, d.fx)
    decreases d, 7
  {
    var pred, thn, els := d.kids[0], d.kids[1], d.kids[2];
    GoodExpr(p, run, cx, k, n.kind.pred, env, pred);
    GoodBranch(p, run, cx, k, n, true, pred.env, thn);
    GoodBranch(p, run, cx, k, n, false, pred.env, els);
    GoodThen(p, run, cx, thn.fx, els.fx);
    GoodThen(p, run, cx, pred.fx, Then(thn.fx, els.fx));
  }

  lemma {:induction false} GoodBranch(p: Oracle, run: iset<Deriv>, cx: Ctx, k: nat, n: Node, thn: bool, base: Env,
                                      d: Deriv)
    requires n.kind.IfNode? && Branch(p, cx, k, n, thn, base, d) && NarrowsToUnknown(cx.guards)
    requires d in run && Whole(run)
    ensures Good(p, run, cx, d.fx)
    decreases d, 7
  {
    var holds := thn != n.kind.negated;
    var inner := if holds then Under(cx, Pushed(cx.guards, n.kind.definedGuard, n.kind.respondGuard)) else cx;
    GoodList(p, run, inner, k, if thn then n.kind.thn else n.kind.els,
             if holds then Flow.WhenTrue(base, n.kind.narrow) else Flow.WhenFalse(base, n.kind.narrow), d);
    GoodOuter(p, run, cx, inner, d.fx);
  }

  lemma {:induction false} GoodAndOr(p: Oracle, run: iset<Deriv>, cx: Ctx, k: nat, n: Node, env: Env, d: Deriv)
    requires (n.kind.AndNode? || n.kind.OrNode?) && AndsOrs(p, cx, k, n, env, d) && NarrowsToUnknown(cx.guards)
    requires d in run && Whole(run)
    ensures Good(p, run, cx, d.fx)
    decreases d, 7
  {
    var inner := Under(cx, PushedClass(cx.guards, n));
    GoodExpr(p, run, cx, k, n.kind.l, env, d.kids[0]);
    GoodExpr(p, run, inner, k, n.kind.r, d.kids[0].env, d.kids[1]);
    GoodOuter(p, run, cx, inner, d.kids[1].fx);
    GoodThen(p, run, cx, d.kids[0].fx, d.kids[1].fx);
  }

  lemma {:induction false} GoodClosure(p: Oracle, run: iset<Deriv>, cx: Ctx, k: nat, b: Block, rebindable: bool,
                                       env: Env, d: Deriv)
    requires Closes(p, cx, k, b, rebindable, env, d) && NarrowsToUnknown(cx.guards)
    requires d in run && Whole(run)
    ensures Good(p, run, cx, d.fx)
    decreases d, 7
  {
    GoodOpt(p, run, InBlock(cx, b, rebindable), k, b.body, BindUnknown(env, b.params), d.kids[0]);
    GoodOuter(p, run, cx, InBlock(cx, b, rebindable), d.fx);
  }

  lemma {:induction false} GoodReceiver(p: Oracle, run: iset<Deriv>, cx: Ctx, k: nat, n: Node, env: Env, d: Deriv)
    requires n.kind.CallNode? && Receives(p, cx, k, n, env, d) && NarrowsToUnknown(cx.guards)
    requires d in run && Whole(run)
    ensures Good(p, run, cx, d.fx)
    ensures Narrowed(n, cx.guards) ==> d.ty == Unknown
    decreases d, 6
  {
    if n.kind.recv.Some? {
      var r, inner := n.kind.recv.value, Under(cx, Armed(cx.guards, n.kind.rspec));
      GoodExpr(p, run, inner, k, r, env, d.kids[0]);
      GoodOuter(p, run, cx, inner, d.kids[0].fx);
      GoodThen(p, run, cx, d.kids[0].fx, Storing(ExtendedStores(n, cx.self)));
      if ExprName(r).Some? { FoundNarrowed(cx.guards.narrowed, ExprName(r).value); }
    }
  }

  lemma {:induction false} GoodOperands(p: Oracle, run: iset<Deriv>, cx: Ctx, k: nat, n: Node, env: Env, ds: seq<Deriv>)
    requires n.kind.CallNode? && Operands(p, cx, k, n, env, ds) && NarrowsToUnknown(cx.guards)
    requires AllIn(ds, run) && Whole(run)
    ensures Good(p, run, cx, OperandFx(ds[0], ds[1], ds[2]))
    ensures Narrowed(n, cx.guards) ==> ds[0].ty == Unknown
    decreases ds, 0
  {
    GoodReceiver(p, run, cx, k, n, env, ds[0]);
    GoodList(p, run, cx, k, n.kind.args, ds[0].env, ds[1]);
    if n.kind.blk.Some? {
      GoodClosure(p, run, cx, k, n.kind.blk.value, !p.keepsSelf(ds[0].ty, n.kind.name), ds[1].env, ds[2]);
    }
    GoodThen(p, run, cx, ds[0].fx, ds[1].fx);
    GoodThen(p, run, cx, Then(ds[0].fx, ds[1].fx), ds[2].fx);
  }

  lemma {:induction false} GoodCall(p: Oracle, run: iset<Deriv>, cx: Ctx, k: nat, n: Node, env: Env, d: Deriv)
    requires n.kind.CallNode? && Calls(p, cx, k, n, env, d) && NarrowsToUnknown(cx.guards)
    requires d in run && Whole(run)
    ensures Good(p, run, cx, d.fx)
    decreases d, 7
  {
    var site := SiteOf(cx, n, d.kids[0], d.kids[1]);
    GoodOperands(p, run, cx, k, n, env, d.kids);
    GoodVerdict(p, run, cx, k, n, env, d);
    GoodLeak(p, run, cx, k, site, d.ty, d.walk);
    var own := Fx([], UseEvents(p, cx.silent, site, cx.guards, cx.rebindable), [],
                  if cx.silent then [] else CallDiags(p, site, cx.guards, cx.rebindable));
    GoodThen(p, run, cx, own, MethodLeak(p, d.walk));
    GoodThen(p, run, cx, OperandFx(d.kids[0], d.kids[1], d.kids[2]), CallFx(p, cx, site, d.walk));
  }

  /** The lookups answer nothing for a receiver of unknown type. */
  lemma KnownReceiver(p: Oracle, site: Site, d: Diag)
    requires Claims(p, site, d)
    ensures !site.recv.Unknown? && d.code != E0107
  {}

  lemma GoodClaim(p: Oracle, run: iset<Deriv>, cx: Ctx, k: nat, n: Node, env: Env, c: Deriv, d: Diag)
    requires n.kind.CallNode? && Calls(p, cx, k, n, env, c) && c in run && !cx.silent
    requires Narrowed(n, cx.guards) ==> c.kids[0].ty == Unknown
    requires d in CallDiags(p, SiteOf(cx, n, c.kids[0], c.kids[1]), cx.guards, cx.rebindable)
    ensures Proven(p, run, d) && Below(d, cx)
  {
    var site := SiteOf(cx, n, c.kids[0], c.kids[1]);
    RaisesExactly(p, site, cx.guards, cx.rebindable, d);
    KnownReceiver(p, site, d);
    assert DerivedBy(p, run, d, site, cx, k, env, c);
  }

  lemma GoodUse(p: Oracle, run: iset<Deriv>, cx: Ctx, k: nat, n: Node, env: Env, c: Deriv, x: string, u: Use)
    requires n.kind.CallNode? && Calls(p, cx, k, n, env, c) && c in run
    requires Called(x, u) in UseEvents(p, cx.silent, SiteOf(cx, n, c.kids[0], c.kids[1]), cx.guards, cx.rebindable)
    ensures Tracked(p, run, x, u) && !cx.silent
  {
    assert TrackedBy(p, run, x, u, cx, k, n, env, c);
  }

  lemma GoodVerdict(p: Oracle, run: iset<Deriv>, cx: Ctx, k: nat, n: Node, env: Env, c: Deriv)
    requires n.kind.CallNode? && Calls(p, cx, k, n, env, c) && c in run
    requires Narrowed(n, cx.guards) ==> c.kids[0].ty == Unknown
    ensures var site := SiteOf(cx, n, c.kids[0], c.kids[1]);
            Good(p, run, cx, Fx([], UseEvents(p, cx.silent, site, cx.guards, cx.rebindable), [],
                           if cx.silent then [] else CallDiags(p, site, cx.guards, cx.rebindable)))
  {
    var site := SiteOf(cx, n, c.kids[0], c.kids[1]);
    var us := UseEvents(p, cx.silent, site, cx.guards, cx.rebindable);
    var ds := if cx.silent then [] else CallDiags(p, site, cx.guards, cx.rebindable);
    forall d | d in ds ensures Proven(p, run, d) && Below(d, cx) && !cx.silent {
      GoodClaim(p, run, cx, k, n, env, c, d);
    }
    forall x, u | Called(x, u) in us ensures Tracked(p, run, x, u) && !cx.silent {
      GoodUse(p, run, cx, k, n, env, c, x, u);
    }
    BothGood(p, run, cx, us, ds);
  }

  lemma BothGood(p: Oracle, run: iset<Deriv>, cx: Ctx, us: seq<Event>, ds: seq<Diag>)
    requires forall d :: d in ds ==> Proven(p, run, d) && Below(d, cx) && !cx.silent
    requires forall x, u :: Called(x, u) in us ==> Tracked(p, run, x, u) && !cx.silent
    ensures Good(p, run, cx, Fx([], us, [], ds))
  {}

  /** A nested walk is silent: only its keyword defaults reach the walk in hand, and they track nothing. */
  lemma {:induction false} GoodLeak(p: Oracle, run: iset<Deriv>, cx: Ctx, k: nat, site: Site, ty: Ty, w: Walk)
    requires site.call.kind.CallNode? && Answered(p, cx, k, site, ty, w) && NarrowsToUnknown(cx.guards)
    ensures Good(p, run, cx, MethodLeak(p, w))
    decreases w
  {
    if w.Walk? && w.anew && w.bodies != [] && w.bodies[0].Body? {
      var a := AnswerOf(p, cx.silent, site, cx.guards, cx.rebindable);
      assert w.cx == MethodCtx(p, cx, a.key, a.m) && MethodWalk(p, a.key, a.m, ty, w);
      assert DerivesBody(p, w.cx, w.left, a.m.def.value, w.bodies[0]);
      GoodParams(p, EVERY, w.cx, w.left, a.m.def.value.params, w.bodies[0].defaults);
      SilentLeak(p, run, w.cx, cx, w.bodies[0]);
    }
  }

  lemma SilentLeak(p: Oracle, run: iset<Deriv>, inner: Ctx, cx: Ctx, b: Body)
    requires b.Body? && inner.silent && Good(p, EVERY, inner, FxAll(b.defaults))
    ensures Good(p, run, cx, BodyFx(p, inner, b).(diags := []))
  {}

  lemma {:induction false} GoodParams(p: Oracle, run: iset<Deriv>, cx: Ctx, k: nat, ps: seq<Param>, ds: seq<Deriv>)
    requires DerivesParams(p, cx, k, ps, ds) && NarrowsToUnknown(cx.guards)
    requires AllIn(ds, run) && Whole(run)
    ensures Good(p, run, cx, FxAll(ds))
    decreases ds
  {
    if ps != [] {
      var n := |ps| - 1;
      GoodParams(p, run, cx, k, ps[..n], ds[..n]);
      GoodOpt(p, run, cx, k, ps[n].default, ParamEnv(ps[..n], ds[..n]), ds[n]);
      FxAllThen(ds[..n], ds[n]);
      assert ds == ds[..n] + [ds[n]];
      GoodThen(p, run, cx, FxAll(ds[..n]), ds[n].fx);
    }
  }

  lemma {:induction false} GoodIvar(p: Oracle, run: iset<Deriv>, cx: Ctx, k: nat, n: Node, env: Env, d: Deriv)
    requires n.kind.IvarRead? && ReadsIvar(p, cx, k, n, env, d) && NarrowsToUnknown(cx.guards)
    ensures Good(p, run, cx, d.fx)
    decreases d, 7
  {
    var w := d.walk;
    if cx.self.SInstance? && w.Walk? && w.anew {
      assert ClassWalk(p, cx.self.cls, w) && w.cx == ClassCtx(cx, cx.self.cls);
      var methods := if cx.self.cls in p.classMethods then p.classMethods[cx.self.cls] else [];
      GoodBodies(p, run, w.cx, w.left, methods, w.bodies, cx);
    }
  }

  /** What a silent class walk leaves in the walk in hand is good in any context. */
  lemma {:induction false} GoodBodies(p: Oracle, run: iset<Deriv>, cx: Ctx, k: nat, ms: seq<MethodSig>, bs: seq<Body>,
                                      outer: Ctx)
    requires DerivesBodies(p, cx, k, ms, bs) && NarrowsToUnknown(cx.guards) && cx.silent
    ensures Good(p, run, outer, BodiesFx(p, cx, bs).(stores := [], diags := []))
    decreases bs
  {
    if ms != [] {
      GoodBodies(p, run, cx, k, ms[1..], bs[1..], outer);
      if ms[0].def.Some? {
        var inner := cx.(casts := p.fileCasts(ms[0].file));
        assert DerivesBody(p, inner, k, ms[0].def.value, bs[0]);
        GoodParams(p, EVERY, inner, k, ms[0].def.value.params, bs[0].defaults);
        SilentLeak(p, run, inner, outer, bs[0]);
      }
    }
  }

  // ----- bodies and files -----

  lemma {:induction false} CollectedTracked(p: Oracle, run: iset<Deriv>, events: seq<Event>, x: string)
    requires forall y, u :: Called(y, u) in events ==> Tracked(p, run, y, u)
    ensures x in Collected(events) ==>
      forall i :: 0 <= i < |Collected(events)[x]| ==> Tracked(p, run, x, Collected(events)[x][i])
    decreases |events|
  {
    if events != [] {
      var front := events[..|events| - 1];
      assert forall e :: e in front ==> e in events;
      CollectedTracked(p, run, front, x);
      var last := events[|events| - 1];
      assert last in events;
      if last.Called? { assert Called(last.x, last.use) == last && Tracked(p, run, last.x, last.use); }
    }
  }

  lemma GoodBody(p: Oracle, run: iset<Deriv>, cx: Ctx, k: nat, def: Def, b: Body)
    requires DerivesBody(p, cx, k, def, b) && NarrowsToUnknown(cx.guards)
    requires Whole(run) && b.body in run && AllIn(b.defaults, run)
    ensures Good(p, run, cx, BodyFx(p, cx, b))
  {
    GoodParams(p, run, cx, k, def.params, b.defaults);
    GoodOpt(p, run, cx, k, def.body, ParamEnv(def.params, b.defaults), b.body);
    FlushProven(p, run, cx, k, def, b, b.order);
    GoodThen(p, run, cx, FxAll(b.defaults), BodyOut(p, cx, b.body, b.order));
  }

  lemma {:induction false} FlushProven(p: Oracle, run: iset<Deriv>, cx: Ctx, k: nat, def: Def, b: Body, xs: seq<string>)
    requires DerivesBody(p, cx, k, def, b) && Good(p, run, cx, b.body.fx)
    requires b.body in run
    ensures forall d :: d in Flush(p, cx, xs, Collected(b.body.fx.events)) ==> Proven(p, run, d) && Below(d, cx)
    decreases |xs|
  {
    var cs := Collected(b.body.fx.events);
    if xs != [] && !cx.silent {
      var n := |xs| - 1;
      FlushProven(p, run, cx, k, def, b, xs[..n]);
      if xs[n] in cs { BindingProven(p, run, cx, k, def, b, xs[n]); }
    }
  }

  lemma OfThisBody(p: Oracle, run: iset<Deriv>, cx: Ctx, k: nat, def: Def, b: Body, x: string)
    requires DerivesBody(p, cx, k, def, b) && x in Collected(b.body.fx.events)
    requires b.body in run
    ensures OfBody(p, run, x, Collected(b.body.fx.events)[x])
  {
    CollectedSinceRebound(b.body.fx.events, x);
  }

  lemma BindingProven(p: Oracle, run: iset<Deriv>, cx: Ctx, k: nat, def: Def, b: Body, x: string)
    requires DerivesBody(p, cx, k, def, b) && Good(p, run, cx, b.body.fx) && x in Collected(b.body.fx.events)
    requires b.body in run
    ensures forall d :: d in BindingDiags(p, x, Collected(b.body.fx.events)[x], cx.guards, cx.rebindable) ==>
              Proven(p, run, d) && Below(d, cx)
  {
    OfThisBody(p, run, cx, k, def, b, x);
    CollectedTracked(p, run, b.body.fx.events, x);
    BindingRaises(p, run, x, Collected(b.body.fx.events)[x], cx);
  }

  lemma BindingRaises(p: Oracle, run: iset<Deriv>, x: string, calls: seq<Use>, cx: Ctx)
    requires OfBody(p, run, x, calls) && forall i :: 0 <= i < |calls| ==> Tracked(p, run, x, calls[i])
    ensures forall d :: d in BindingDiags(p, x, calls, cx.guards, cx.rebindable) ==> Proven(p, run, d) && Below(d, cx)
  {
    forall d | d in BindingDiags(p, x, calls, cx.guards, cx.rebindable) ensures Proven(p, run, d) && Below(d, cx) {
      assert d.message == NoCommonType(x, calls) && d.code == E0107 && d.guards == cx.guards;
      assert ProvenBinding(p, run, x, calls);
    }
  }

  lemma {:induction false} GoodItems(p: Oracle, run: iset<Deriv>, cx: Ctx, k: nat, items: seq<Item>, at: Place,
                                     env: Env, ds: seq<ItemDeriv>)
    requires DerivesItems(p, cx, k, items, at, env, ds) && NarrowsToUnknown(cx.guards) && cx.rebindable == 0
    requires Whole(run) && forall i :: 0 <= i < |ds| ==> Holds(run, ds[i])
    ensures Good(p, run, cx, ItemsFx(p, ds))
    decreases ds, 0
  {
    if items != [] {
      GoodItem(p, run, cx, k, items[0], at, env, ds[0]);
      GoodItems(p, run, cx, k, items[1..], at, ItemEnv(items[0], env, ds[0]), ds[1..]);
      GoodThen(p, run, cx, ItemFx(p, ds[0]), ItemsFx(p, ds[1..]));
    }
  }

  lemma {:induction false} GoodItem(p: Oracle, run: iset<Deriv>, cx: Ctx, k: nat, item: Item, at: Place, env: Env,
                                    d: ItemDeriv)
    requires DerivesItem(p, cx, k, item, at, env, d) && NarrowsToUnknown(cx.guards) && cx.rebindable == 0
    requires Whole(run) && Holds(run, d)
    ensures Good(p, run, cx, ItemFx(p, d))
    decreases d, 1
  {
    match item
    case DefItem(def, ownSelf) =>
      GoodBody(p, run, d.cx, k, def, d.body);
      GoodOuter(p, run, cx, d.cx, ItemFx(p, d));
    case ClassItem(cls, superclass, body, _) =>
      GoodItems(p, run, cx, k, body, Place(cls, false, true), map[], d.items);
      GoodThen(p, run, cx, Raising(false, d.opens), ItemsFx(p, d.items));
    case SingletonItem(body) =>
      GoodItems(p, run, cx, k, body, at.(inSingleton := true), env, d.items);
      GoodThen(p, run, cx, Raising(false, d.opens), ItemsFx(p, d.items));
    case PlainItem(node) =>
      var inner := cx.(self := ScopeSelf(at));
      GoodExpr(p, run, inner, k, node, env, d.deriv);
      GoodOuter(p, run, cx, inner, d.deriv.fx);
  }

  // ----- what follows -----

  /** The receivers a diagnostic speaks of. */
  function Receivers(d: Diag): (r: seq<Ty>) {
    match d.message
    case NoMethod(site) => [site.recv]
    case WrongCount(site) => [site.recv]
    case BadArgument(site, _) => [site.recv]
    case NoConstant(_) => []
    case NoCommonType(_, calls) => seq(|calls|, i requires 0 <= i < |calls| => calls[i].recv)
  }

  /** `Unknown` never accuses, with one exception that always does: the type derived for the receiver of an accused call
      is unknown exactly when the diagnostic is an E0107. */
  lemma UnknownReceiverIff(p: Oracle, run: iset<Deriv>, d: Diag)
    requires Proven(p, run, d)
    ensures Unknown in Receivers(d) <==> d.code == E0107
    ensures d.code == E0107 ==> Receivers(d) != [] && forall t :: t in Receivers(d) ==> t == Unknown
  {
    match d.message
    case NoCommonType(x, calls) => UntypedUses(p, run, d, x, calls);
    case NoConstant(_) =>
    case NoMethod(site) => KnownReceiver(p, site, d);
    case WrongCount(site) => KnownReceiver(p, site, d);
    case BadArgument(site, _) => KnownReceiver(p, site, d);
  }

  lemma UntypedUses(p: Oracle, run: iset<Deriv>, d: Diag, x: string, calls: seq<Use>)
    requires d.message == NoCommonType(x, calls) && ProvenBinding(p, run, x, calls)
    ensures Unknown in Receivers(d) && forall t :: t in Receivers(d) ==> t == Unknown
  {
    assert calls != [];
    forall i | 0 <= i < |calls| ensures Receivers(d)[i] == Unknown { assert Tracked(p, run, x, calls[i]); }
    assert Receivers(d)[0] == Unknown;
  }

  /** `d` accuses nothing that the guards of `g`, or `r` blocks that may rebind `self`, vouch for. */
  predicate Spares(d: Diag, g: Guards, r: nat) {
    match d.message
    case NoMethod(site) =>
      SparesCall(site.call, g, r) &&
      (site.recv.Instance? && site.call.kind.recv.None? ==> site.call.kind.name !in g.respond)
    case WrongCount(site) => SparesCall(site.call, g, r)
    case BadArgument(site, _) => SparesCall(site.call, g, r)
    case NoConstant(path) => path !in g.defined
    case NoCommonType(_, _) => true
  }

  predicate SparesCall(call: Node, g: Guards, r: nat) {
    call.kind.CallNode? && call.span !in g.subjects && !Narrowed(call, g)
    && (r > 0 ==> call.kind.recv.Some? && !call.kind.recv.value.kind.SelfRead?)
  }

  /** Whatever is walked under guards accuses nothing they proved, at any depth below: no missing method of a name
      `self` was shown to answer, no unresolved constant `defined?` vouched for, nothing about the subject of an
      asserted raise or about what was shown to be a class object, and no self-send while a block may rebind `self`. */
  lemma GuardsSpare(p: Oracle, cx: Ctx, k: nat, n: Node, env: Env, d: Deriv)
    requires Derives(p, cx, k, n, env, d) && NarrowsToUnknown(cx.guards)
    ensures forall diag :: diag in d.fx.diags ==> Spares(diag, cx.guards, cx.rebindable)
  {
    GoodExpr(p, EVERY, cx, k, n, env, d);
    forall diag | diag in d.fx.diags ensures Spares(diag, cx.guards, cx.rebindable) {
      ProvenSpares(p, EVERY, cx, diag);
    }
  }

  lemma NarrowedDeeper(call: Node, g: Guards, h: Guards)
    requires call.kind.CallNode? && Narrowed(call, g) && Deeper(g, h)
    ensures Narrowed(call, h)
  {
    var i :| 0 <= i < |g.narrowed| && g.narrowed[i].0 == ExprName(call.kind.recv.value).value;
    assert h.narrowed[i] == g.narrowed[i];
  }

  lemma ProvenSpares(p: Oracle, run: iset<Deriv>, cx: Ctx, d: Diag)
    requires Proven(p, run, d) && Below(d, cx)
    ensures Spares(d, cx.guards, cx.rebindable)
  {
    if d.message.NoMethod? || d.message.WrongCount? || d.message.BadArgument? {
      var call := d.message.site.call;
      if Narrowed(call, cx.guards) {
        NarrowedDeeper(call, cx.guards, d.guards);
        assert false;
      }
    }
  }

  /** The arguments that take a position. */
  function PlainArgs(args: seq<Node>): seq<Node> {
    if args == [] then [] else (if args[0].kind.Spread? then [] else [args[0]]) + PlainArgs(args[1..])
  }

  lemma {:induction false} PositionalArgs(args: seq<Node>, tys: seq<Ty>, casts: seq<Cast>)
    requires |args| == |tys|
    ensures var pos, plain := Positional(args, tys, casts), PlainArgs(args);
            |pos| == |plain| && forall i :: 0 <= i < |pos| ==> pos[i].span == plain[i].span
  {
    if args != [] { PositionalArgs(args[1..], tys[1..], casts); }
  }

  lemma {:induction false} ExactArgs(args: seq<Node>)
    requires ExactArity(args)
    ensures PlainArgs(args) == args
  {
    if args != [] { ExactArgs(args[1..]); }
  }

  lemma EachArgument(p: Oracle, cx: Ctx, k: nat, n: Node, env: Env, ds: seq<Deriv>)
    requires n.kind.CallNode? && Operands(p, cx, k, n, env, ds)
    ensures |ds[1].kids| == |n.kind.args|
  {
    assert DerivesList(p, cx, k, n.kind.args, ds[0].env, ds[1]);
    assert DerivesAll(p, cx, k, n.kind.args, ds[0].env, ds[1].kids);
  }

  /** An E0102 is real: the call passes exactly the arguments written, and their number is outside what the method it
      reaches, in the project or in the core tables, accepts. */
  lemma WrongCountIsReal(p: Oracle, run: iset<Deriv>, d: Diag)
    requires Proven(p, run, d) && d.message.WrongCount?
    ensures var site := d.message.site;
            site.call.kind.CallNode? && |site.args| == |site.call.kind.args| && Miscount(p, site)
  {
    var site := d.message.site;
    var cx: Ctx, k: nat, env: Env, c: Deriv :| DerivedBy(p, run, d, site, cx, k, env, c);
    EachArgument(p, cx, k, site.call, env, c.kids);
    PositionalArgs(site.call.kind.args, TysOf(c.kids[1].kids), cx.casts);
    ExactArgs(site.call.kind.args);
  }

  /** An E0103 names an argument and the parameter the reached signature declares for it, and rests on no unknown, at
      any depth: however the unknowns of the two types are filled in, the argument is rejected, and when the hash key
      types of the argument then have unboundedly many values, some value of the one is no value of the other, in every
      world the index describes. */
  lemma BadArgumentIsReal(p: Oracle, run: iset<Deriv>, w: World, d: Diag, a: Ty) returns (m: MethodSig, v: Value)
    requires Proven(p, run, d) && d.message.BadArgument? && p.index.Describes(w)
    requires d.message.at < |d.message.site.args| ==> Fills(a, d.message.site.args[d.message.at].ty)
    ensures var site, i := d.message.site, d.message.at;
            && i < |site.args| && i < |m.paramTys| && Reaches(p, site.recv, site.call.kind.name, m) && m.ret.Some?
            && (forall q :: Fills(q, m.paramTys[i]) ==> !Compatible(a, q, p.index))
            && (Inhabited(a) && WideKeys(a) ==> Has(w, v, a) && !Has(w, v, m.paramTys[i]))
  {
    var site, i := d.message.site, d.message.at;
    m :| Reaches(p, site.recv, site.call.kind.name, m) && m.ret.Some? && i < |m.paramTys|
         && !Compatible(site.args[i].ty, m.paramTys[i], p.index);
    forall q | Fills(q, m.paramTys[i]) ensures !Compatible(a, q, p.index) {
      RejectionStands(site.args[i].ty, m.paramTys[i], a, q, p.index);
    }
    v := VNil;
    FillsSelf(m.paramTys[i]);
    if Inhabited(a) && WideKeys(a) { v := Refute(w, p.index, a, m.paramTys[i]); }
  }

  /** An E0107 is real: all its calls are on one local of one body since its last reassignment, and no type defines
      every method called. */
  lemma ContradictionIsReal(p: Oracle, run: iset<Deriv>, d: Diag, t: string)
    requires Proven(p, run, d) && d.message.NoCommonType? && Sorted(p.candidates)
    ensures !Answers(d.message.calls, p.candidates, t) && OfBody(p, run, d.message.x, d.message.calls)
  {
    ContradictionIff(d.message.calls, p.candidates);
  }
}
