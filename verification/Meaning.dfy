/** What single rules of the walk mean: how blocks spill, what guards keep from being said, what instance variables and
    casts hold. */
module Meaning {
  import opened Types
  import opened Constraints
  import opened Project
  import opened Verdicts
  import opened Typing
  import opened Accusations
  import opened Faults
  import Flow
  import Precision

  // ----- blocks -----

  /** `spill_block_writes`: the names of the scope outside, each with exactly the values from before the block and those
      the block may leave. */
  lemma SpillExact(w: World, v: Value, outer: Env, inner: Env, x: string)
    ensures x in Spill(outer, inner) <==> x in outer
    ensures x in outer ==>
      (Has(w, v, Spill(outer, inner)[x]) <==> Has(w, v, outer[x]) || (x in inner && Has(w, v, inner[x])))
  {
    if x in outer && x in inner { JoinMeaning(w, v, outer[x], inner[x]); }
  }

  lemma {:induction false} ParamsUnknown(env: Env, xs: seq<string>, x: string)
    ensures x in BindUnknown(env, xs) <==> x in env || x in xs
    ensures x in xs ==> BindUnknown(env, xs)[x] == Unknown
    ensures x in env && x !in xs ==> BindUnknown(env, xs)[x] == env[x]
    decreases |xs|
  {
    if xs != [] { ParamsUnknown(env[xs[0] := Unknown], xs[1..], x); }
  }

  /** A store fits an environment on its own names. */
  ghost predicate FitsOn(w: World, s: map<string, Value>, names: set<string>, env: Env) {
    forall x :: x in names ==> x in env && Has(w, if x in s then s[x] else VNil, env[x])
  }

  /** A block or lambda that runs any number of times: what held before it, and what holds after a pass, both fit the
      environment it leaves, which has no name of the block and no value from elsewhere. */
  lemma BlockCovers(p: Oracle, cx: Ctx, k: nat, b: Block, rebindable: bool, env: Env, d: Deriv, w: World,
                    s: map<string, Value>)
    requires Closes(p, cx, k, b, rebindable, env, d)
    ensures d.env.Keys == env.Keys
    ensures FitsOn(w, s, env.Keys, env) || FitsOn(w, s, env.Keys, d.kids[0].env) ==> FitsOn(w, s, env.Keys, d.env)
    ensures forall x, v :: x in env && Has(w, v, d.env[x]) ==>
      Has(w, v, env[x]) || (x in d.kids[0].env && Has(w, v, d.kids[0].env[x]))
  {
    var inner := d.kids[0].env;
    forall x, v ensures x in env ==>
      (Has(w, v, d.env[x]) <==> Has(w, v, env[x]) || (x in inner && Has(w, v, inner[x])))
    {
      SpillExact(w, v, env, inner, x);
    }
  }

  /** After `x.extend(M)` nothing is known of `x`: a local at once, in a closed world; an instance variable through an
      unknown write. */
  lemma ExtendForgets(p: Oracle, cx: Ctx, k: nat, n: Node, env: Env, d: Deriv)
    requires n.kind.CallNode? && n.kind.name == "extend" && n.kind.recv.Some? && Receives(p, cx, k, n, env, d)
    ensures var r := n.kind.recv.value.kind;
            && (r.LocalRead? && p.closedWorld ==> r.x in d.env && d.env[r.x] == Unknown)
            && (r.IvarRead? && cx.self.SInstance? ==> Store(cx.self.cls, r.x, Unknown) in d.fx.stores)
            && forall y :: !(r.LocalRead? && p.closedWorld && r.x == y) ==>
                 (y in d.env <==> y in d.kids[0].env) && (y in d.env ==> d.env[y] == d.kids[0].env[y])
  {
    var stores := ExtendedStores(n, cx.self);
    assert forall s :: s in stores ==> s in d.kids[0].fx.stores + stores;
    if stores != [] { assert stores[0] in stores; }
  }

  // ----- guards -----

  /** Under a `defined?` guard no missing constant of that name is reported, under a `respond_to?` guard no missing
      method of that name on `self`. */
  lemma GuardedBranchSpares(p: Oracle, cx: Ctx, k: nat, n: Node, thn: bool, base: Env, d: Deriv, diag: Diag)
    requires n.kind.IfNode? && Branch(p, cx, k, n, thn, base, d) && NarrowsToUnknown(cx.guards)
    requires thn != n.kind.negated && diag in d.fx.diags
    ensures diag.message.NoConstant? ==> Some(diag.message.path) != n.kind.definedGuard
    ensures diag.message.NoMethod? ==>
      var call := diag.message.site.call;
      call.kind.CallNode? &&
      !(diag.message.site.recv.Instance? && call.kind.recv.None? && Some(call.kind.name) == n.kind.respondGuard)
  {
    var inner := Under(cx, Pushed(cx.guards, n.kind.definedGuard, n.kind.respondGuard));
    GoodList(p, EVERY, inner, k, if thn then n.kind.thn else n.kind.els,
             Flow.WhenTrue(base, n.kind.narrow), d);
    ProvenSpares(p, EVERY, inner, diag);
  }

  /** In a block nothing is said of the calls it asserts to raise, and where `self` may be rebound nothing of sends to
      it. */
  lemma BlockSpares(p: Oracle, cx: Ctx, k: nat, b: Block, rebindable: bool, env: Env, d: Deriv, diag: Diag, site: Site)
    requires Closes(p, cx, k, b, rebindable, env, d) && NarrowsToUnknown(cx.guards) && diag in d.fx.diags
    requires diag.message.NoMethod? || diag.message.WrongCount? || diag.message.BadArgument?
    requires site == diag.message.site
    ensures site.call.kind.CallNode? && site.call.span !in b.subjects
    ensures rebindable ==> site.call.kind.recv.Some? && !site.call.kind.recv.value.kind.SelfRead?
  {
    var inner := InBlock(cx, b, rebindable);
    GoodOpt(p, EVERY, inner, k, b.body, BindUnknown(env, b.params), d.kids[0]);
    ProvenSpares(p, EVERY, inner, diag);
  }

  /** So it is in the block of a call that is not known to keep `self`, and in every lambda. */
  lemma CallBlockSpares(p: Oracle, cx: Ctx, k: nat, n: Node, env: Env, c: Deriv, diag: Diag, site: Site)
    requires n.kind.CallNode? && n.kind.blk.Some? && Calls(p, cx, k, n, env, c) && NarrowsToUnknown(cx.guards)
    requires diag in c.kids[2].fx.diags
    requires diag.message.NoMethod? || diag.message.WrongCount? || diag.message.BadArgument?
    requires site == diag.message.site
    ensures site.call.kind.CallNode? && site.call.span !in n.kind.blk.value.subjects
    ensures !p.keepsSelf(c.kids[0].ty, n.kind.name) ==>
      site.call.kind.recv.Some? && !site.call.kind.recv.value.kind.SelfRead?
  {
    assert Blocks(p, cx, k, n, c.kids[0].ty, c.kids[1].env, c.kids[2]);
    BlockSpares(p, cx, k, n.kind.blk.value, !p.keepsSelf(c.kids[0].ty, n.kind.name), c.kids[1].env, c.kids[2], diag,
                site);
  }

  lemma LambdaSpares(p: Oracle, cx: Ctx, k: nat, n: Node, env: Env, d: Deriv, diag: Diag, site: Site)
    requires n.kind.LambdaNode? && Infers(p, cx, k, n, env, d) && NarrowsToUnknown(cx.guards) && diag in d.fx.diags
    requires diag.message.NoMethod? || diag.message.WrongCount? || diag.message.BadArgument?
    requires site == diag.message.site
    ensures site.call.kind.CallNode? && site.call.kind.recv.Some? && !site.call.kind.recv.value.kind.SelfRead?
  {
    BlockSpares(p, cx, k, Block(n.kind.params, n.kind.block, []), true, env, d, diag, site);
  }

  /** Right of `x.is_a?(Class) &&` nothing is said of calls on `x`. */
  lemma RightOperandSpares(p: Oracle, cx: Ctx, k: nat, n: Node, env: Env, d: Deriv, diag: Diag, site: Site)
    requires n.kind.AndNode? && AndsOrs(p, cx, k, n, env, d) && NarrowsToUnknown(cx.guards)
    requires diag in d.kids[1].fx.diags && n.kind.classGuard.Some?
    requires diag.message.NoMethod? || diag.message.WrongCount? || diag.message.BadArgument?
    requires site == diag.message.site
    ensures site.call.kind.CallNode?
    ensures site.call.kind.recv.Some? ==> ExprName(site.call.kind.recv.value) != n.kind.classGuard
  {
    var inner := Under(cx, PushedClass(cx.guards, n));
    GoodExpr(p, EVERY, inner, k, n.kind.r, d.kids[0].env, d.kids[1]);
    ProvenSpares(p, EVERY, inner, diag);
    assert inner.guards.narrowed[|cx.guards.narrowed|].0 == n.kind.classGuard.value;
  }

  /** Inside the receiver of an asserted raise nothing is said of its subjects. */
  lemma ReceiverSpares(p: Oracle, cx: Ctx, k: nat, n: Node, env: Env, d: Deriv, diag: Diag, site: Site)
    requires n.kind.CallNode? && n.kind.recv.Some? && Receives(p, cx, k, n, env, d) && NarrowsToUnknown(cx.guards)
    requires diag in d.fx.diags
    requires diag.message.NoMethod? || diag.message.WrongCount? || diag.message.BadArgument?
    requires site == diag.message.site
    ensures site.call.kind.CallNode? && site.call.span !in n.kind.rspec
  {
    var inner := Under(cx, Armed(cx.guards, n.kind.rspec));
    GoodExpr(p, EVERY, inner, k, n.kind.recv.value, env, d.kids[0]);
    ProvenSpares(p, EVERY, inner, diag);
  }

  // ----- instance variables -----

  /** The types a class stores in `x`, in order. */
  function StoredIn(c: ClassId, x: string, stores: seq<Store>): seq<Ty> {
    if stores == [] then []
    else
      var before, s := StoredIn(c, x, stores[..|stores| - 1]), stores[|stores| - 1];
      if s.cls == c && s.x == x then before + [s.ty] else before
  }

  lemma {:induction false} CapturedStores(c: ClassId, x: string, stores: seq<Store>)
    ensures Captured(Some(Capture(c, map[])), stores).Some?
    ensures var got := Captured(Some(Capture(c, map[])), stores).value;
            got.cls == c && (x in got.writes <==> StoredIn(c, x, stores) != []) &&
            (x in got.writes ==> got.writes[x] == StoredIn(c, x, stores))
    decreases |stores|
  {
    if stores != [] { CapturedStores(c, x, stores[..|stores| - 1]); }
  }

  lemma {:induction false} FoldExact(tys: seq<Ty>, t: Ty)
    requires t != Unknown
    ensures FoldWrites(tys) == t <==> tys != [] && forall i :: 0 <= i < |tys| ==> tys[i] == t
  {
    if |tys| > 1 {
      var n := |tys| - 1;
      FoldExact(tys[..n], t);
      assert forall i :: 0 <= i < n ==> tys[..n][i] == tys[i];
      if FoldWrites(tys[..n]) == tys[n] && tys[n] == t { assert forall i :: 0 <= i < |tys| ==> tys[i] == t; }
    }
  }

  /** An instance variable has a known type exactly when the class writes it, and always with that type. */
  lemma IvarExact(c: ClassId, x: string, stores: seq<Store>, t: Ty)
    requires t != Unknown
    ensures Typed(IvarsOf(c, stores), x) == t <==>
            (exists i :: 0 <= i < |stores| && stores[i].cls == c && stores[i].x == x) &&
            forall i :: 0 <= i < |stores| && stores[i].cls == c && stores[i].x == x ==> stores[i].ty == t
  {
    CapturedStores(c, x, stores);
    FoldExact(StoredIn(c, x, stores), t);
    StoredMeans(c, x, stores, t);
  }

  lemma {:induction false} StoredMeans(c: ClassId, x: string, stores: seq<Store>, t: Ty)
    ensures StoredIn(c, x, stores) != [] <==> exists i :: 0 <= i < |stores| && stores[i].cls == c && stores[i].x == x
    ensures (forall i :: 0 <= i < |StoredIn(c, x, stores)| ==> StoredIn(c, x, stores)[i] == t) <==>
            forall i :: 0 <= i < |stores| && stores[i].cls == c && stores[i].x == x ==> stores[i].ty == t
    decreases |stores|
  {
    if stores != [] {
      var n := |stores| - 1;
      var before := StoredIn(c, x, stores[..n]);
      StoredMeans(c, x, stores[..n], t);
      assert forall i :: 0 <= i < n ==> stores[..n][i] == stores[i];
      if stores[n].cls == c && stores[n].x == x {
        assert StoredIn(c, x, stores) == before + [stores[n].ty];
        assert (before + [stores[n].ty])[|before|] == stores[n].ty;
        assert forall i :: 0 <= i < |before| ==> (before + [stores[n].ty])[i] == before[i];
      }
    }
  }

  // ----- casts and `self` -----

  predicate Spans(cast: Cast, at: nat) { cast.lo <= at < cast.hi }

  /** The first cast whose range holds the place. */
  predicate FirstCast(casts: seq<Cast>, at: nat, i: nat) {
    i < |casts| && Spans(casts[i], at) && forall j :: 0 <= j < i ==> !Spans(casts[j], at)
  }

  lemma {:induction false} CastFound(casts: seq<Cast>, at: nat, i: nat)
    requires FirstCast(casts, at, i)
    ensures CastAt(casts, at) == Some(casts[i].target)
    decreases |casts|
  {
    if i > 0 {
      assert !Spans(casts[0], at);
      assert forall j :: 0 <= j < i - 1 ==> casts[1..][j] == casts[j + 1];
      CastFound(casts[1..], at, i - 1);
    } else {
      assert Spans(casts[0], at);
    }
  }

  lemma {:induction false} NoCast(casts: seq<Cast>, t: Ty, at: nat)
    requires forall i :: 0 <= i < |casts| ==> !Spans(casts[i], at)
    ensures ApplyCast(casts, t, at) == t
    decreases |casts|
  {
    if casts != [] {
      assert !Spans(casts[0], at);
      NoCast(casts[1..], t, at);
    }
  }

  /** `#: as untyped` lets everything through, `#: as !nil` takes nil away where more than nil is there, and a known
      name replaces the type. */
  lemma CastExact(w: World, v: Value, casts: seq<Cast>, t: Ty, at: nat, i: nat)
    requires FirstCast(casts, at, i)
    ensures match casts[i].target
      case Untyped => Has(w, v, ApplyCast(casts, t, at))
      case NamedTy(named) => Has(w, v, ApplyCast(casts, t, at)) <==> Has(w, v, if named == Unknown then t else named)
      case NotNil =>
        Precision.MoreThanNil(t) && v != VNil ==> (Has(w, v, ApplyCast(casts, t, at)) <==> Has(w, v, t))
    ensures casts[i].target.NotNil? && Precision.NilApart(w, t) ==> !Has(w, VNil, ApplyCast(casts, t, at))
  {
    CastFound(casts, at, i);
    if Precision.MoreThanNil(t) && v != VNil { Precision.StripNilLeaves(w, v, t); }
    if Precision.NilApart(w, t) { Precision.NilRuledOut(w, t); }
  }

  /** A cast comment on a plain assignment decides what the local holds from there on. */
  lemma WriteCast(p: Oracle, cx: Ctx, k: nat, n: Node, env: Env, d: Deriv, w: World, v: Value, i: nat)
    requires n.kind.LocalWrite? && Writes(p, cx, k, n, env, d) && FirstCast(cx.casts, n.kind.value.span.0, i)
    ensures n.kind.x in d.env && d.env[n.kind.x] == d.ty
    ensures cx.casts[i].target.Untyped? ==> Has(w, v, d.ty)
    ensures cx.casts[i].target.NamedTy? && cx.casts[i].target.ty != Unknown ==>
      (Has(w, v, d.ty) <==> Has(w, v, cx.casts[i].target.ty))
    ensures cx.casts[i].target.NotNil? && Precision.NilApart(w, d.kids[0].ty) ==> !Has(w, VNil, d.ty)
  {
    CastExact(w, v, cx.casts, d.kids[0].ty, n.kind.value.span.0, i);
  }

  /** How many arguments before the `j`-th take a position. */
  function PlainBefore(args: seq<Node>, j: nat): nat
    requires j <= |args|
  {
    if j == 0 then 0 else (if args[0].kind.Spread? then 0 else 1) + PlainBefore(args[1..], j - 1)
  }

  /** Each argument that is no spread stands at its position with its own span and its type under the cast there. */
  lemma {:induction false} ArgumentAt(args: seq<Node>, tys: seq<Ty>, casts: seq<Cast>, j: nat)
    requires j < |args| == |tys| && !args[j].kind.Spread?
    ensures var pos, i := Positional(args, tys, casts), PlainBefore(args, j);
            i < |pos| && pos[i] == Pos(ApplyCast(casts, tys[j], args[j].span.0), args[j].span)
    decreases |args|
  {
    if j > 0 { ArgumentAt(args[1..], tys[1..], casts, j - 1); }
  }

  /** `v` may be `self` where `self` is known as `s`: an instance of the class, the class object, or anything. */
  predicate MayBeSelf(w: World, v: Value, s: SelfTy) {
    match s
    case SInstance(c) => v.VObj? && w.Sub(v.cls, c)
    case SClass(c) => v == VClass(c)
    case SUnknown => true
  }

  /** The receiver of a call without one, and a read of `self`. */
  lemma SelfHolds(p: Oracle, cx: Ctx, k: nat, n: Node, env: Env, d: Deriv, w: World, v: Value)
    requires if n.kind.CallNode? then n.kind.recv.None? && Receives(p, cx, k, n, env, d)
             else n.kind.SelfRead? && LeafOf(p, cx, n, env, d)
    ensures Has(w, v, d.ty) <==> MayBeSelf(w, v, cx.self)
  {}

  /** A method's own walk is silent, under its own casts and with the `self` of its class, outside every block. */
  lemma MethodWalkStands(p: Oracle, key: Key, m: MethodSig, ty: Ty, wk: Walk, w: World, v: Value)
    requires wk.Walk? && MethodWalk(p, key, m, ty, wk)
    ensures wk.cx.silent && wk.cx.casts == p.fileCasts(m.file) && wk.cx.rebindable == 0 && key in wk.cx.busy.keys
    ensures MayBeSelf(w, v, wk.cx.self) <==>
            if key.singleton then v == VClass(key.cls) else v.VObj? && w.Sub(v.cls, key.cls)
  {}

  /** So is the walk of a class, as an instance of it. */
  lemma ClassWalkStands(p: Oracle, c: ClassId, wk: Walk, w: World, v: Value)
    requires wk.Walk? && ClassWalk(p, c, wk)
    ensures wk.cx.silent && wk.cx.rebindable == 0 && c in wk.cx.busy.classes
    ensures MayBeSelf(w, v, wk.cx.self) <==> v.VObj? && w.Sub(v.cls, c)
  {}

  /** A `def` of a class runs as an instance of it, or as the class object when it is a singleton one. */
  lemma DefStands(p: Oracle, cx: Ctx, k: nat, item: Item, at: Place, env: Env, d: ItemDeriv, w: World, v: Value)
    requires item.DefItem? && at.cls.Some? && DerivesItem(p, cx, k, item, at, env, d)
    ensures d.cx.silent == cx.silent && d.cx.guards == cx.guards && d.cx.rebindable == 0
    ensures MayBeSelf(w, v, d.cx.self) <==>
            if at.inSingleton || item.ownSelf then v == VClass(at.cls.value) else v.VObj? && w.Sub(v.cls, at.cls.value)
  {}

  // ----- assignments -----

  /** A multiple assignment leaves all its names open and touches no other. */
  lemma MultiWriteForgets(p: Oracle, cx: Ctx, k: nat, n: Node, env: Env, d: Deriv, x: string)
    requires n.kind.MultiWrite? && Infers(p, cx, k, n, env, d)
    ensures |d.kids| == 1 && (x in n.kind.names ==> x in d.env && d.env[x] == Unknown)
    ensures x !in n.kind.names ==>
      (x in d.env <==> x in d.kids[0].env) && (x in d.env ==> d.env[x] == d.kids[0].env[x])
  {}

  // ----- methods -----

  /** A parameter has its declared type, else what its default has, else anything; a later one of the same name wins. */
  lemma {:induction false} ParamExact(ps: seq<Param>, ds: seq<Deriv>, i: nat)
    requires |ps| == |ds| && i < |ps| && forall j :: i < j < |ps| ==> ps[j].name != ps[i].name
    ensures ps[i].name in ParamEnv(ps, ds)
    ensures var t := ParamEnv(ps, ds)[ps[i].name];
            && (ps[i].ty.Some? ==> t == ps[i].ty.value)
            && (ps[i].ty.None? ==> t == if ps[i].default.Some? then ds[i].ty else Unknown)
    decreases |ps|
  {
    var n := |ps| - 1;
    if i < n {
      assert ps[..n][i] == ps[i] && ds[..n][i] == ds[i];
      ParamExact(ps[..n], ds[..n], i);
    }
  }

  ghost predicate OneHas(w: World, v: Value, tys: seq<Ty>) { exists i :: 0 <= i < |tys| && Has(w, v, tys[i]) }

  /** What a body can end with. */
  ghost predicate BodyYields(w: World, v: Value, b: Body)
    requires b.Body?
  {
    Has(w, v, b.body.ty) || OneHas(w, v, b.body.fx.rets)
  }

  lemma BodyTyExact(w: World, v: Value, b: Body)
    requires b.Body?
    ensures Has(w, v, BodyTy(b)) <==> BodyYields(w, v, b)
  {
    JoinAllMeaning(w, v, b.body.ty, b.body.fx.rets);
  }

  /** A call that reaches a method answers its declared return type; without one, exactly what the body it was walked by
      can end with, or where that is anything, what the sorbet signature says. */
  lemma CallAnswers(p: Oracle, cx: Ctx, k: nat, n: Node, env: Env, c: Deriv, m: MethodSig, w: World, v: Value)
    requires n.kind.CallNode? && Calls(p, cx, k, n, env, c) && !Spared(n, cx.guards, cx.rebindable)
    requires Reaches(p, c.kids[0].ty, n.kind.name, m) && !(c.kids[0].ty.Class? && n.kind.name == "new")
    ensures m.ret.Some? ==> c.ty == m.ret.value
    ensures m.ret.None? && c.walk.Walk? && m.def.Some? ==>
      && |c.walk.bodies| == 1 && DerivesBody(p, c.walk.cx, c.walk.left, m.def.value, c.walk.bodies[0])
      && (Has(w, v, c.ty) <==> if BodyTy(c.walk.bodies[0]) == Unknown then Has(w, v, m.sorbet)
                               else BodyYields(w, v, c.walk.bodies[0]))
  {
    var site := SiteOf(cx, n, c.kids[0], c.kids[1]);
    AnswersByReturn(p, cx.silent, site, cx.guards, cx.rebindable, m);
    var a := AnswerOf(p, cx.silent, site, cx.guards, cx.rebindable);
    assert Returned(p, cx, k, a.key, a.m, c.ty, c.walk);
    if m.ret.None? && c.walk.Walk? && m.def.Some? {
      assert MethodWalk(p, a.key, m, c.ty, c.walk);
      BodyTyExact(w, v, c.walk.bodies[0]);
    }
  }
}
