/** What the checker infers, as a relation: a derivation says how the type of a node comes about, and everything the
    walk of the node did besides. It knows no memo table, no saved field and no order of entry; the stateful walker is
    shown to stay within it. */
module Typing {
  import opened Types
  import opened Constraints
  import opened Project
  import opened Verdicts
  import Flow

  type Env = Flow.Env

  // ----- pieces of the rules -----

  function CastAt(casts: seq<Cast>, at: nat): Option<CastTarget> {
    if casts == [] then None
    else if casts[0].lo <= at < casts[0].hi then Some(casts[0].target)
    else CastAt(casts[1..], at)
  }

  /** `apply_cast_comment` */
  function ApplyCast(casts: seq<Cast>, t: Ty, at: nat): Ty {
    match CastAt(casts, at)
    case None => t
    case Some(NotNil) => Flow.StripNil(t)
    case Some(Untyped) => Unknown
    case Some(NamedTy(ty)) => if ty == Unknown then t else ty
  }

  function FindNarrowed(names: seq<(string, Ty)>, x: string): Option<Ty> {
    if names == [] then None
    else if names[|names| - 1].0 == x then Some(names[|names| - 1].1)
    else FindNarrowed(names[..|names| - 1], x)
  }

  /** `narrowed_expr_ty`: what an enclosing `&&` proved about the receiver replaces its inferred type. */
  function NarrowedRead(r: Node, narrowed: seq<(string, Ty)>, ty: Ty): Ty {
    var name := ExprName(r);
    var known := if name.Some? then FindNarrowed(narrowed, name.value) else None;
    if known.Some? then known.value else ty
  }

  /** The positional arguments: spreads are walked but take no position. */
  function Positional(args: seq<Node>, tys: seq<Ty>, casts: seq<Cast>): seq<Pos> {
    if args == [] || tys == [] then []
    else
      var rest := Positional(args[1..], tys[1..], casts);
      if args[0].kind.Spread? then rest else [Pos(ApplyCast(casts, tys[0], args[0].span.0), args[0].span)] + rest
  }

  /** `spill_block_writes`: a name the block rebound widens, a block-local stays inside. */
  function Spill(outer: Env, inner: Env): Env {
    map x | x in outer :: if x in inner && inner[x] != outer[x] then Join(outer[x], inner[x]) else outer[x]
  }

  function BindUnknown(env: Env, xs: seq<string>): Env
    decreases |xs|
  {
    if xs == [] then env else BindUnknown(env[xs[0] := Unknown], xs[1..])
  }

  predicate Assigns(n: Node) {
    n.kind.LocalWrite? || n.kind.LocalOrWrite? || n.kind.LocalOpWrite? || n.kind.MultiWrite?
  }

  function AssignedNames(n: Node): seq<string>
    requires Assigns(n)
  {
    if n.kind.MultiWrite? then n.kind.names else [n.kind.x]
  }

  function BindAll(env: Env, xs: seq<string>, ty: Ty): Env { env + map x | x in xs :: ty }

  lemma BindOne(env: Env, x: string, ty: Ty)
    ensures BindAll(env, [x], ty) == env[x := ty]
  {}

  function Rebounds(xs: seq<string>): seq<Event> {
    if xs == [] then [] else Rebounds(xs[..|xs| - 1]) + [Rebound(xs[|xs| - 1])]
  }

  /** `x.extend(M)` makes the methods of `x` unknowable from here on. */
  function ExtendedEnv(p: Oracle, n: Node, env: Env): Env
    requires n.kind.CallNode? && n.kind.recv.Some?
  {
    var r := n.kind.recv.value;
    if n.kind.name == "extend" && p.closedWorld && r.kind.LocalRead? then env[r.kind.x := Unknown] else env
  }

  /** A write to an instance variable of a class. */
  datatype Store = Store(cls: ClassId, x: string, ty: Ty)

  /** The same for an instance variable: an unknown write. */
  function ExtendedStores(n: Node, self: SelfTy): seq<Store>
    requires n.kind.CallNode? && n.kind.recv.Some?
  {
    var r := n.kind.recv.value;
    if n.kind.name == "extend" && r.kind.IvarRead? && self.SInstance? then [Store(self.cls, r.kind.x, Unknown)] else []
  }

  function Armed(g: Guards, subjects: seq<Span>): Guards { g.(subjects := g.subjects + subjects) }

  /** What the guarded branch of `if defined?(X)` or `if respond_to?(:m)` is walked under. */
  function Pushed(g: Guards, definedGuard: Option<string>, respondGuard: Option<string>): Guards {
    g.(defined := g.defined + (if definedGuard.Some? then [definedGuard.value] else []),
       respond := g.respond + (if respondGuard.Some? then [respondGuard.value] else []))
  }

  /** What a left `is_a?(Class)` of `&&` proves for its right operand. */
  function PushedClass(g: Guards, n: Node): Guards {
    if n.kind.AndNode? && n.kind.classGuard.Some?
    then g.(narrowed := g.narrowed + [(n.kind.classGuard.value, Unknown)]) else g
  }

  // ----- instance variables -----

  /** `ivar_capture`: the class whose instance-variable writes are being collected. */
  datatype Capture = Capture(cls: ClassId, writes: map<string, seq<Ty>>)

  function Captured(c: Option<Capture>, stores: seq<Store>): Option<Capture> {
    if stores == [] then c
    else
      var before, s := Captured(c, stores[..|stores| - 1]), stores[|stores| - 1];
      if before.None? || before.value.cls != s.cls then before
      else
        var w := before.value.writes;
        Some(Capture(s.cls, w[s.x := (if s.x in w then w[s.x] else []) + [s.ty]]))
  }

  lemma {:induction false} CapturedThen(c: Option<Capture>, a: seq<Store>, b: seq<Store>)
    ensures Captured(c, a + b) == Captured(Captured(c, a), b)
    decreases |b|
  {
    if b == [] {
      assert a + b == a;
    } else {
      assert (a + b)[..|a + b| - 1] == a + b[..|b| - 1];
      CapturedThen(c, a, b[..|b| - 1]);
    }
  }

  lemma {:induction false} CapturedKind(c: Option<Capture>, stores: seq<Store>)
    ensures Captured(c, stores).None? <==> c.None?
    ensures c.Some? ==> Captured(c, stores).value.cls == c.value.cls
    decreases |stores|
  {
    if stores != [] { CapturedKind(c, stores[..|stores| - 1]); }
  }

  /** `fold_ivar_writes` for one name: two different types collapse to Unknown. */
  function FoldWrites(tys: seq<Ty>): Ty {
    if tys == [] then Unknown
    else if |tys| == 1 then tys[0]
    else if FoldWrites(tys[..|tys| - 1]) == tys[|tys| - 1] then tys[|tys| - 1]
    else Unknown
  }

  function FoldAll(writes: map<string, seq<Ty>>): map<string, Ty> {
    map x | x in writes :: FoldWrites(writes[x])
  }

  /** What the walk of class `c` finds out about its instance variables. */
  function IvarsOf(c: ClassId, stores: seq<Store>): map<string, Ty> {
    CapturedKind(Some(Capture(c, map[])), stores);
    FoldAll(Captured(Some(Capture(c, map[])), stores).value.writes)
  }

  function Typed(ivars: map<string, Ty>, x: string): Ty { if x in ivars then ivars[x] else Unknown }

  // ----- effects -----

  /** What a walk does besides typing: the returns it records, what happens to tracked locals, the instance variables
      it writes, the diagnostics it raises, each in order. */
  datatype Fx = Fx(rets: seq<Ty>, events: seq<Event>, stores: seq<Store>, diags: seq<Diag>)

  const STILL: Fx := Fx([], [], [], [])

  function Then(a: Fx, b: Fx): Fx { Fx(a.rets + b.rets, a.events + b.events, a.stores + b.stores, a.diags + b.diags) }

  function Raising(silent: bool, ds: seq<Diag>): Fx { Fx([], [], [], if silent then [] else ds) }

  function Returning(ty: Ty): Fx { Fx([ty], [], [], []) }

  function Storing(stores: seq<Store>): Fx { Fx([], [], stores, []) }

  function Rebinding(xs: seq<string>): Fx { Fx([], Rebounds(xs), [], []) }

  // ----- derivations -----

  /** How many levels are left below the depth-200 cut-off; a walk opened at top level has `FULL`. */
  const FULL: nat := 201

  function Left(depth: nat): (k: nat)
    ensures k <= FULL
  {
    if depth > 200 then 0 else 201 - depth
  }

  /** The in-progress sets of `method_return` and `ivar_ty`. */
  datatype Busy = Busy(keys: set<Key>, classes: set<ClassId>)

  /** What a node is walked under. */
  datatype Ctx = Ctx(silent: bool, casts: seq<Cast>, guards: Guards, rebindable: nat, self: SelfTy, busy: Busy)

  function Under(cx: Ctx, g: Guards): Ctx { cx.(guards := g) }

  function ConstFx(p: Oracle, cx: Ctx, path: string, span: Span): Fx {
    Raising(cx.silent, ConstDiags(p, path, span, cx.guards, cx.rebindable))
  }

  /** How a node, or a list of nodes, was walked. `walk` is the nested walk its type came from, if any. */
  datatype Deriv = Deriv(ty: Ty, env: Env, fx: Fx, kids: seq<Deriv>, walk: Walk)

  /** A walk of other bodies: one method's, or those of a class. `anew`: it was opened here, not memoised before. */
  datatype Walk = NoWalk | Walk(anew: bool, cx: Ctx, left: nat, bodies: seq<Body>)

  /** `defaults`: one for each parameter. `order`: the order in which the tracked locals are flushed. */
  datatype Body = NoBody | Body(defaults: seq<Deriv>, body: Deriv, order: seq<string>)

  predicate Yields(d: Deriv, ty: Ty, env: Env) { d.ty == ty && d.env == env }

  predicate Amounts(d: Deriv, ty: Ty, env: Env, fx: Fx) { Yields(d, ty, env) && d.fx == fx }

  predicate Leaf(d: Deriv, ty: Ty, env: Env, fx: Fx) { Amounts(d, ty, env, fx) && d.kids == [] }

  function EndEnv(env: Env, ds: seq<Deriv>): Env
    decreases |ds|
  {
    if ds == [] then env else EndEnv(ds[0].env, ds[1..])
  }

  function FxAll(ds: seq<Deriv>): Fx { if ds == [] then STILL else Then(ds[0].fx, FxAll(ds[1..])) }

  lemma {:induction false} FxAllThen(ds: seq<Deriv>, d: Deriv)
    ensures FxAll(ds + [d]) == Then(FxAll(ds), d.fx)
    decreases |ds|
  {
    if ds == [] {
      assert ds + [d] == [d];
    } else {
      assert (ds + [d])[1..] == ds[1..] + [d];
      FxAllThen(ds[1..], d);
    }
  }

  function TysOf(ds: seq<Deriv>): (tys: seq<Ty>)
    ensures |tys| == |ds|
  {
    if ds == [] then [] else [ds[0].ty] + TysOf(ds[1..])
  }

  /** The environment of a body: declared parameter types, else what the default has. */
  function ParamEnv(ps: seq<Param>, ds: seq<Deriv>): Env
    requires |ps| == |ds|
    decreases |ps|
  {
    if ps == [] then map[]
    else
      var n := |ps| - 1;
      ParamEnv(ps[..n], ds[..n])[ps[n].name := ParamTy(ps[n], ds[n].ty)]
  }

  function ParamTy(q: Param, ty: Ty): Ty {
    if q.ty.Some? then q.ty.value else if q.default.None? then Unknown else ty
  }

  /** The last value's type joined with every `return`'s. */
  function BodyTy(b: Body): Ty
    requires b.Body?
  {
    JoinAll(b.body.ty, b.body.fx.rets)
  }

  /** Keyword defaults are walked before returns and constraints are set aside, so all they do is done to the walk in
      hand; of the body itself only what it stores and raises gets out, and its bindings are flushed at its end. */
  function BodyFx(p: Oracle, cx: Ctx, b: Body): Fx
    requires b.Body?
  {
    Then(FxAll(b.defaults), BodyOut(p, cx, b.body, b.order))
  }

  function BodyOut(p: Oracle, cx: Ctx, d: Deriv, order: seq<string>): Fx {
    Fx([], [], d.fx.stores, d.fx.diags + Flush(p, cx, order, Collected(d.fx.events)))
  }

  function Flush(p: Oracle, cx: Ctx, xs: seq<string>, cs: map<string, seq<Use>>): seq<Diag> {
    if cx.silent then [] else FlushDiags(p, xs, cs, cx.guards, cx.rebindable)
  }

  function SelfOf(cls: Option<ClassId>, singleton: bool): SelfTy {
    if cls.None? then SUnknown else if singleton then SClass(cls.value) else SInstance(cls.value)
  }

  /** What a method's own walk, opened in `cx`, goes on under. */
  function MethodCtx(p: Oracle, cx: Ctx, key: Key, m: MethodSig): Ctx {
    Ctx(true, p.fileCasts(m.file), cx.guards, 0, SelfOf(Some(key.cls), key.singleton),
        cx.busy.(keys := cx.busy.keys + {key}))
  }

  /** The same for the walk of a class; each of its methods brings its own casts. */
  function ClassCtx(cx: Ctx, c: ClassId): Ctx {
    Ctx(true, [], cx.guards, 0, SInstance(c), cx.busy.(classes := cx.busy.classes + {c}))
  }

  // ----- the rules -----

  /** `infer_expr`: `k` levels are left below the cut-off. */
  ghost predicate Derives(p: Oracle, cx: Ctx, k: nat, n: Node, env: Env, d: Deriv)
    decreases d, 9
  {
    if k == 0 then Leaf(d, Unknown, env, STILL) else Infers(p, cx, k - 1, n, env, d)
  }

  ghost predicate DerivesOpt(p: Oracle, cx: Ctx, k: nat, n: Option<Node>, env: Env, d: Deriv)
    decreases d, 10
  {
    if n.Some? then Derives(p, cx, k, n.value, env, d) else Leaf(d, Nil, env, STILL)
  }

  /** One after the other, each in the environment the one before leaves. */
  ghost predicate DerivesAll(p: Oracle, cx: Ctx, k: nat, ns: seq<Node>, env: Env, ds: seq<Deriv>)
    decreases ds, 0
  {
    |ds| == |ns| &&
    (ns != [] ==> Derives(p, cx, k, ns[0], env, ds[0]) && DerivesAll(p, cx, k, ns[1..], ds[0].env, ds[1..]))
  }

  ghost predicate DerivesList(p: Oracle, cx: Ctx, k: nat, ns: seq<Node>, env: Env, d: Deriv)
    decreases d, 6
  {
    DerivesAll(p, cx, k, ns, env, d.kids) && Amounts(d, Flow.LastTy(TysOf(d.kids)), EndEnv(env, d.kids), FxAll(d.kids))
  }

  /** `infer_expr_inner`; `k` levels are left for the children. */
  ghost predicate Infers(p: Oracle, cx: Ctx, k: nat, n: Node, env: Env, d: Deriv)
    decreases d, 8
  {
    if Assigns(n) then Writes(p, cx, k, n, env, d)
    else if n.kind.IvarRead? then ReadsIvar(p, cx, k, n, env, d)
    else if n.kind.IvarWrite? then WritesIvar(p, cx, k, n, env, d)
    else if n.kind.Stmts? || n.kind.Parts? || n.kind.Spread? then WalksParts(p, cx, k, n, env, d)
    else if n.kind.IfNode? then Branches(p, cx, k, n, env, d)
    else if n.kind.AndNode? || n.kind.OrNode? then AndsOrs(p, cx, k, n, env, d)
    else if n.kind.ReturnNode? then Returns(p, cx, k, n, env, d)
    else if n.kind.LambdaNode? then Closes(p, cx, k, Block(n.kind.params, n.kind.block, []), true, env, d)
    else if n.kind.CallNode? then Calls(p, cx, k, n, env, d)
    else LeafOf(p, cx, n, env, d)
  }

  ghost predicate LeafOf(p: Oracle, cx: Ctx, n: Node, env: Env, d: Deriv) {
    var k := n.kind;
    var ty := if k.Plain? || k.ConstRead? then k.ty
              else if k.SelfRead? then SelfAsTy(cx.self)
              else if k.LocalRead? && k.x in env then env[k.x]
              else Unknown;
    Leaf(d, ty, env, if k.ConstRead? && k.ty == Unknown then ConstFx(p, cx, k.path, n.span) else STILL)
  }

  /** The value, then the names are bound and their constraints end. */
  ghost predicate Writes(p: Oracle, cx: Ctx, k: nat, n: Node, env: Env, d: Deriv)
    requires Assigns(n)
    decreases d, 7
  {
    |d.kids| == 1 && Derives(p, cx, k, n.kind.value, env, d.kids[0]) && Bound(cx, n, d.kids[0], d)
  }

  /** What an assignment binds: the value under its cast, the value or what was there, or anything. */
  function BoundTy(casts: seq<Cast>, n: Node, ty: Ty, env: Env): Ty
    requires Assigns(n)
  {
    if n.kind.LocalWrite? then ApplyCast(casts, ty, n.kind.value.span.0)
    else if n.kind.LocalOrWrite? then Join(if n.kind.x in env then env[n.kind.x] else Nil, ty)
    else Unknown
  }

  ghost predicate Bound(cx: Ctx, n: Node, v: Deriv, d: Deriv)
    requires Assigns(n)
  {
    var ty := BoundTy(cx.casts, n, v.ty, v.env);
    Amounts(d, ty, BindAll(v.env, AssignedNames(n), ty), Then(v.fx, Rebinding(AssignedNames(n))))
  }

  ghost predicate WritesIvar(p: Oracle, cx: Ctx, k: nat, n: Node, env: Env, d: Deriv)
    requires n.kind.IvarWrite?
    decreases d, 7
  {
    |d.kids| == 1 && Derives(p, cx, k, n.kind.value, env, d.kids[0]) &&
    var v := d.kids[0];
    var stores := if cx.self.SInstance? then [Store(cx.self.cls, n.kind.x, v.ty)] else [];
    Amounts(d, v.ty, v.env, Then(v.fx, Storing(stores)))
  }

  ghost predicate WalksParts(p: Oracle, cx: Ctx, k: nat, n: Node, env: Env, d: Deriv)
    requires n.kind.Stmts? || n.kind.Parts? || n.kind.Spread?
    decreases d, 7
  {
    |d.kids| == 1 && DerivesList(p, cx, k, if n.kind.Stmts? then n.kind.body else n.kind.parts, env, d.kids[0]) &&
    var v := d.kids[0];
    Amounts(d, if n.kind.Stmts? then v.ty else if n.kind.Parts? then n.kind.ty else Unknown, v.env, v.fx)
  }

  ghost predicate Returns(p: Oracle, cx: Ctx, k: nat, n: Node, env: Env, d: Deriv)
    requires n.kind.ReturnNode?
    decreases d, 7
  {
    |d.kids| == 1 && DerivesList(p, cx, k, n.kind.args, env, d.kids[0]) &&
    var v := d.kids[0];
    var ret := if |v.kids| > 1 then Array(Unknown) else v.ty;
    Amounts(d, Unknown, v.env, Then(v.fx, Returning(ret)))
  }

  /** `if` and `unless`: the predicate, then each branch in its narrowed environment; guards hold in one branch. */
  ghost predicate Branches(p: Oracle, cx: Ctx, k: nat, n: Node, env: Env, d: Deriv)
    requires n.kind.IfNode?
    decreases d, 7
  {
    |d.kids| == 3 && Derives(p, cx, k, n.kind.pred, env, d.kids[0]) &&
    Branch(p, cx, k, n, true, d.kids[0].env, d.kids[1]) && Branch(p, cx, k, n, false, d.kids[0].env, d.kids[2]) &&
    Joined(n, d.kids[0], d.kids[1], d.kids[2], d)
  }

  ghost predicate Branch(p: Oracle, cx: Ctx, k: nat, n: Node, thn: bool, base: Env, d: Deriv)
    requires n.kind.IfNode?
    decreases d, 7
  {
    var holds := thn != n.kind.negated;
    var inner := if holds then Under(cx, Pushed(cx.guards, n.kind.definedGuard, n.kind.respondGuard)) else cx;
    DerivesList(p, inner, k, if thn then n.kind.thn else n.kind.els,
                if holds then Flow.WhenTrue(base, n.kind.narrow) else Flow.WhenFalse(base, n.kind.narrow), d)
  }

  ghost predicate Joined(n: Node, pred: Deriv, thn: Deriv, els: Deriv, d: Deriv)
    requires n.kind.IfNode?
  {
    var shortcut := n.kind.narrow.Some? && n.kind.leaves && !n.kind.hasElse &&
                    (n.kind.negated ==> !n.kind.narrow.value.kind.IsAFact?);
    Amounts(d, Join(thn.ty, els.ty), if shortcut then els.env else Flow.JoinEnvs(pred.env, [thn.env, els.env]),
         Then(pred.fx, Then(thn.fx, els.fx)))
  }

  /** What a left `is_a?(Class)` proved holds in the right operand only. */
  ghost predicate AndsOrs(p: Oracle, cx: Ctx, k: nat, n: Node, env: Env, d: Deriv)
    requires n.kind.AndNode? || n.kind.OrNode?
    decreases d, 7
  {
    |d.kids| == 2 && Derives(p, cx, k, n.kind.l, env, d.kids[0]) &&
    Derives(p, Under(cx, PushedClass(cx.guards, n)), k, n.kind.r, d.kids[0].env, d.kids[1]) &&
    Amounts(d, Join(d.kids[0].ty, d.kids[1].ty), d.kids[1].env, Then(d.kids[0].fx, d.kids[1].fx))
  }

  /** A block or lambda: its subjects armed, one level more where `self` may be rebound, its writes spilled. */
  ghost predicate Closes(p: Oracle, cx: Ctx, k: nat, b: Block, rebindable: bool, env: Env, d: Deriv)
    decreases d, 7
  {
    |d.kids| == 1 && DerivesOpt(p, InBlock(cx, b, rebindable), k, b.body, BindUnknown(env, b.params), d.kids[0]) &&
    Amounts(d, Unknown, Spill(env, d.kids[0].env), d.kids[0].fx)
  }

  function InBlock(cx: Ctx, b: Block, rebindable: bool): Ctx {
    Rebindable(Under(cx, Armed(cx.guards, b.subjects)), rebindable)
  }

  function Rebindable(cx: Ctx, rebindable: bool): Ctx {
    if rebindable then cx.(rebindable := cx.rebindable + 1) else cx
  }

  // ----- calls -----

  /** Receiver, arguments and block, then the verdict. */
  ghost predicate Calls(p: Oracle, cx: Ctx, k: nat, n: Node, env: Env, d: Deriv)
    requires n.kind.CallNode?
    decreases d, 7
  {
    Operands(p, cx, k, n, env, d.kids) &&
    Answered(p, cx, k, SiteOf(cx, n, d.kids[0], d.kids[1]), d.ty, d.walk) &&
    d.env == d.kids[2].env &&
    d.fx == Then(OperandFx(d.kids[0], d.kids[1], d.kids[2]),
                 CallFx(p, cx, SiteOf(cx, n, d.kids[0], d.kids[1]), d.walk))
  }

  /** Receiver, arguments, block. */
  ghost predicate Operands(p: Oracle, cx: Ctx, k: nat, n: Node, env: Env, ds: seq<Deriv>)
    requires n.kind.CallNode?
    ensures Operands(p, cx, k, n, env, ds) ==> |ds| == 3
    decreases ds, 0
  {
    |ds| == 3 && Receives(p, cx, k, n, env, ds[0]) && DerivesList(p, cx, k, n.kind.args, ds[0].env, ds[1]) &&
    Blocks(p, cx, k, n, ds[0].ty, ds[1].env, ds[2])
  }

  ghost predicate Receives(p: Oracle, cx: Ctx, k: nat, n: Node, env: Env, d: Deriv)
    requires n.kind.CallNode?
    decreases d, 6
  {
    if n.kind.recv.None? then Leaf(d, SelfAsTy(cx.self), env, STILL)
    else
      |d.kids| == 1 &&
      Derives(p, Under(cx, Armed(cx.guards, n.kind.rspec)), k, n.kind.recv.value, env, d.kids[0]) &&
      Amounts(d, NarrowedRead(n.kind.recv.value, cx.guards.narrowed, d.kids[0].ty), ExtendedEnv(p, n, d.kids[0].env),
           Then(d.kids[0].fx, Storing(ExtendedStores(n, cx.self))))
  }

  ghost predicate Blocks(p: Oracle, cx: Ctx, k: nat, n: Node, recvTy: Ty, env: Env, d: Deriv)
    requires n.kind.CallNode?
    decreases d, 8
  {
    if n.kind.blk.Some? then Closes(p, cx, k, n.kind.blk.value, !p.keepsSelf(recvTy, n.kind.name), env, d)
    else d.env == env && d.fx == STILL && d.kids == []
  }

  function OperandFx(recv: Deriv, args: Deriv, blk: Deriv): Fx { Then(Then(recv.fx, args.fx), blk.fx) }

  /** The call with what was inferred of its receiver and arguments. */
  function SiteOf(cx: Ctx, n: Node, recv: Deriv, args: Deriv): Site
    requires n.kind.CallNode?
  {
    Site(n, recv.ty, Positional(n.kind.args, TysOf(args.kids), cx.casts))
  }

  function CallFx(p: Oracle, cx: Ctx, site: Site, w: Walk): Fx
    requires site.call.kind.CallNode?
  {
    Then(Fx([], UseEvents(p, cx.silent, site, cx.guards, cx.rebindable), [],
            if cx.silent then [] else CallDiags(p, site, cx.guards, cx.rebindable)),
         MethodLeak(p, w))
  }

  /** What a nested method walk does to the walk in hand: nothing when it was memoised; else what its keyword defaults
      do, and what it stores. */
  function MethodLeak(p: Oracle, w: Walk): Fx
  {
    if w.NoWalk? || !w.anew || w.bodies == [] || w.bodies[0].NoBody? then STILL
    else BodyFx(p, w.cx, w.bodies[0]).(diags := [])
  }

  ghost predicate Answered(p: Oracle, cx: Ctx, k: nat, site: Site, ty: Ty, w: Walk)
    requires site.call.kind.CallNode?
    decreases w, 2
  {
    match AnswerOf(p, cx.silent, site, cx.guards, cx.rebindable)
    case Fixed(t) => ty == t && w.NoWalk?
    case ByReturn(key, m) => Returned(p, cx, k, key, m, ty, w)
  }

  /** `method_return`: the signature, the in-progress fallback, or a walk of the body, now or before. */
  ghost predicate Returned(p: Oracle, cx: Ctx, k: nat, key: Key, m: MethodSig, ty: Ty, w: Walk)
    decreases w, 1
  {
    if m.ret.Some? then ty == m.ret.value && w.NoWalk?
    else if m.arityUnknown then ty == Unknown && w.NoWalk?
    else if key in cx.busy.keys then ty == m.sorbet && w.NoWalk?
    else w.Walk? && MethodWalk(p, key, m, ty, w) && (w.anew ==> w.cx == MethodCtx(p, cx, key, m) && w.left == k)
  }

  /** A body walked in silence under its own file's casts; a sorbet signature fills Unknown. */
  ghost predicate MethodWalk(p: Oracle, key: Key, m: MethodSig, ty: Ty, w: Walk)
    requires w.Walk?
    decreases w, 0
  {
    && (exists cx :: w.cx == MethodCtx(p, cx, key, m))
    && if m.def.None? then w.bodies == [] && ty == m.sorbet
       else |w.bodies| == 1 && DerivesBody(p, w.cx, w.left, m.def.value, w.bodies[0]) &&
            ty == Filled(BodyTy(w.bodies[0]), m.sorbet)
  }

  function Filled(ty: Ty, sorbet: Ty): Ty { if ty == Unknown then sorbet else ty }

  // ----- bodies -----

  /** `check_method_body` */
  ghost predicate DerivesBody(p: Oracle, cx: Ctx, k: nat, def: Def, b: Body)
    ensures DerivesBody(p, cx, k, def, b) ==> b.Body?
    decreases b
  {
    && b.Body? && DerivesParams(p, cx, k, def.params, b.defaults)
    && DerivesOpt(p, cx, k, def.body, ParamEnv(def.params, b.defaults), b.body)
    && Lists(b.order, Collected(b.body.fx.events).Keys)
  }

  ghost predicate DerivesParams(p: Oracle, cx: Ctx, k: nat, ps: seq<Param>, ds: seq<Deriv>)
    ensures DerivesParams(p, cx, k, ps, ds) ==> |ps| == |ds|
    decreases ds, 1
  {
    |ps| == |ds| &&
    (ps != [] ==>
       var n := |ps| - 1;
       DerivesParams(p, cx, k, ps[..n], ds[..n]) &&
       DerivesOpt(p, cx, k, ps[n].default, ParamEnv(ps[..n], ds[..n]), ds[n]))
  }

  // ----- instance variables -----

  /** `ivar_ty`: Unknown while the class is under way, else what the class walk found, now or before. */
  ghost predicate ReadsIvar(p: Oracle, cx: Ctx, k: nat, n: Node, env: Env, d: Deriv)
    requires n.kind.IvarRead?
    decreases d, 7
  {
    if !cx.self.SInstance? then Leaf(d, Unknown, env, STILL)
    else
      IvarTyped(p, cx, k, cx.self.cls, n.kind.x, d.ty, d.walk) &&
      Leaf(d, d.ty, env, ClassLeak(p, d.walk))
  }

  ghost predicate IvarTyped(p: Oracle, cx: Ctx, k: nat, c: ClassId, x: string, ty: Ty, w: Walk)
    decreases w, 1
  {
    if c in cx.busy.classes then ty == Unknown && w.NoWalk?
    else w.Walk? && ClassWalk(p, c, w) && ty == Typed(IvarsOf(c, BodiesFx(p, w.cx, w.bodies).stores), x) &&
         (w.anew ==> w.cx == ClassCtx(cx, c) && w.left == k)
  }

  /** `walk_class_ivars`: every instance method of the class, in silence. */
  ghost predicate ClassWalk(p: Oracle, c: ClassId, w: Walk)
    requires w.Walk?
    decreases w, 0
  {
    && (exists cx :: w.cx == ClassCtx(cx, c))
    && DerivesBodies(p, w.cx, w.left, if c in p.classMethods then p.classMethods[c] else [], w.bodies)
  }

  ghost predicate DerivesBodies(p: Oracle, cx: Ctx, k: nat, ms: seq<MethodSig>, bs: seq<Body>)
    decreases bs
  {
    |ms| == |bs| &&
    (ms != [] ==>
       && (if ms[0].def.None? then bs[0].NoBody?
           else DerivesBody(p, cx.(casts := p.fileCasts(ms[0].file)), k, ms[0].def.value, bs[0]))
       && DerivesBodies(p, cx, k, ms[1..], bs[1..]))
  }

  function BodiesFx(p: Oracle, cx: Ctx, bs: seq<Body>): Fx
  {
    if bs == [] then STILL
    else Then(if bs[0].NoBody? then STILL else BodyFx(p, cx, bs[0]), BodiesFx(p, cx, bs[1..]))
  }

  /** A class walk opened here keeps what it stores; what its keyword defaults do otherwise is done to the walk in
      hand. */
  function ClassLeak(p: Oracle, w: Walk): Fx
  {
    if w.NoWalk? || !w.anew then STILL else BodiesFx(p, w.cx, w.bodies).(stores := [], diags := [])
  }

  // ----- a file -----

  datatype ItemDeriv =
    | OfDef(cx: Ctx, body: Body)
    | OfNode(deriv: Deriv)
    | OfScope(opens: seq<Diag>, items: seq<ItemDeriv>)

  /** `walk_scope` and `scope_stmt`: the statements of a file or class body in order. */
  ghost predicate DerivesItems(p: Oracle, cx: Ctx, k: nat, items: seq<Item>, at: Place, env: Env, ds: seq<ItemDeriv>)
    decreases ds, 0
  {
    |items| == |ds| &&
    (items != [] ==> DerivesItem(p, cx, k, items[0], at, env, ds[0]) &&
                     DerivesItems(p, cx, k, items[1..], at, ItemEnv(items[0], env, ds[0]), ds[1..]))
  }

  /** Where a statement stands: in which class, in `class << self`, below the top level. */
  datatype Place = Place(cls: Option<ClassId>, inSingleton: bool, nested: bool)

  ghost predicate DerivesItem(p: Oracle, cx: Ctx, k: nat, item: Item, at: Place, env: Env, d: ItemDeriv)
    decreases d, 1
  {
    match item
    case DefItem(def, ownSelf) =>
      d.OfDef? && d.cx == cx.(rebindable := 0, self := SelfOf(at.cls, at.inSingleton || ownSelf)) &&
      DerivesBody(p, d.cx, k, def, d.body)
    case ClassItem(cls, superclass, body, _) =>
      d.OfScope? && d.opens == SuperDiags(p, cx, superclass) &&
      DerivesItems(p, cx, k, body, Place(cls, false, true), map[], d.items)
    case SingletonItem(body) =>
      d.OfScope? && d.opens == [] && DerivesItems(p, cx, k, body, at.(inSingleton := true), env, d.items)
    case PlainItem(node) =>
      d.OfNode? && Derives(p, cx.(self := ScopeSelf(at)), k, node, env, d.deriv)
  }

  function ScopeSelf(at: Place): SelfTy { if at.cls.Some? && at.nested then SClass(at.cls.value) else SUnknown }

  function SuperDiags(p: Oracle, cx: Ctx, superclass: Option<(string, Span)>): seq<Diag> {
    if superclass.None? || cx.silent then []
    else ConstDiags(p, superclass.value.0, superclass.value.1, cx.guards, cx.rebindable)
  }

  /** Only plain statements and `class << self` share the locals of the scope around them. */
  function ItemEnv(item: Item, env: Env, d: ItemDeriv): Env
    decreases d, 1
  {
    match item
    case PlainItem(_) => if d.OfNode? then d.deriv.env else env
    case SingletonItem(body) => if d.OfScope? then ItemsEnv(body, env, d.items) else env
    case _ => env
  }

  function ItemsEnv(items: seq<Item>, env: Env, ds: seq<ItemDeriv>): Env
    decreases ds, 0
  {
    if items == [] || ds == [] then env else ItemsEnv(items[1..], ItemEnv(items[0], env, ds[0]), ds[1..])
  }

  function ItemFx(p: Oracle, d: ItemDeriv): Fx
    decreases d, 1
  {
    match d
    case OfDef(cx, b) => if b.Body? then BodyFx(p, cx, b) else STILL
    case OfNode(n) => n.fx
    case OfScope(opens, items) => Then(Raising(false, opens), ItemsFx(p, items))
  }

  function ItemsFx(p: Oracle, ds: seq<ItemDeriv>): Fx
    decreases ds, 0
  {
    if ds == [] then STILL else Then(ItemFx(p, ds[0]), ItemsFx(p, ds[1..]))
  }

  // ----- the state a walk runs on -----

  /** `constraints` and `returns`. */
  datatype Local = Local(constraints: map<string, seq<Use>>, returned: seq<Ty>)

  datatype Trail = Trail(local: Local, capture: Option<Capture>, diags: seq<Diag>)

  function Run(t: Trail, fx: Fx): Trail {
    Trail(Local(CollectFrom(t.local.constraints, fx.events), t.local.returned + fx.rets),
          Captured(t.capture, fx.stores), t.diags + fx.diags)
  }

  lemma RunThen(t: Trail, a: Fx, b: Fx)
    ensures Run(t, Then(a, b)) == Run(Run(t, a), b)
  {
    CollectThen(t.local.constraints, a.events, b.events);
    CapturedThen(t.capture, a.stores, b.stores);
  }

  /** A walk under a capture of its own: what it collects, and what is left once the capture in hand is back. */
  lemma RunCapturing(t: Trail, c: ClassId, fx: Fx, saved: Option<Capture>)
    requires t.capture == Some(Capture(c, map[]))
    ensures Run(t, fx).capture.Some? && FoldAll(Run(t, fx).capture.value.writes) == IvarsOf(c, fx.stores)
    ensures Run(t, fx).(capture := saved, diags := t.diags)
         == Run(t.(capture := saved), fx.(stores := [], diags := []))
  {
    CapturedKind(t.capture, fx.stores);
  }

  lemma RunStill(t: Trail)
    ensures Run(t, STILL) == t
  {}

  lemma RunRebinding(t: Trail, xs: seq<string>)
    ensures Run(t, Rebinding(xs)) ==
            t.(local := t.local.(constraints := CollectFrom(t.local.constraints, Rebounds(xs))))
  {}

  lemma RunReturning(t: Trail, ty: Ty)
    ensures Run(t, Returning(ty)) == t.(local := t.local.(returned := t.local.returned + [ty]))
  {}

  lemma RunStoring(t: Trail, stores: seq<Store>)
    ensures Run(t, Storing(stores)) == t.(capture := Captured(t.capture, stores))
  {}

  lemma RunRaising(t: Trail, silent: bool, ds: seq<Diag>)
    ensures Run(t, Raising(silent, ds)) == t.(diags := t.diags + if silent then [] else ds)
  {}

  /** What of a body's effect gets out once its returns and constraints are set aside. */
  lemma RunBodyOut(t: Trail, p: Oracle, cx: Ctx, d: Deriv, order: seq<string>)
    ensures Run(t, BodyOut(p, cx, d, order)) ==
            Trail(t.local, Captured(t.capture, d.fx.stores), t.diags + BodyOut(p, cx, d, order).diags)
  {}
}
