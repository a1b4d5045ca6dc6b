/** Flow-sensitive inference: `infer_expr_inner` over local-variable environments,
    narrowing facts, the diverging-branch shortcut and the branch join. */
module Flow {
  import opened Types
  import opened Ruby

  type Env = map<string, Ty>

  /** What the walk knows from outside: closed-world mode, the return type found for
      each call site, and the type of `self`. */
  datatype Context = Context(closed: bool, sigs: nat -> Ty, selfTy: Ty)

  datatype Infer = Infer(ty: Ty, env: Env, rets: seq<Ty>)

  datatype InferMany = InferMany(tys: seq<Ty>, env: Env, rets: seq<Ty>)

  datatype InferCase = InferCase(tys: seq<Ty>, envs: seq<Env>, env: Env, rets: seq<Ty>)

  // ----- narrowing -----

  datatype NarrowKind = IsAFact(ty: Ty) | NilCheck | Truth | NilCheckOrGuard

  datatype Narrow = Narrow(x: string, kind: NarrowKind)

  /** `core_const_ty` */
  function CoreConstTy(name: string): Option<Ty> {
    var n := TrimCbase(name);
    if n == "Integer" then Some(Int)
    else if n == "Float" then Some(Float)
    else if n == "String" then Some(Str)
    else if n == "Symbol" then Some(Sym)
    else if n == "NilClass" then Some(Nil)
    else if n == "TrueClass" || n == "FalseClass" then Some(Bool)
    else if n == "Array" then Some(Array(Unknown))
    else if n == "Hash" then Some(Hash(Unknown, Unknown))
    else None
  }

  /** The type a class test proves. Core classes count only in a closed world. */
  function TestedTy(c: Const, closed: bool): Option<Ty> {
    match c
    case Project(cls) => Some(Instance(cls))
    case Named(n) => if closed then CoreConstTy(n) else None
  }

  function NarrowOf(pred: Expr, closed: bool): Option<Narrow> {
    match pred
    case Or(l, r) =>
      var nl := NarrowOf(l, closed);
      if nl.Some? && nl.value.kind.NilCheck? then Some(Narrow(nl.value.x, NilCheckOrGuard))
      else
        var nr := NarrowOf(r, closed);
        if nr.Some? && nr.value.kind.NilCheck? then Some(Narrow(nr.value.x, NilCheckOrGuard)) else None
    case NilP(x) => Some(Narrow(x, NilCheck))
    case IsAP(x, c) =>
      var t := TestedTy(c, closed);
      if t.Some? then Some(Narrow(x, IsAFact(t.value))) else None
    case Read(x) => Some(Narrow(x, Truth))
    case _ => None
  }

  function Lookup(env: Env, x: string, default: Ty): Ty {
    if x in env then env[x] else default
  }

  /** `ty_class_eq`: same class, element types ignored. */
  predicate SameClass(a: Ty, b: Ty) {
    (a.Array? && b.Array?) || (a.Hash? && b.Hash?) || a == b
  }

  /** The members that are not of class `t`. Nil is the only type of its class, so
      `Without(parts, Nil)` is also the filter `strip_nil` uses. */
  function Without(parts: seq<Ty>, t: Ty): seq<Ty> {
    if parts == [] then []
    else (if SameClass(parts[0], t) then [] else [parts[0]]) + Without(parts[1..], t)
  }

  /** `strip_nil` */
  function StripNil(t: Ty): Ty {
    match t
    case Nil => Unknown
    case Union(parts) =>
      var rest := Without(parts, Nil);
      if rest == [] then Unknown else if |rest| == 1 then rest[0] else Union(rest)
    case _ => t
  }

  /** `eliminate_union_member` */
  function EliminateMember(cur: Ty, tested: Ty): Option<Ty> {
    if !cur.Union? || Unknown in cur.parts then None
    else if !exists i :: 0 <= i < |cur.parts| && SameClass(cur.parts[i], tested) then None
    else
      var rest := Without(cur.parts, tested);
      if rest == [] then None else if |rest| == 1 then Some(rest[0]) else Some(Union(rest))
  }

  function NarrowTrue(env: Env, nw: Narrow): Env {
    match nw.kind
    case IsAFact(t) => env[nw.x := t]
    case NilCheck => env[nw.x := Nil]
    case Truth => env[nw.x := StripNil(Lookup(env, nw.x, Unknown))]
    case NilCheckOrGuard => env
  }

  function NarrowFalse(env: Env, nw: Narrow): Env {
    match nw.kind
    case IsAFact(t) =>
      var less := EliminateMember(Lookup(env, nw.x, Unknown), t);
      if less.Some? then env[nw.x := less.value] else env
    case Truth => env
    case _ => env[nw.x := StripNil(Lookup(env, nw.x, Unknown))]
  }

  function WhenTrue(env: Env, nw: Option<Narrow>): (r: Env)
    ensures env.Keys <= r.Keys
  {
    if nw.Some? then NarrowTrue(env, nw.value) else env
  }

  function WhenFalse(env: Env, nw: Option<Narrow>): (r: Env)
    ensures env.Keys <= r.Keys
  {
    if nw.Some? then NarrowFalse(env, nw.value) else env
  }

  /** `stmts_diverge`: the last statement leaves the method. */
  predicate Diverges(body: seq<Expr>) {
    body != [] && (body[|body| - 1].Return? || body[|body| - 1].Raise? || body[|body| - 1].Jump?)
  }

  /** `if <fact>; leave; end` carries the negated fact on instead of joining. */
  predicate IfShortcut(pred: Expr, thn: seq<Expr>, els: Option<Expr>, closed: bool) {
    NarrowOf(pred, closed).Some? && Diverges(thn) && els.None?
  }

  /** The `unless` mirror, which leaves `is_a?` out. */
  predicate UnlessShortcut(pred: Expr, thn: seq<Expr>, els: Option<Expr>, closed: bool) {
    var nw := NarrowOf(pred, closed);
    nw.Some? && !nw.value.kind.IsAFact? && Diverges(thn) && els.None?
  }

  /** `narrow_of_when`: every condition must be a class constant. */
  function NarrowOfWhen(conds: seq<Expr>, closed: bool): Option<Ty> {
    if conds == [] then None
    else
      var last := conds[|conds| - 1];
      var t := if last.ConstRef? then TestedTy(last.c, closed) else None;
      if t.None? then None
      else if |conds| == 1 then t
      else
        var before := NarrowOfWhen(conds[..|conds| - 1], closed);
        if before.None? then None else Some(Join(before.value, t.value))
  }

  // ----- the branch join -----

  function BranchKeys(branches: seq<Env>): set<string> {
    if branches == [] then {} else branches[0].Keys + BranchKeys(branches[1..])
  }

  /** A variable missing from a branch keeps its value from before, or nil when new. */
  function BranchTy(base: Env, b: Env, x: string): Ty {
    Lookup(b, x, Lookup(base, x, Nil))
  }

  function BranchTys(base: Env, branches: seq<Env>, x: string): seq<Ty> {
    seq(|branches|, i requires 0 <= i < |branches| => BranchTy(base, branches[i], x))
  }

  function JoinedTy(base: Env, branches: seq<Env>, x: string): Ty
    requires branches != []
  {
    var tys := BranchTys(base, branches, x);
    JoinAll(tys[0], tys[1..])
  }

  /** `join_envs` */
  function JoinEnvs(base: Env, branches: seq<Env>): (r: Env)
    ensures r.Keys == base.Keys + BranchKeys(branches)
  {
    map x | x in base.Keys + BranchKeys(branches) ::
      if x in BranchKeys(branches) then assert branches != []; JoinedTy(base, branches, x) else base[x]
  }

  /** `merge_loop_env` */
  function MergeLoop(base: Env, body: Env): Env {
    map x | x in base.Keys + body.Keys ::
      if x !in body then base[x]
      else if x in base && base[x] == body[x] then base[x]
      else Join(Lookup(base, x, Nil), body[x])
  }

  // ----- inference -----

  function LastTy(tys: seq<Ty>): Ty {
    if tys == [] then Nil else tys[|tys| - 1]
  }

  function EveryOther(tys: seq<Ty>, odd: bool): seq<Ty> {
    if tys == [] then [] else (if odd then [] else [tys[0]]) + EveryOther(tys[1..], !odd)
  }

  function ElementTy(tys: seq<Ty>): Ty {
    if tys == [] then Unknown else JoinAll(tys[0], tys[1..])
  }

  /** `x.nil?` and `x.is_a?(C)` are core methods on a core receiver; on anything else
      the walk claims nothing here. */
  function TestTy(recv: Ty): Ty {
    match recv
    case Unknown => Unknown
    case Union(_) => Unknown
    case Instance(_) => Unknown
    case Class(_) => Unknown
    case _ => Bool
  }

  /** `infer_expr_inner`: the expression's type, the environment after it, and the types
      of the `return`s met on the way. */
  function InferExpr(cx: Context, e: Expr, env: Env): (r: Infer)
    ensures env.Keys <= r.env.Keys
    decreases e, 1
  {
    match e
    case IntLit(_) => Infer(Int, env, [])
    case FloatLit(_) => Infer(Float, env, [])
    case StrLit(_) => Infer(Str, env, [])
    case SymLit(_) => Infer(Sym, env, [])
    case BoolLit(_) => Infer(Bool, env, [])
    case NilLit => Infer(Nil, env, [])
    case SelfRef => Infer(cx.selfTy, env, [])
    case ConstRef(c) => Infer(if c.Project? then Class(c.cls) else Unknown, env, [])
    case ArrayLit(items, splat, _) =>
      var m := InferList(cx, items, env);
      Infer(Array(if splat then Unknown else ElementTy(m.tys)), m.env, m.rets)
    case HashLit(items, splat, _) =>
      var m := InferList(cx, items, env);
      Infer(if splat then Hash(Unknown, Unknown)
            else Hash(ElementTy(EveryOther(m.tys, false)), ElementTy(EveryOther(m.tys, true))),
            m.env, m.rets)
    case Read(x) => Infer(Lookup(env, x, Unknown), env, [])
    case Write(x, e1) =>
      var v := InferExpr(cx, e1, env);
      Infer(v.ty, v.env[x := v.ty], v.rets)
    case OrWrite(x, e1) =>
      var v := InferExpr(cx, e1, env);
      var joined := Join(Lookup(v.env, x, Nil), v.ty);
      Infer(joined, v.env[x := joined], v.rets)
    case AndWrite(x, e1) =>
      var v := InferExpr(cx, e1, env);
      Infer(Unknown, v.env[x := Unknown], v.rets)
    case OpWrite(x, e1, _) =>
      var v := InferExpr(cx, e1, env);
      Infer(Unknown, v.env[x := Unknown], v.rets)
    case If(pred, thn, els) =>
      var p := InferExpr(cx, pred, env);
      var nw := NarrowOf(pred, cx.closed);
      var t := InferList(cx, thn, WhenTrue(p.env, nw));
      var f := InferOpt(cx, els, WhenFalse(p.env, nw));
      Infer(Join(LastTy(t.tys), f.ty),
            if IfShortcut(pred, thn, els, cx.closed) then f.env else JoinEnvs(p.env, [t.env, f.env]),
            p.rets + t.rets + f.rets)
    case Unless(pred, thn, els) =>
      var p := InferExpr(cx, pred, env);
      var nw := NarrowOf(pred, cx.closed);
      var t := InferList(cx, thn, WhenFalse(p.env, nw));
      var f := InferOpt(cx, els, WhenTrue(p.env, nw));
      Infer(Join(LastTy(t.tys), f.ty),
            if UnlessShortcut(pred, thn, els, cx.closed) then f.env else JoinEnvs(p.env, [t.env, f.env]),
            p.rets + t.rets + f.rets)
    case Case(subject, whens, els) =>
      var p := InferOpt(cx, subject, env);
      var c := InferWhens(cx, whens, SubjectVar(subject), p.env);
      var f := InferOpt(cx, els, c.env);
      Infer(Join(if c.tys == [] then Nil else JoinAll(c.tys[0], c.tys[1..]), f.ty),
            JoinEnvs(c.env, c.envs + [f.env]),
            p.rets + c.rets + f.rets)
    case And(l, r) =>
      var a := InferExpr(cx, l, env);
      var b := InferExpr(cx, r, a.env);
      Infer(Join(a.ty, b.ty), b.env, a.rets + b.rets)
    case Or(l, r) =>
      var a := InferExpr(cx, l, env);
      var b := InferExpr(cx, r, a.env);
      Infer(Join(a.ty, b.ty), b.env, a.rets + b.rets)
    case Stmts(body) =>
      var m := InferList(cx, body, env);
      Infer(LastTy(m.tys), m.env, m.rets)
    case Return(args) =>
      var m := InferList(cx, args, env);
      Infer(Unknown, m.env,
            m.rets + [if m.tys == [] then Nil else if |m.tys| == 1 then m.tys[0] else Array(Unknown)])
    case DefinedP(_) => Infer(Union([Str, Nil]), env, [])
    case NilP(x) => Infer(TestTy(Lookup(env, x, Unknown)), env, [])
    case IsAP(x, _) => Infer(TestTy(Lookup(env, x, Unknown)), env, [])
    case Jump => Infer(Unknown, env, [])
    case Raise(args) =>
      var m := InferList(cx, args, env);
      Infer(Unknown, m.env, m.rets)
    case Call(recv, args, id) =>
      var p := InferOpt(cx, recv, env);
      var m := InferList(cx, args, p.env);
      Infer(cx.sigs(id), m.env, p.rets + m.rets)
  }

  function SubjectVar(subject: Option<Expr>): Option<string> {
    if subject.Some? && subject.value.Read? then Some(subject.value.x) else None
  }

  function InferOpt(cx: Context, e: Option<Expr>, env: Env): (r: Infer)
    ensures env.Keys <= r.env.Keys
    decreases e, 1
  {
    if e.Some? then InferExpr(cx, e.value, env) else Infer(Nil, env, [])
  }

  function InferList(cx: Context, es: seq<Expr>, env: Env): (r: InferMany)
    ensures env.Keys <= r.env.Keys && |r.tys| == |es|
    decreases es, 0
  {
    if es == [] then InferMany([], env, [])
    else
      var h := InferExpr(cx, es[0], env);
      var t := InferList(cx, es[1..], h.env);
      InferMany([h.ty] + t.tys, t.env, h.rets + t.rets)
  }

  /** The `when` clauses in order. Conditions run in the shared environment; each body
      starts from a copy of it with the subject narrowed. */
  function InferWhens(cx: Context, whens: seq<When>, subject: Option<string>, env: Env): (r: InferCase)
    ensures |r.tys| == |r.envs| == |whens|
    ensures env.Keys <= r.env.Keys
    ensures forall i :: 0 <= i < |r.envs| ==> env.Keys <= r.envs[i].Keys
    decreases whens, 0
  {
    if whens == [] then InferCase([], [], env, [])
    else
      var c := InferList(cx, whens[0].conds, env);
      var nt := NarrowOfWhen(whens[0].conds, cx.closed);
      var b := InferList(cx, whens[0].body, BranchStart(c.env, subject, nt));
      var rest := InferWhens(cx, whens[1..], subject, c.env);
      InferCase([LastTy(b.tys)] + rest.tys, [b.env] + rest.envs, rest.env, c.rets + b.rets + rest.rets)
  }

  function BranchStart(env: Env, subject: Option<string>, narrowed: Option<Ty>): (r: Env)
    ensures env.Keys <= r.Keys
  {
    if subject.Some? && narrowed.Some? then env[subject.value := narrowed.value] else env
  }

  /** `check_method_body`: the last value's type joined with every `return`'s. */
  function MethodReturn(cx: Context, body: Option<Expr>, params: Env): Ty {
    var r := InferOpt(cx, body, params);
    JoinAll(r.ty, r.rets)
  }
}
