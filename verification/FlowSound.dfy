/** Every run of the loop-free fragment stays inside what the flow analysis infers. */
module FlowSound {
  import opened Types
  import opened Ruby
  import opened Flow

  /** A store fits an environment: a known variable holds a value of its type and an
      unknown one is still unset. */
  ghost predicate Fits(w: World, s: Store, env: Env) {
    && (forall x :: x in env ==> Has(w, Get(s, x), env[x]))
    && (forall x :: x !in env ==> Get(s, x) == VNil)
  }

  /** The call results and `self` are as the context says. */
  ghost predicate Honest(rt: Runtime, cx: Context) {
    && Has(rt.w, rt.self, cx.selfTy)
    && forall id :: rt.call(id).Some? ==> Has(rt.w, rt.call(id).value, cx.sigs(id))
  }

  // ----- the fragment -----

  /** No assignment anywhere inside and no guard clause whose fact would outlive it: code
      the walk may visit although the run skips it. */
  predicate Passive(e: Expr, closed: bool)
    decreases e, 1
  {
    match e
    case Write(_, _) => false
    case OrWrite(_, _) => false
    case AndWrite(_, _) => false
    case OpWrite(_, _, _) => false
    case ArrayLit(items, _, _) => AllPassive(items, closed)
    case HashLit(items, _, _) => AllPassive(items, closed)
    case If(p, thn, els) =>
      !IfShortcut(p, thn, els, closed) && Passive(p, closed) && AllPassive(thn, closed) && OptPassive(els, closed)
    case Unless(p, thn, els) =>
      !UnlessShortcut(p, thn, els, closed) && Passive(p, closed) && AllPassive(thn, closed) && OptPassive(els, closed)
    case Case(subject, whens, els) =>
      OptPassive(subject, closed) && WhensPassive(whens, closed) && OptPassive(els, closed)
    case And(l, r) => Passive(l, closed) && Passive(r, closed)
    case Or(l, r) => Passive(l, closed) && Passive(r, closed)
    case Stmts(body) => AllPassive(body, closed)
    case Return(args) => AllPassive(args, closed)
    case Raise(args) => AllPassive(args, closed)
    case Call(recv, args, _) => OptPassive(recv, closed) && AllPassive(args, closed)
    case _ => true
  }

  predicate OptPassive(e: Option<Expr>, closed: bool)
    decreases e, 1
  {
    e.Some? ==> Passive(e.value, closed)
  }

  predicate AllPassive(es: seq<Expr>, closed: bool)
    decreases es, 0
  {
    es == [] || (Passive(es[0], closed) && AllPassive(es[1..], closed))
  }

  predicate WhensPassive(whens: seq<When>, closed: bool)
    decreases whens, 0
  {
    whens == [] ||
    (AllPassive(whens[0].conds, closed) && AllPassive(whens[0].body, closed) && WhensPassive(whens[1..], closed))
  }

  /** `is_a?(TrueClass)` and `is_a?(FalseClass)` both test for `Bool`, which neither of
      them exhausts: a predicate that narrows by one is outside the fragment. */
  predicate FairTest(pred: Expr, closed: bool) {
    var nw := NarrowOf(pred, closed);
    nw.Some? && nw.value.kind.IsAFact? ==> nw.value.kind.ty != Bool
  }

  /** The fragment: what may be skipped at run time is passive, class tests are fair. */
  predicate Covered(e: Expr, closed: bool)
    decreases e, 1
  {
    match e
    case ArrayLit(items, _, _) => AllCovered(items, closed)
    case HashLit(items, splat, _) => AllCovered(items, closed) && (!splat ==> |items| % 2 == 0)
    case Write(_, e1) => Covered(e1, closed)
    case OrWrite(_, e1) => Covered(e1, closed) && Passive(e1, closed)
    case AndWrite(_, e1) => Covered(e1, closed) && Passive(e1, closed)
    case OpWrite(_, e1, _) => Covered(e1, closed)
    case If(p, thn, els) =>
      FairTest(p, closed) && Covered(p, closed) && AllCovered(thn, closed) && OptCovered(els, closed)
    case Unless(p, thn, els) =>
      FairTest(p, closed) && Covered(p, closed) && AllCovered(thn, closed) && OptCovered(els, closed)
    case Case(subject, whens, els) =>
      OptCovered(subject, closed) && WhensCovered(whens, closed) && OptCovered(els, closed)
    case And(l, r) => Covered(l, closed) && Covered(r, closed) && Passive(r, closed)
    case Or(l, r) => Covered(l, closed) && Covered(r, closed) && Passive(r, closed)
    case Stmts(body) => AllCovered(body, closed)
    case Return(args) => AllCovered(args, closed)
    case Raise(args) => AllCovered(args, closed)
    case Call(recv, args, _) => OptCovered(recv, closed) && AllCovered(args, closed)
    case _ => true
  }

  predicate OptCovered(e: Option<Expr>, closed: bool)
    decreases e, 1
  {
    e.Some? ==> Covered(e.value, closed)
  }

  predicate AllCovered(es: seq<Expr>, closed: bool)
    decreases es, 0
  {
    es == [] || (Covered(es[0], closed) && AllCovered(es[1..], closed))
  }

  predicate WhensCovered(whens: seq<When>, closed: bool)
    decreases whens, 0
  {
    whens == [] ||
    (AllCovered(whens[0].conds, closed) && AllPassive(whens[0].conds, closed) &&
     AllCovered(whens[0].body, closed) && WhensCovered(whens[1..], closed))
  }

  // ----- narrowing is sound -----

  lemma {:induction false} WithoutKeeps(w: World, v: Value, parts: seq<Ty>, t: Ty, i: nat)
    requires i < |parts| && Has(w, v, parts[i]) && !SameClass(parts[i], t)
    ensures exists j :: 0 <= j < |Without(parts, t)| && Has(w, v, Without(parts, t)[j])
  {
    var rest := Without(parts[1..], t);
    if i == 0 {
      assert Has(w, v, Without(parts, t)[0]);
    } else {
      WithoutKeeps(w, v, parts[1..], t, i - 1);
      var j :| 0 <= j < |rest| && Has(w, v, rest[j]);
      assert Without(parts, t)[|Without(parts, t)| - |rest| + j] == rest[j];
    }
  }

  /** Stripping nil loses nothing but nil. */
  lemma {:induction false} StripNilKeeps(w: World, v: Value, t: Ty)
    requires Has(w, v, t) && v != VNil
    ensures Has(w, v, StripNil(t))
  {
    if t.Union? {
      var i :| 0 <= i < |t.parts| && Has(w, v, t.parts[i]);
      WithoutKeeps(w, v, t.parts, Nil, i);
    }
  }

  /** A type of the tested class holds only values the class test accepts, unless the
      test is for one half of Bool. */
  lemma SameClassAccepted(rt: Runtime, v: Value, t: Ty, c: Const, closed: bool)
    requires TestedTy(c, closed).Some? && TestedTy(c, closed).value != Bool
    requires SameClass(t, TestedTy(c, closed).value) && Has(rt.w, v, t)
    ensures IsA(rt, v, c)
  {}

  /** A value that fails the class test survives the elimination, provided the tested
      type is exactly what the class test accepts. */
  lemma {:induction false} EliminateKeeps(rt: Runtime, v: Value, cur: Ty, c: Const, closed: bool)
    requires TestedTy(c, closed).Some? && TestedTy(c, closed).value != Bool
    requires Has(rt.w, v, cur) && !IsA(rt, v, c)
    requires EliminateMember(cur, TestedTy(c, closed).value).Some?
    ensures Has(rt.w, v, EliminateMember(cur, TestedTy(c, closed).value).value)
  {
    var tested := TestedTy(c, closed).value;
    var i :| 0 <= i < |cur.parts| && Has(rt.w, v, cur.parts[i]);
    if SameClass(cur.parts[i], tested) { SameClassAccepted(rt, v, cur.parts[i], c, closed); }
    WithoutKeeps(rt.w, v, cur.parts, tested, i);
  }

  /** The two class names whose test proves less than the type it is mapped to. */
  predicate HalfOfBool(c: Const) {
    c.Named? && (TrimCbase(c.name) == "TrueClass" || TrimCbase(c.name) == "FalseClass")
  }

  ghost predicate EliminationSound(c: Const, cur: Ty, rt: Runtime, v: Value) {
    var t := TestedTy(c, true);
    t.Some? && EliminateMember(cur, t.value).Some? && Has(rt.w, v, cur) && !IsA(rt, v, c) ==>
      Has(rt.w, v, EliminateMember(cur, t.value).value)
  }

  /** `x.is_a?(TrueClass)` failing on `false` drops Bool from `bool | String`. */
  lemma HalfOfBoolDropsTooMuch(c: Const) returns (cur: Ty, rt: Runtime, v: Value)
    requires HalfOfBool(c)
    ensures !EliminationSound(c, cur, rt, v)
  {
    rt := Runtime(World(map[]), VNil, _ => None, _ => VNil, (_, _) => false, _ => None, (_, _) => false);
    v := VBool(TrimCbase(c.name) == "FalseClass");
    cur := Union([Bool, Str]);
    assert Has(rt.w, v, cur.parts[0]);
    assert cur.parts[1..] == [Str] && Without([Str], Bool) == [Str];
    assert EliminateMember(cur, Bool) == Some(Str);
  }

  /** In a closed world, dropping the tested member in the false branch is sound for
      every type and value exactly when the class is not one of Bool's two halves. */
  lemma EliminationSoundIff(c: Const)
    ensures (forall cur, rt, v :: EliminationSound(c, cur, rt, v)) <==> !HalfOfBool(c)
  {
    if HalfOfBool(c) {
      var cur, rt, v := HalfOfBoolDropsTooMuch(c);
    } else {
      forall cur, rt, v ensures EliminationSound(c, cur, rt, v) {
        var t := TestedTy(c, true);
        if t.Some? && EliminateMember(cur, t.value).Some? && Has(rt.w, v, cur) && !IsA(rt, v, c) {
          EliminateKeeps(rt, v, cur, c, true);
        }
      }
    }
  }

  /** What the true (false) branch of a narrowing predicate knows about the store. */
  ghost predicate FactTrue(rt: Runtime, nw: Narrow, s: Store) {
    match nw.kind
    case IsAFact(t) => Has(rt.w, Get(s, nw.x), t)
    case NilCheck => Get(s, nw.x) == VNil
    case Truth => Get(s, nw.x) != VNil
    case NilCheckOrGuard => true
  }

  ghost predicate FactFalse(rt: Runtime, nw: Narrow, s: Store) {
    match nw.kind
    case IsAFact(t) =>
      forall cur :: Has(rt.w, Get(s, nw.x), cur) && EliminateMember(cur, t).Some? ==>
        Has(rt.w, Get(s, nw.x), EliminateMember(cur, t).value)
    case Truth => true
    case _ => Get(s, nw.x) != VNil
  }

  lemma NarrowTrueFits(rt: Runtime, nw: Narrow, s: Store, env: Env)
    requires Fits(rt.w, s, env) && FactTrue(rt, nw, s)
    ensures Fits(rt.w, s, NarrowTrue(env, nw))
  {
    if nw.kind.Truth? { StripNilKeeps(rt.w, Get(s, nw.x), Lookup(env, nw.x, Unknown)); }
  }

  lemma NarrowFalseFits(rt: Runtime, nw: Narrow, s: Store, env: Env)
    requires Fits(rt.w, s, env) && FactFalse(rt, nw, s)
    ensures Fits(rt.w, s, NarrowFalse(env, nw))
  {
    if nw.kind.NilCheck? || nw.kind.NilCheckOrGuard? {
      StripNilKeeps(rt.w, Get(s, nw.x), Lookup(env, nw.x, Unknown));
    }
  }

  /** Evaluated or not, at least one side of a fair predicate is true of the store. */
  lemma OneSideHolds(rt: Runtime, pred: Expr, closed: bool, s: Store)
    requires FairTest(pred, closed) && NarrowOf(pred, closed).Some?
    ensures FactTrue(rt, NarrowOf(pred, closed).value, s) || FactFalse(rt, NarrowOf(pred, closed).value, s)
  {
    if pred.IsAP? { TestDecides(rt, pred.c, closed, pred.x, s); }
  }

  lemma TestDecides(rt: Runtime, c: Const, closed: bool, x: string, s: Store)
    requires TestedTy(c, closed).Some?
    ensures IsA(rt, Get(s, x), c) ==> FactTrue(rt, Narrow(x, IsAFact(TestedTy(c, closed).value)), s)
    ensures !IsA(rt, Get(s, x), c) && TestedTy(c, closed).value != Bool ==>
            FactFalse(rt, Narrow(x, IsAFact(TestedTy(c, closed).value)), s)
  {
    if !IsA(rt, Get(s, x), c) && TestedTy(c, closed).value != Bool {
      forall cur | Has(rt.w, Get(s, x), cur) && EliminateMember(cur, TestedTy(c, closed).value).Some?
        ensures Has(rt.w, Get(s, x), EliminateMember(cur, TestedTy(c, closed).value).value)
      {
        EliminateKeeps(rt, Get(s, x), cur, c, closed);
      }
    }
  }

  /** A predicate that came out truthy (falsy) leaves a store where its fact holds. */
  lemma {:induction false} PredicateDecides(rt: Runtime, pred: Expr, closed: bool, s: Store)
    requires Covered(pred, closed) && FairTest(pred, closed) && NarrowOf(pred, closed).Some?
    requires Eval(rt, pred, s).Normal?
    ensures var o := Eval(rt, pred, s); var nw := NarrowOf(pred, closed).value;
            if Truthy(o.v) then FactTrue(rt, nw, o.s) else FactFalse(rt, nw, o.s)
  {
    if pred.IsAP? {
      TestDecides(rt, pred.c, closed, pred.x, s);
    } else if pred.Or? {
      var left := Eval(rt, pred.l, s);
      PassiveStays(rt, pred.r, closed, left.s);
    }
  }

  // ----- passive code -----

  lemma {:induction false} PassiveStays(rt: Runtime, e: Expr, closed: bool, s: Store)
    requires Passive(e, closed)
    ensures Eval(rt, e, s).Normal? ==> Eval(rt, e, s).s == s
    decreases e, 1
  {
    if e.ArrayLit? || e.HashLit? {
      AllPassiveStays(rt, e.items, closed, s);
    } else if e.If? || e.Unless? || e.Case? {
      PassiveBranchStays(rt, e, closed, s);
    } else if e.And? || e.Or? {
      PassiveStays(rt, e.l, closed, s);
      PassiveStays(rt, e.r, closed, s);
    } else if e.Stmts? {
      AllPassiveStays(rt, e.body, closed, s);
    } else if e.Return? || e.Raise? {
      AllPassiveStays(rt, e.args, closed, s);
    } else if e.Call? {
      OptPassiveStays(rt, e.recv, closed, s);
      AllPassiveStays(rt, e.args, closed, s);
    }
  }

  lemma {:induction false} PassiveBranchStays(rt: Runtime, e: Expr, closed: bool, s: Store)
    requires Passive(e, closed) && (e.If? || e.Unless? || e.Case?)
    ensures Eval(rt, e, s).Normal? ==> Eval(rt, e, s).s == s
    decreases e, 0
  {
    OptPassiveStays(rt, e.els, closed, s);
    if e.Case? {
      OptPassiveStays(rt, e.subject, closed, s);
      var o := EvalOpt(rt, e.subject, s);
      if o.Normal? { WhensPassiveStay(rt, e.whens, closed, if e.subject.Some? then Some(o.v) else None, s); }
    } else {
      PassiveStays(rt, e.pred, closed, s);
      AllPassiveStays(rt, e.thn, closed, s);
    }
  }

  lemma {:induction false} OptPassiveStays(rt: Runtime, e: Option<Expr>, closed: bool, s: Store)
    requires OptPassive(e, closed)
    ensures EvalOpt(rt, e, s).Normal? ==> EvalOpt(rt, e, s).s == s
    decreases e, 1
  {
    if e.Some? { PassiveStays(rt, e.value, closed, s); }
  }

  lemma {:induction false} AllPassiveStays(rt: Runtime, es: seq<Expr>, closed: bool, s: Store)
    requires AllPassive(es, closed)
    ensures EvalList(rt, es, s).Vals? ==> EvalList(rt, es, s).s == s
    decreases es, 0
  {
    if es != [] {
      PassiveStays(rt, es[0], closed, s);
      AllPassiveStays(rt, es[1..], closed, s);
    }
  }

  lemma {:induction false} CondsPassiveStay(rt: Runtime, conds: seq<Expr>, closed: bool, v: Option<Value>, s: Store)
    requires AllPassive(conds, closed)
    ensures EvalConds(rt, conds, v, s).Matched? ==> EvalConds(rt, conds, v, s).s == s
    ensures EvalConds(rt, conds, v, s).NoMatch? ==> EvalConds(rt, conds, v, s).s == s
    decreases conds, 0
  {
    if conds != [] {
      PassiveStays(rt, conds[0], closed, s);
      CondsPassiveStay(rt, conds[1..], closed, v, s);
    }
  }

  lemma {:induction false} WhensPassiveStay(rt: Runtime, whens: seq<When>, closed: bool, v: Option<Value>, s: Store)
    requires WhensPassive(whens, closed)
    ensures var r := EvalWhens(rt, whens, v, s);
            (r.Fell? ==> r.s == s) && (r.Took? && r.out.Normal? ==> r.out.s == s)
    decreases whens, 0
  {
    if whens != [] {
      CondsPassiveStay(rt, whens[0].conds, closed, v, s);
      AllPassiveStays(rt, whens[0].body, closed, s);
      WhensPassiveStay(rt, whens[1..], closed, v, s);
    }
  }

  // ----- joins -----

  lemma {:induction false} BranchKeysAt(branches: seq<Env>, i: nat)
    requires i < |branches|
    ensures branches[i].Keys <= BranchKeys(branches)
  {
    if i > 0 { BranchKeysAt(branches[1..], i - 1); }
  }

  lemma JoinedTyHas(w: World, v: Value, base: Env, branches: seq<Env>, x: string, i: nat)
    requires i < |branches| && Has(w, v, BranchTy(base, branches[i], x))
    ensures Has(w, v, JoinedTy(base, branches, x))
  {
    var tys := BranchTys(base, branches, x);
    JoinAllMeaning(w, v, tys[0], tys[1..]);
    if i > 0 { assert tys[1..][i - 1] == tys[i]; }
  }

  /** A store that fits one branch fits the join, when whatever the branch does not know
      the base allows to be nil. */
  lemma JoinFits(w: World, s: Store, base: Env, branches: seq<Env>, i: nat)
    requires i < |branches| && Fits(w, s, branches[i])
    requires forall x :: x in base && x !in branches[i] ==> Has(w, VNil, base[x])
    ensures Fits(w, s, JoinEnvs(base, branches))
  {
    BranchKeysAt(branches, i);
    var joined := JoinEnvs(base, branches);
    forall x | x in joined ensures Has(w, Get(s, x), joined[x]) {
      if x in BranchKeys(branches) { JoinedTyHas(w, Get(s, x), base, branches, x, i); }
    }
  }

  /** `merge_loop_env` covers a body that ran not at all or once. */
  lemma MergeLoopFits(w: World, s: Store, base: Env, body: Env)
    requires base.Keys <= body.Keys
    requires Fits(w, s, base) || Fits(w, s, body)
    ensures Fits(w, s, MergeLoop(base, body))
  {
    var merged := MergeLoop(base, body);
    forall x | x in merged ensures Has(w, Get(s, x), merged[x]) {
      JoinMeaning(w, Get(s, x), Lookup(base, x, Nil), body[x]);
    }
  }

  /** Code the run skipped: whatever store fitted before still fits the environment the
      walk leaves behind. */
  lemma {:induction false} PassiveWidens(rt: Runtime, cx: Context, e: Expr, env: Env, s: Store)
    requires Passive(e, cx.closed) && Covered(e, cx.closed) && Fits(rt.w, s, env)
    ensures Fits(rt.w, s, InferExpr(cx, e, env).env)
    decreases e, 1
  {
    if e.ArrayLit? || e.HashLit? {
      AllPassiveWiden(rt, cx, e.items, env, s);
    } else if e.If? || e.Unless? {
      PassiveWidensBranch(rt, cx, e, env, s);
    } else if e.Case? {
      PassiveWidensCase(rt, cx, e, env, s);
    } else {
      PassiveWidensRow(rt, cx, e, env, s);
    }
  }

  /** The forms that walk their parts one after the other. */
  lemma {:induction false} PassiveWidensRow(rt: Runtime, cx: Context, e: Expr, env: Env, s: Store)
    requires Passive(e, cx.closed) && Covered(e, cx.closed) && Fits(rt.w, s, env)
    requires !e.ArrayLit? && !e.HashLit? && !e.If? && !e.Unless? && !e.Case?
    ensures Fits(rt.w, s, InferExpr(cx, e, env).env)
    decreases e, 0, 1
  {
    if e.And? || e.Or? {
      PassiveWidens(rt, cx, e.l, env, s);
      PassiveWidens(rt, cx, e.r, InferExpr(cx, e.l, env).env, s);
    } else if e.Stmts? {
      AllPassiveWiden(rt, cx, e.body, env, s);
    } else if e.Return? || e.Raise? {
      AllPassiveWiden(rt, cx, e.args, env, s);
    } else if e.Call? {
      OptPassiveWidens(rt, cx, e.recv, env, s);
      AllPassiveWiden(rt, cx, e.args, InferOpt(cx, e.recv, env).env, s);
    }
  }

  lemma {:induction false} PassiveWidensBranch(rt: Runtime, cx: Context, e: Expr, env: Env, s: Store)
    requires (e.If? || e.Unless?) && Passive(e, cx.closed) && Covered(e, cx.closed) && Fits(rt.w, s, env)
    ensures Fits(rt.w, s, InferExpr(cx, e, env).env)
    decreases e, 0, 1
  {
    PassiveWidens(rt, cx, e.pred, env, s);
    var p := InferExpr(cx, e.pred, env).env;
    var nw := NarrowOf(e.pred, cx.closed);
    OneSideFits(rt, e.pred, cx.closed, p, s);
    if e.If? {
      PassiveBranches(rt, cx, e, WhenTrue(p, nw), WhenFalse(p, nw), p, s);
    } else {
      PassiveBranches(rt, cx, e, WhenFalse(p, nw), WhenTrue(p, nw), p, s);
    }
  }

  lemma {:induction false} PassiveWidensCase(rt: Runtime, cx: Context, e: Expr, env: Env, s: Store)
    requires e.Case? && Passive(e, cx.closed) && Covered(e, cx.closed) && Fits(rt.w, s, env)
    ensures Fits(rt.w, s, InferExpr(cx, e, env).env)
    decreases e, 0
  {
    OptPassiveWidens(rt, cx, e.subject, env, s);
    var p := InferOpt(cx, e.subject, env).env;
    WhensPassiveWiden(rt, cx, e.whens, SubjectVar(e.subject), p, s);
    var c := InferWhens(cx, e.whens, SubjectVar(e.subject), p);
    OptPassiveWidens(rt, cx, e.els, c.env, s);
    var branches := c.envs + [InferOpt(cx, e.els, c.env).env];
    JoinFits(rt.w, s, c.env, branches, |branches| - 1);
  }

  lemma OneSideFits(rt: Runtime, pred: Expr, closed: bool, base: Env, s: Store)
    requires FairTest(pred, closed) && Fits(rt.w, s, base)
    ensures var n := NarrowOf(pred, closed); Fits(rt.w, s, WhenTrue(base, n)) || Fits(rt.w, s, WhenFalse(base, n))
  {
    var nw := NarrowOf(pred, closed);
    if nw.Some? {
      OneSideHolds(rt, pred, closed, s);
      if FactTrue(rt, nw.value, s) {
        NarrowTrueFits(rt, nw.value, s, base);
      } else {
        NarrowFalseFits(rt, nw.value, s, base);
      }
    }
  }

  /** The two bodies of a skipped `if`/`unless`: one of them starts from an environment
      the store fits. */
  lemma {:induction false} PassiveBranches(rt: Runtime, cx: Context, e: Expr, thnEnv: Env, elsEnv: Env, base: Env,
                                           s: Store)
    requires e.If? || e.Unless?
    requires AllPassive(e.thn, cx.closed) && AllCovered(e.thn, cx.closed)
    requires OptPassive(e.els, cx.closed) && OptCovered(e.els, cx.closed)
    requires Fits(rt.w, s, thnEnv) || Fits(rt.w, s, elsEnv)
    requires base.Keys <= thnEnv.Keys && base.Keys <= elsEnv.Keys
    ensures Fits(rt.w, s, JoinEnvs(base, [InferList(cx, e.thn, thnEnv).env, InferOpt(cx, e.els, elsEnv).env]))
    decreases e, 0, 0
  {
    var branches := [InferList(cx, e.thn, thnEnv).env, InferOpt(cx, e.els, elsEnv).env];
    if Fits(rt.w, s, thnEnv) {
      AllPassiveWiden(rt, cx, e.thn, thnEnv, s);
      JoinFits(rt.w, s, base, branches, 0);
    } else {
      OptPassiveWidens(rt, cx, e.els, elsEnv, s);
      JoinFits(rt.w, s, base, branches, 1);
    }
  }

  lemma {:induction false} OptPassiveWidens(rt: Runtime, cx: Context, e: Option<Expr>, env: Env, s: Store)
    requires OptPassive(e, cx.closed) && OptCovered(e, cx.closed) && Fits(rt.w, s, env)
    ensures Fits(rt.w, s, InferOpt(cx, e, env).env)
    decreases e, 1
  {
    if e.Some? { PassiveWidens(rt, cx, e.value, env, s); }
  }

  lemma {:induction false} AllPassiveWiden(rt: Runtime, cx: Context, es: seq<Expr>, env: Env, s: Store)
    requires AllPassive(es, cx.closed) && AllCovered(es, cx.closed) && Fits(rt.w, s, env)
    ensures Fits(rt.w, s, InferList(cx, es, env).env)
    decreases es, 0
  {
    if es != [] {
      PassiveWidens(rt, cx, es[0], env, s);
      AllPassiveWiden(rt, cx, es[1..], InferExpr(cx, es[0], env).env, s);
    }
  }

  lemma {:induction false} WhensPassiveWiden(rt: Runtime, cx: Context, whens: seq<When>, x: Option<string>, env: Env,
                                             s: Store)
    requires WhensPassive(whens, cx.closed) && WhensCovered(whens, cx.closed) && Fits(rt.w, s, env)
    ensures Fits(rt.w, s, InferWhens(cx, whens, x, env).env)
    decreases whens, 0
  {
    if whens != [] {
      AllPassiveWiden(rt, cx, whens[0].conds, env, s);
      WhensPassiveWiden(rt, cx, whens[1..], x, InferList(cx, whens[0].conds, env).env, s);
    }
  }

  // ----- soundness -----

  ghost predicate ReturnTyped(w: World, v: Value, rets: seq<Ty>) {
    exists i :: 0 <= i < |rets| && Has(w, v, rets[i])
  }

  lemma ReturnTypedConcat(w: World, v: Value, a: seq<Ty>, b: seq<Ty>)
    ensures ReturnTyped(w, v, a + b) <==> ReturnTyped(w, v, a) || ReturnTyped(w, v, b)
  {
    if i :| 0 <= i < |a| && Has(w, v, a[i]) { assert (a + b)[i] == a[i]; }
    if i :| 0 <= i < |b| && Has(w, v, b[i]) { assert (a + b)[|a| + i] == b[i]; }
  }

  lemma ReturnTypedThree(w: World, v: Value, a: seq<Ty>, b: seq<Ty>, c: seq<Ty>)
    ensures ReturnTyped(w, v, a + b + c) <==> ReturnTyped(w, v, a) || ReturnTyped(w, v, b) || ReturnTyped(w, v, c)
  {
    ReturnTypedConcat(w, v, a + b, c);
    ReturnTypedConcat(w, v, a, b);
  }

  /** What inference promises about one run of an expression. */
  ghost predicate Promised(w: World, o: Outcome, ty: Ty, env: Env, rets: seq<Ty>) {
    match o
    case Normal(v, s) => Has(w, v, ty) && Fits(w, s, env)
    case Returned(v) => ReturnTyped(w, v, rets)
    case Raised => true
  }

  ghost predicate PromisedList(w: World, o: ListOutcome, r: InferMany) {
    match o
    case Vals(vs, s) => |vs| == |r.tys| && (forall i :: 0 <= i < |vs| ==> Has(w, vs[i], r.tys[i])) && Fits(w, s, r.env)
    case Stop(out) => out.Returned? ==> ReturnTyped(w, out.v, r.rets)
  }

  ghost predicate Ready(rt: Runtime, cx: Context, env: Env, s: Store) {
    Honest(rt, cx) && Fits(rt.w, s, env)
  }

  lemma ElementsTyped(w: World, vs: seq<Value>, tys: seq<Ty>)
    requires |vs| == |tys| && forall i :: 0 <= i < |vs| ==> Has(w, vs[i], tys[i])
    ensures Has(w, VArray(vs), Array(ElementTy(tys)))
  {
    forall i | 0 <= i < |vs| ensures Has(w, vs[i], ElementTy(tys)) {
      JoinAllMeaning(w, vs[i], tys[0], tys[1..]);
      if i > 0 { assert tys[1..][i - 1] == tys[i]; }
    }
  }

  lemma {:induction false} EveryOtherAt(tys: seq<Ty>, odd: bool, i: nat)
    requires i < |tys| && (i % 2 == 1) == odd
    ensures tys[i] in EveryOther(tys, odd)
  {
    if i == 0 {
    } else if i == 1 {
      assert EveryOther(tys, true) == [] + EveryOther(tys[1..], false);
      assert tys[1..][0] == tys[1];
    } else {
      assert tys[1..][1..][i - 2] == tys[i];
      EveryOtherAt(tys[1..][1..], odd, i - 2);
    }
  }

  lemma InElementTy(w: World, v: Value, t: Ty, tys: seq<Ty>)
    requires t in tys && Has(w, v, t)
    ensures Has(w, v, ElementTy(tys))
  {
    var i :| 0 <= i < |tys| && tys[i] == t;
    JoinAllMeaning(w, v, tys[0], tys[1..]);
    if i > 0 { assert tys[1..][i - 1] == tys[i]; }
  }

  /** The keys (values) of a hash literal are typed by the join of its key (value) types. */
  lemma {:induction false} PairsTyped(w: World, vs: seq<Value>, tys: seq<Ty>, k: nat, kt: Ty, vt: Ty)
    requires k <= |vs| == |tys| && k % 2 == |vs| % 2 && forall i :: 0 <= i < |vs| ==> Has(w, vs[i], tys[i])
    requires |vs| % 2 == 0 && kt == ElementTy(EveryOther(tys, false)) && vt == ElementTy(EveryOther(tys, true))
    ensures Has(w, VHash(HashOf(vs[..k])), Hash(kt, vt))
    decreases k
  {
    if k >= 2 {
      PairsTyped(w, vs, tys, k - 2, kt, vt);
      assert vs[..k][..k - 2] == vs[..k - 2];
      EveryOtherAt(tys, false, k - 2);
      EveryOtherAt(tys, true, k - 1);
      InElementTy(w, vs[k - 2], tys[k - 2], EveryOther(tys, false));
      InElementTy(w, vs[k - 1], tys[k - 1], EveryOther(tys, true));
    }
  }

  lemma HashTyped(w: World, vs: seq<Value>, tys: seq<Ty>)
    requires |vs| == |tys| && |vs| % 2 == 0 && forall i :: 0 <= i < |vs| ==> Has(w, vs[i], tys[i])
    ensures Has(w, VHash(HashOf(vs)), Hash(ElementTy(EveryOther(tys, false)), ElementTy(EveryOther(tys, true))))
  {
    assert vs[..|vs|] == vs;
    PairsTyped(w, vs, tys, |vs|, ElementTy(EveryOther(tys, false)), ElementTy(EveryOther(tys, true)));
  }

  /** Soundness of `infer_expr_inner`: for every expression of the fragment, every honest
      run from a store that fits the starting environment, the final store fits the
      environment left behind, the value has the inferred type, and a returned value has
      the type of one of the recorded returns. */
  lemma {:induction false} Sound(rt: Runtime, cx: Context, e: Expr, env: Env, s: Store)
    requires Ready(rt, cx, env, s) && Covered(e, cx.closed)
    ensures var r := InferExpr(cx, e, env); Promised(rt.w, Eval(rt, e, s), r.ty, r.env, r.rets)
    decreases e, 1
  {
    if Atom(e) {
      SoundAtom(rt, cx, e, env, s);
    } else if e.ArrayLit? || e.HashLit? {
      SoundLiteral(rt, cx, e, env, s);
    } else if e.Write? || e.OpWrite? {
      SoundWrite(rt, cx, e, env, s);
    } else if e.OrWrite? {
      SoundOrWrite(rt, cx, e, env, s);
    } else if e.AndWrite? {
      SoundAndWrite(rt, cx, e, env, s);
    } else {
      SoundFlow(rt, cx, e, env, s);
    }
  }

  /** A form that decides what runs, or runs several expressions. */
  predicate Flows(e: Expr) {
    e.If? || e.Unless? || e.Case? || e.And? || e.Or? || e.Stmts? || e.Raise? || e.Return? || e.Call?
  }

  lemma {:induction false} SoundFlow(rt: Runtime, cx: Context, e: Expr, env: Env, s: Store)
    requires Ready(rt, cx, env, s) && Covered(e, cx.closed) && Flows(e)
    ensures var r := InferExpr(cx, e, env); Promised(rt.w, Eval(rt, e, s), r.ty, r.env, r.rets)
    decreases e, 1, 0
  {
    if e.If? {
      SoundIf(rt, cx, e, env, s);
    } else if e.Unless? {
      SoundUnless(rt, cx, e, env, s);
    } else if e.Case? {
      SoundCase(rt, cx, e, env, s);
    } else if e.And? || e.Or? {
      SoundAndOr(rt, cx, e, env, s);
    } else if e.Return? {
      SoundReturn(rt, cx, e, env, s);
    } else if e.Call? {
      SoundCall(rt, cx, e, env, s);
    } else {
      SoundStmts(rt, cx, e, env, s);
    }
  }

  predicate Atom(e: Expr) {
    e.IntLit? || e.FloatLit? || e.StrLit? || e.SymLit? || e.BoolLit? || e.NilLit? || e.SelfRef? ||
    e.ConstRef? || e.Read? || e.DefinedP? || e.NilP? || e.IsAP? || e.Jump?
  }

  /** An atom changes neither the store nor the environment and always yields a value,
      save an unresolved constant or a jump. */
  lemma AtomStays(rt: Runtime, cx: Context, e: Expr, env: Env, s: Store)
    requires Atom(e)
    ensures Eval(rt, e, s) == Raised || (Eval(rt, e, s).Normal? && Eval(rt, e, s).s == s)
    ensures InferExpr(cx, e, env).env == env
  {}

  lemma AtomTyped(rt: Runtime, cx: Context, e: Expr, env: Env, s: Store)
    requires Ready(rt, cx, env, s) && Atom(e) && Eval(rt, e, s).Normal?
    ensures Has(rt.w, Eval(rt, e, s).v, InferExpr(cx, e, env).ty)
  {
    if e.DefinedP? {
      var t := Union([Str, Nil]);
      assert t.parts[0] == Str && t.parts[1] == Nil;
    }
  }

  lemma SoundAtom(rt: Runtime, cx: Context, e: Expr, env: Env, s: Store)
    requires Ready(rt, cx, env, s) && Atom(e)
    ensures var r := InferExpr(cx, e, env); Promised(rt.w, Eval(rt, e, s), r.ty, r.env, r.rets)
  {
    AtomStays(rt, cx, e, env, s);
    if Eval(rt, e, s).Normal? { AtomTyped(rt, cx, e, env, s); }
  }

  lemma FitsAssign(w: World, s: Store, env: Env, x: string, v: Value, t: Ty)
    requires Fits(w, s, env) && Has(w, v, t)
    ensures Fits(w, s[x := v], env[x := t])
  {}

  lemma FitsRetype(w: World, s: Store, env: Env, x: string, t: Ty)
    requires Fits(w, s, env) && Has(w, Get(s, x), t)
    ensures Fits(w, s, env[x := t])
  {}

  lemma {:induction false} SoundWrite(rt: Runtime, cx: Context, e: Expr, env: Env, s: Store)
    requires Ready(rt, cx, env, s) && Covered(e, cx.closed) && (e.Write? || e.OpWrite?)
    ensures var r := InferExpr(cx, e, env); Promised(rt.w, Eval(rt, e, s), r.ty, r.env, r.rets)
    decreases e, 0
  {
    Sound(rt, cx, e.e, env, s);
    var v := InferExpr(cx, e.e, env);
    var o := Eval(rt, e.e, s);
    if o.Normal? {
      if e.Write? {
        FitsAssign(rt.w, o.s, v.env, e.x, o.v, v.ty);
      } else if rt.call(e.id).Some? {
        FitsAssign(rt.w, o.s, v.env, e.x, rt.call(e.id).value, Unknown);
      }
    }
  }

  lemma {:induction false} SoundOrWrite(rt: Runtime, cx: Context, e: Expr, env: Env, s: Store)
    requires Ready(rt, cx, env, s) && Covered(e, cx.closed) && e.OrWrite?
    ensures var r := InferExpr(cx, e, env); Promised(rt.w, Eval(rt, e, s), r.ty, r.env, r.rets)
    decreases e, 0
  {
    var v := InferExpr(cx, e.e, env);
    var prev := Lookup(v.env, e.x, Nil);
    var joined := Join(prev, v.ty);
    if Truthy(Get(s, e.x)) {
      PassiveWidens(rt, cx, e.e, env, s);
      JoinMeaning(rt.w, Get(s, e.x), prev, v.ty);
      FitsRetype(rt.w, s, v.env, e.x, joined);
    } else {
      Sound(rt, cx, e.e, env, s);
      var o := Eval(rt, e.e, s);
      if o.Normal? {
        JoinMeaning(rt.w, o.v, prev, v.ty);
        FitsAssign(rt.w, o.s, v.env, e.x, o.v, joined);
      }
    }
  }

  lemma {:induction false} SoundAndWrite(rt: Runtime, cx: Context, e: Expr, env: Env, s: Store)
    requires Ready(rt, cx, env, s) && Covered(e, cx.closed) && e.AndWrite?
    ensures var r := InferExpr(cx, e, env); Promised(rt.w, Eval(rt, e, s), r.ty, r.env, r.rets)
    decreases e, 0
  {
    var v := InferExpr(cx, e.e, env);
    if !Truthy(Get(s, e.x)) {
      PassiveWidens(rt, cx, e.e, env, s);
      FitsRetype(rt.w, s, v.env, e.x, Unknown);
    } else {
      Sound(rt, cx, e.e, env, s);
      var o := Eval(rt, e.e, s);
      if o.Normal? { FitsAssign(rt.w, o.s, v.env, e.x, o.v, Unknown); }
    }
  }

  lemma {:induction false} SoundStmts(rt: Runtime, cx: Context, e: Expr, env: Env, s: Store)
    requires Ready(rt, cx, env, s) && Covered(e, cx.closed) && (e.Stmts? || e.Raise?)
    ensures var r := InferExpr(cx, e, env); Promised(rt.w, Eval(rt, e, s), r.ty, r.env, r.rets)
    decreases e, 0
  {
    if e.Stmts? { SoundBody(rt, cx, e.body, env, s); } else { SoundList(rt, cx, e.args, env, s); }
  }

  lemma {:induction false} SoundOpt(rt: Runtime, cx: Context, e: Option<Expr>, env: Env, s: Store)
    requires Ready(rt, cx, env, s) && OptCovered(e, cx.closed)
    ensures var r := InferOpt(cx, e, env); Promised(rt.w, EvalOpt(rt, e, s), r.ty, r.env, r.rets)
    decreases e, 1
  {
    if e.Some? { Sound(rt, cx, e.value, env, s); }
  }

  lemma PromisedCons(w: World, o: Outcome, h: Infer, rest: ListOutcome, t: InferMany)
    requires Promised(w, o, h.ty, h.env, h.rets)
    requires o.Normal? ==> PromisedList(w, rest, t)
    ensures var r := InferMany([h.ty] + t.tys, t.env, h.rets + t.rets);
            PromisedList(w, match o
                            case Normal(v, _) => (match rest
                                                  case Vals(vs, s) => Vals([v] + vs, s)
                                                  case stop => stop)
                            case _ => Stop(o), r)
  {
    if o.Returned? { ReturnTypedConcat(w, o.v, h.rets, t.rets); }
    if rest.Stop? && rest.out.Returned? { ReturnTypedConcat(w, rest.out.v, h.rets, t.rets); }
  }

  lemma {:induction false} SoundList(rt: Runtime, cx: Context, es: seq<Expr>, env: Env, s: Store)
    requires Ready(rt, cx, env, s) && AllCovered(es, cx.closed)
    ensures PromisedList(rt.w, EvalList(rt, es, s), InferList(cx, es, env))
    decreases es, 0
  {
    if es != [] {
      Sound(rt, cx, es[0], env, s);
      var h := InferExpr(cx, es[0], env);
      var t := InferList(cx, es[1..], h.env);
      var o := Eval(rt, es[0], s);
      if o.Normal? {
        SoundList(rt, cx, es[1..], h.env, o.s);
        PromisedCons(rt.w, o, h, EvalList(rt, es[1..], o.s), t);
      } else {
        PromisedCons(rt.w, o, h, Vals([], s), t);
      }
    }
  }

  lemma {:induction false} SoundBody(rt: Runtime, cx: Context, es: seq<Expr>, env: Env, s: Store)
    requires Ready(rt, cx, env, s) && AllCovered(es, cx.closed)
    ensures var r := InferList(cx, es, env); Promised(rt.w, EvalBody(rt, es, s), LastTy(r.tys), r.env, r.rets)
    decreases es, 1
  {
    SoundList(rt, cx, es, env, s);
  }

  lemma {:induction false} SoundLiteral(rt: Runtime, cx: Context, e: Expr, env: Env, s: Store)
    requires Ready(rt, cx, env, s) && Covered(e, cx.closed) && (e.ArrayLit? || e.HashLit?)
    ensures var r := InferExpr(cx, e, env); Promised(rt.w, Eval(rt, e, s), r.ty, r.env, r.rets)
    decreases e, 0
  {
    SoundList(rt, cx, e.items, env, s);
    if e.ArrayLit? {
      ArrayLitPromised(rt, cx, e, env, s);
    } else {
      HashLitPromised(rt, cx, e, env, s);
    }
  }

  lemma {:induction false} ArrayLitPromised(rt: Runtime, cx: Context, e: Expr, env: Env, s: Store)
    requires e.ArrayLit? && PromisedList(rt.w, EvalList(rt, e.items, s), InferList(cx, e.items, env))
    ensures var r := InferExpr(cx, e, env); Promised(rt.w, Eval(rt, e, s), r.ty, r.env, r.rets)
  {
    var o, m := EvalList(rt, e.items, s), InferList(cx, e.items, env);
    if o.Vals? && !e.splat { ElementsTyped(rt.w, o.vs, m.tys); }
  }

  lemma HashLitPromised(rt: Runtime, cx: Context, e: Expr, env: Env, s: Store)
    requires e.HashLit? && PromisedList(rt.w, EvalList(rt, e.items, s), InferList(cx, e.items, env))
    requires !e.splat ==> |e.items| % 2 == 0
    ensures var r := InferExpr(cx, e, env); Promised(rt.w, Eval(rt, e, s), r.ty, r.env, r.rets)
  {
    var o, m := EvalList(rt, e.items, s), InferList(cx, e.items, env);
    HashLitParts(rt, cx, e, env, s);
    if o.Vals? {
      if e.splat { AnyHash(rt.w, Eval(rt, e, s).v); } else { HashTyped(rt.w, o.vs, m.tys); }
    }
  }

  lemma AnyHash(w: World, v: Value)
    requires v.VHash?
    ensures Has(w, v, Hash(Unknown, Unknown))
  {}

  /** A hash literal and its inferred type, in terms of its items. */
  lemma {:induction false} HashLitParts(rt: Runtime, cx: Context, e: Expr, env: Env, s: Store)
    requires e.HashLit?
    ensures var m := InferList(cx, e.items, env); var r := InferExpr(cx, e, env);
            && r.env == m.env && r.rets == m.rets
            && r.ty == if e.splat then Hash(Unknown, Unknown)
                       else Hash(ElementTy(EveryOther(m.tys, false)), ElementTy(EveryOther(m.tys, true)))
    ensures var o := EvalList(rt, e.items, s); var out := Eval(rt, e, s);
            if o.Stop? then out == o.out
            else out.Normal? && out.s == o.s && out.v.VHash? && (!e.splat ==> out.v == VHash(HashOf(o.vs)))
  {}

  lemma {:induction false} SoundReturn(rt: Runtime, cx: Context, e: Expr, env: Env, s: Store)
    requires Ready(rt, cx, env, s) && Covered(e, cx.closed) && e.Return?
    ensures var r := InferExpr(cx, e, env); Promised(rt.w, Eval(rt, e, s), r.ty, r.env, r.rets)
    decreases e, 0
  {
    SoundList(rt, cx, e.args, env, s);
    var m := InferList(cx, e.args, env);
    var own := if m.tys == [] then Nil else if |m.tys| == 1 then m.tys[0] else Array(Unknown);
    var out := Eval(rt, e, s);
    if out.Returned? {
      if EvalList(rt, e.args, s).Vals? { assert Has(rt.w, out.v, [own][0]); }
      ReturnTypedConcat(rt.w, out.v, m.rets, [own]);
    }
  }

  /** The right operand of `&&`/`||`, run or skipped. */
  lemma {:induction false} SoundRightOperand(rt: Runtime, cx: Context, e: Expr, a: Infer, l: Value, s: Store)
    requires (e.And? || e.Or?) && Covered(e.r, cx.closed) && Passive(e.r, cx.closed)
    requires Ready(rt, cx, a.env, s) && Has(rt.w, l, a.ty)
    ensures var b := InferExpr(cx, e.r, a.env);
            Promised(rt.w, Normal(l, s), Join(a.ty, b.ty), b.env, a.rets + b.rets) &&
            Promised(rt.w, Eval(rt, e.r, s), Join(a.ty, b.ty), b.env, a.rets + b.rets)
    decreases e, 0, 0
  {
    Sound(rt, cx, e.r, a.env, s);
    PassiveWidens(rt, cx, e.r, a.env, s);
    var b := InferExpr(cx, e.r, a.env);
    PromisedRight(rt.w, Eval(rt, e.r, s), a.ty, a.rets, b);
    JoinMeaning(rt.w, l, a.ty, b.ty);
  }

  /** Joining something in front keeps a promise. */
  lemma PromisedRight(w: World, o: Outcome, ty: Ty, rets: seq<Ty>, b: Infer)
    requires Promised(w, o, b.ty, b.env, b.rets)
    ensures Promised(w, o, Join(ty, b.ty), b.env, rets + b.rets)
  {
    if o.Normal? { JoinMeaning(w, o.v, ty, b.ty); }
    if o.Returned? { ReturnTypedConcat(w, o.v, rets, b.rets); }
  }

  /** What `&&` and `||` infer, and what they run. */
  lemma InferAndOr(cx: Context, e: Expr, env: Env)
    requires e.And? || e.Or?
    ensures var a := InferExpr(cx, e.l, env); var b := InferExpr(cx, e.r, a.env);
            InferExpr(cx, e, env) == Infer(Join(a.ty, b.ty), b.env, a.rets + b.rets)
  {}

  lemma EvalAndOr(rt: Runtime, e: Expr, s: Store)
    requires e.And? || e.Or?
    ensures var l := Eval(rt, e.l, s);
            if l.Normal? then Eval(rt, e, s) == l || Eval(rt, e, s) == Eval(rt, e.r, l.s) else Eval(rt, e, s) == l
  {}

  lemma {:induction false} SoundAndOr(rt: Runtime, cx: Context, e: Expr, env: Env, s: Store)
    requires Ready(rt, cx, env, s) && Covered(e, cx.closed) && (e.And? || e.Or?)
    ensures var r := InferExpr(cx, e, env); Promised(rt.w, Eval(rt, e, s), r.ty, r.env, r.rets)
    decreases e, 0, 1
  {
    Sound(rt, cx, e.l, env, s);
    InferAndOr(cx, e, env);
    EvalAndOr(rt, e, s);
    var a := InferExpr(cx, e.l, env);
    var l := Eval(rt, e.l, s);
    if l.Normal? {
      SoundRightOperand(rt, cx, e, a, l.v, l.s);
    } else if l.Returned? {
      ReturnTypedConcat(rt.w, l.v, a.rets, InferExpr(cx, e.r, a.env).rets);
    }
  }

  lemma {:induction false} SoundCall(rt: Runtime, cx: Context, e: Expr, env: Env, s: Store)
    requires Ready(rt, cx, env, s) && Covered(e, cx.closed) && e.Call?
    ensures var r := InferExpr(cx, e, env); Promised(rt.w, Eval(rt, e, s), r.ty, r.env, r.rets)
    decreases e, 0
  {
    SoundOpt(rt, cx, e.recv, env, s);
    var p, o := InferOpt(cx, e.recv, env), EvalOpt(rt, e.recv, s);
    if o.Normal? { SoundList(rt, cx, e.args, p.env, o.s); }
    CallPromised(rt, cx, e, env, s, p, InferList(cx, e.args, p.env));
  }

  lemma CallPromised(rt: Runtime, cx: Context, e: Expr, env: Env, s: Store, p: Infer, m: InferMany)
    requires e.Call? && Honest(rt, cx) && p == InferOpt(cx, e.recv, env) && m == InferList(cx, e.args, p.env)
    requires var o := EvalOpt(rt, e.recv, s);
             && Promised(rt.w, o, p.ty, p.env, p.rets)
             && (o.Normal? ==> PromisedList(rt.w, EvalList(rt, e.args, o.s), m))
    ensures var r := InferExpr(cx, e, env); Promised(rt.w, Eval(rt, e, s), r.ty, r.env, r.rets)
  {
    var o := EvalOpt(rt, e.recv, s);
    assert InferExpr(cx, e, env) == Infer(cx.sigs(e.id), m.env, p.rets + m.rets);
    if o.Normal? {
      var l := EvalList(rt, e.args, o.s);
      if l.Stop? && l.out.Returned? { ReturnTypedConcat(rt.w, l.out.v, p.rets, m.rets); }
    } else if o.Returned? {
      ReturnTypedConcat(rt.w, o.v, p.rets, m.rets);
    }
  }

  /** A body that diverges never falls through. */
  lemma {:induction false} DivergingBodyLeaves(rt: Runtime, body: seq<Expr>, s: Store)
    requires Diverges(body)
    ensures EvalList(rt, body, s).Stop?
    decreases |body|
  {
    var o := Eval(rt, body[0], s);
    if |body| > 1 && o.Normal? {
      DivergingBodyLeaves(rt, body[1..], o.s);
    }
  }

  /** Both bodies of an `if`/`unless` after the predicate: `taken` is the branch run. */
  lemma {:induction false} SoundBranches(rt: Runtime, cx: Context, e: Expr, p: Infer, thnEnv: Env, elsEnv: Env,
                                         s: Store, taken: bool)
    requires (e.If? || e.Unless?) && Honest(rt, cx)
    requires AllCovered(e.thn, cx.closed) && OptCovered(e.els, cx.closed)
    requires Fits(rt.w, s, if taken then thnEnv else elsEnv)
    requires p.env.Keys <= thnEnv.Keys && p.env.Keys <= elsEnv.Keys
    ensures var t := InferList(cx, e.thn, thnEnv); var f := InferOpt(cx, e.els, elsEnv);
            var o := if taken then EvalBody(rt, e.thn, s) else EvalOpt(rt, e.els, s);
            && Promised(rt.w, o, Join(LastTy(t.tys), f.ty), JoinEnvs(p.env, [t.env, f.env]), p.rets + t.rets + f.rets)
            && (!taken ==> Promised(rt.w, o, Join(LastTy(t.tys), f.ty), f.env, p.rets + t.rets + f.rets))
    decreases e, 0, 0
  {
    var t := InferList(cx, e.thn, thnEnv);
    var f := InferOpt(cx, e.els, elsEnv);
    var o := if taken then EvalBody(rt, e.thn, s) else EvalOpt(rt, e.els, s);
    if taken { SoundBody(rt, cx, e.thn, thnEnv, s); } else { SoundOpt(rt, cx, e.els, elsEnv, s); }
    if o.Normal? {
      JoinMeaning(rt.w, o.v, LastTy(t.tys), f.ty);
      JoinFits(rt.w, o.s, p.env, [t.env, f.env], if taken then 0 else 1);
    } else if o.Returned? {
      ReturnTypedThree(rt.w, o.v, p.rets, t.rets, f.rets);
    }
  }

  /** After a predicate ran, the branch it selects starts from an environment that fits. */
  lemma SelectedFits(rt: Runtime, pred: Expr, closed: bool, s: Store, env: Env)
    requires Covered(pred, closed) && FairTest(pred, closed) && Eval(rt, pred, s).Normal?
    requires Fits(rt.w, Eval(rt, pred, s).s, env)
    ensures var o := Eval(rt, pred, s); var nw := NarrowOf(pred, closed);
            Fits(rt.w, o.s, if Truthy(o.v) then WhenTrue(env, nw) else WhenFalse(env, nw))
  {
    var o := Eval(rt, pred, s);
    var nw := NarrowOf(pred, closed);
    if nw.Some? {
      PredicateDecides(rt, pred, closed, s);
      if Truthy(o.v) {
        NarrowTrueFits(rt, nw.value, o.s, env);
      } else {
        NarrowFalseFits(rt, nw.value, o.s, env);
      }
    }
  }

  /** What `if` and `unless` infer, given the environments their branches start from. */
  function Branched(cx: Context, thn: seq<Expr>, els: Option<Expr>, p: Infer, thnEnv: Env, elsEnv: Env,
                    shortcut: bool): Infer {
    var t, f := InferList(cx, thn, thnEnv), InferOpt(cx, els, elsEnv);
    var env := if shortcut then f.env else JoinEnvs(p.env, [t.env, f.env]);
    Infer(Join(LastTy(t.tys), f.ty), env, p.rets + t.rets + f.rets)
  }

  lemma InferIf(cx: Context, e: Expr, env: Env)
    requires e.If?
    ensures var p, nw := InferExpr(cx, e.pred, env), NarrowOf(e.pred, cx.closed);
            InferExpr(cx, e, env) == Branched(cx, e.thn, e.els, p, WhenTrue(p.env, nw), WhenFalse(p.env, nw),
                                              IfShortcut(e.pred, e.thn, e.els, cx.closed))
  {}

  lemma InferUnless(cx: Context, e: Expr, env: Env)
    requires e.Unless?
    ensures var p, nw := InferExpr(cx, e.pred, env), NarrowOf(e.pred, cx.closed);
            InferExpr(cx, e, env) == Branched(cx, e.thn, e.els, p, WhenFalse(p.env, nw), WhenTrue(p.env, nw),
                                              UnlessShortcut(e.pred, e.thn, e.els, cx.closed))
  {}

  /** The branch run, `then` when `taken`. */
  function RunBranch(rt: Runtime, e: Expr, s: Store, taken: bool): Outcome
    requires e.If? || e.Unless?
  {
    if taken then EvalBody(rt, e.thn, s) else EvalOpt(rt, e.els, s)
  }

  lemma EvalBranch(rt: Runtime, e: Expr, s: Store)
    requires e.If? || e.Unless?
    ensures var o := Eval(rt, e.pred, s);
            Eval(rt, e, s) == if o.Normal? then RunBranch(rt, e, o.s, Truthy(o.v) == e.If?) else o
  {}

  /** The predicate left the method: its outcome is that of the whole. */
  lemma PredLeft(cx: Context, w: World, o: Outcome, p: Infer, thn: seq<Expr>, els: Option<Expr>,
                 thnEnv: Env, elsEnv: Env, shortcut: bool)
    requires !o.Normal? && Promised(w, o, p.ty, p.env, p.rets)
    ensures var r := Branched(cx, thn, els, p, thnEnv, elsEnv, shortcut); Promised(w, o, r.ty, r.env, r.rets)
  {
    if o.Returned? {
      ReturnTypedThree(w, o.v, p.rets, InferList(cx, thn, thnEnv).rets, InferOpt(cx, els, elsEnv).rets);
    }
  }

  /** The predicate came out: the branch it selects is covered, shortcut or not. */
  lemma {:induction false} SoundSelected(rt: Runtime, cx: Context, e: Expr, p: Infer, thnEnv: Env, elsEnv: Env,
                                         s: Store, taken: bool, shortcut: bool)
    requires (e.If? || e.Unless?) && Honest(rt, cx)
    requires AllCovered(e.thn, cx.closed) && OptCovered(e.els, cx.closed)
    requires Fits(rt.w, s, if taken then thnEnv else elsEnv)
    requires p.env.Keys <= thnEnv.Keys && p.env.Keys <= elsEnv.Keys
    requires shortcut ==> Diverges(e.thn)
    ensures var r := Branched(cx, e.thn, e.els, p, thnEnv, elsEnv, shortcut);
            Promised(rt.w, RunBranch(rt, e, s, taken), r.ty, r.env, r.rets)
    decreases e, 0, 1
  {
    SoundBranches(rt, cx, e, p, thnEnv, elsEnv, s, taken);
    if taken && shortcut { DivergingBodyLeaves(rt, e.thn, s); }
  }

  lemma {:induction false} SoundIf(rt: Runtime, cx: Context, e: Expr, env: Env, s: Store)
    requires Ready(rt, cx, env, s) && Covered(e, cx.closed) && e.If?
    ensures var r := InferExpr(cx, e, env); Promised(rt.w, Eval(rt, e, s), r.ty, r.env, r.rets)
    decreases e, 0, 2
  {
    Sound(rt, cx, e.pred, env, s);
    InferIf(cx, e, env);
    EvalBranch(rt, e, s);
    var p, o, nw := InferExpr(cx, e.pred, env), Eval(rt, e.pred, s), NarrowOf(e.pred, cx.closed);
    var thnEnv, elsEnv := WhenTrue(p.env, nw), WhenFalse(p.env, nw);
    var shortcut := IfShortcut(e.pred, e.thn, e.els, cx.closed);
    if o.Normal? {
      SelectedFits(rt, e.pred, cx.closed, s, p.env);
      SoundSelected(rt, cx, e, p, thnEnv, elsEnv, o.s, Truthy(o.v), shortcut);
    } else {
      PredLeft(cx, rt.w, o, p, e.thn, e.els, thnEnv, elsEnv, shortcut);
    }
  }

  lemma {:induction false} SoundUnless(rt: Runtime, cx: Context, e: Expr, env: Env, s: Store)
    requires Ready(rt, cx, env, s) && Covered(e, cx.closed) && e.Unless?
    ensures var r := InferExpr(cx, e, env); Promised(rt.w, Eval(rt, e, s), r.ty, r.env, r.rets)
    decreases e, 0, 2
  {
    Sound(rt, cx, e.pred, env, s);
    InferUnless(cx, e, env);
    EvalBranch(rt, e, s);
    var p, o, nw := InferExpr(cx, e.pred, env), Eval(rt, e.pred, s), NarrowOf(e.pred, cx.closed);
    var thnEnv, elsEnv := WhenFalse(p.env, nw), WhenTrue(p.env, nw);
    var shortcut := UnlessShortcut(e.pred, e.thn, e.els, cx.closed);
    if o.Normal? {
      SelectedFits(rt, e.pred, cx.closed, s, p.env);
      SoundSelected(rt, cx, e, p, thnEnv, elsEnv, o.s, !Truthy(o.v), shortcut);
    } else {
      PredLeft(cx, rt.w, o, p, e.thn, e.els, thnEnv, elsEnv, shortcut);
    }
  }

  // ----- case / when -----

  lemma TestedByClass(rt: Runtime, v: Value, c: Const, closed: bool)
    requires TestedTy(c, closed).Some? && IsA(rt, v, c)
    ensures Has(rt.w, v, TestedTy(c, closed).value)
  {}

  /** The classes of a narrowing clause: a subject accepted by one of its conditions has
      the clause's type. */
  lemma {:induction false} ClauseTyped(rt: Runtime, conds: seq<Expr>, closed: bool, v: Value, i: nat)
    requires NarrowOfWhen(conds, closed).Some?
    requires i < |conds| && conds[i].ConstRef? && IsA(rt, v, conds[i].c)
    ensures Has(rt.w, v, NarrowOfWhen(conds, closed).value)
  {
    var last := conds[|conds| - 1];
    if i == |conds| - 1 { TestedByClass(rt, v, last.c, closed); }
    if |conds| > 1 {
      var before := conds[..|conds| - 1];
      JoinMeaning(rt.w, v, NarrowOfWhen(before, closed).value, TestedTy(last.c, closed).value);
      if i < |conds| - 1 {
        assert before[i] == conds[i];
        ClauseTyped(rt, before, closed, v, i);
      }
    }
  }

  lemma {:induction false} ClauseIsConstants(conds: seq<Expr>, closed: bool, i: nat)
    requires NarrowOfWhen(conds, closed).Some? && i < |conds|
    ensures conds[i].ConstRef?
  {
    if i < |conds| - 1 { ClauseIsConstants(conds[..|conds| - 1], closed, i); }
  }

  /** When the conditions accept the subject, one of them did, and the store is untouched. */
  lemma {:induction false} MatchedBy(rt: Runtime, conds: seq<Expr>, closed: bool, v: Option<Value>, s: Store)
    returns (i: nat)
    requires AllPassive(conds, closed) && EvalConds(rt, conds, v, s).Matched?
    ensures i < |conds| && EvalConds(rt, conds, v, s).s == s
    ensures v.Some? && conds[i].ConstRef? ==> IsA(rt, v.value, conds[i].c)
    decreases |conds|
  {
    PassiveStays(rt, conds[0], closed, s);
    var o := Eval(rt, conds[0], s);
    if CondHolds(rt, conds[0], o.v, v) {
      i := 0;
    } else {
      var j := MatchedBy(rt, conds[1..], closed, v, s);
      i := j + 1;
    }
  }

  /** A subject variable still holds the subject, so the clause's type is right for it. */
  lemma BranchStartFits(rt: Runtime, conds: seq<Expr>, closed: bool, x: Option<string>, v: Option<Value>, env: Env,
                        s: Store)
    requires AllPassive(conds, closed) && EvalConds(rt, conds, v, s).Matched? && Fits(rt.w, s, env)
    requires x.Some? ==> v == Some(Get(s, x.value))
    ensures Fits(rt.w, s, BranchStart(env, x, NarrowOfWhen(conds, closed)))
  {
    var i := MatchedBy(rt, conds, closed, v, s);
    var nt := NarrowOfWhen(conds, closed);
    if x.Some? && nt.Some? {
      ClauseIsConstants(conds, closed, i);
      ClauseTyped(rt, conds, closed, v.value, i);
      FitsRetype(rt.w, s, env, x.value, nt.value);
    }
  }

  /** Conditions that abort the method do so with a recorded return. */
  lemma {:induction false} SoundConds(rt: Runtime, cx: Context, conds: seq<Expr>, v: Option<Value>, env: Env, s: Store)
    requires Ready(rt, cx, env, s) && AllCovered(conds, cx.closed) && AllPassive(conds, cx.closed)
    ensures var o := EvalConds(rt, conds, v, s);
            o.Abort? && o.out.Returned? ==> ReturnTyped(rt.w, o.out.v, InferList(cx, conds, env).rets)
    decreases conds, 0
  {
    if conds != [] {
      Sound(rt, cx, conds[0], env, s);
      PassiveStays(rt, conds[0], cx.closed, s);
      PassiveWidens(rt, cx, conds[0], env, s);
      var h := InferExpr(cx, conds[0], env);
      SoundConds(rt, cx, conds[1..], v, h.env, s);
      var o := EvalConds(rt, conds, v, s);
      if o.Abort? && o.out.Returned? {
        ReturnTypedConcat(rt.w, o.out.v, h.rets, InferList(cx, conds[1..], h.env).rets);
      }
    }
  }

  ghost predicate PromisedCase(w: World, o: CaseOutcome, r: InferCase, s: Store) {
    match o
    case Took(i, out) =>
      i < |r.tys| == |r.envs| && Promised(w, out, r.tys[i], r.envs[i], r.rets) &&
      forall x :: x !in r.envs[i] ==> Get(s, x) == VNil
    case Broke(out) => out.Returned? ==> ReturnTyped(w, out.v, r.rets)
    case Fell(s') => s' == s
  }

  function WhenCons(c: InferMany, b: InferMany, rest: InferCase): InferCase {
    InferCase([LastTy(b.tys)] + rest.tys, [b.env] + rest.envs, rest.env, c.rets + b.rets + rest.rets)
  }

  lemma PromisedFirst(w: World, out: Outcome, c: InferMany, b: InferMany, rest: InferCase, s: Store)
    requires |rest.tys| == |rest.envs|
    requires Promised(w, out, LastTy(b.tys), b.env, b.rets) && forall x :: x !in b.env ==> Get(s, x) == VNil
    ensures PromisedCase(w, Took(0, out), WhenCons(c, b, rest), s)
  {
    if out.Returned? { ReturnTypedThree(w, out.v, c.rets, b.rets, rest.rets); }
  }

  lemma PromisedLater(w: World, o: CaseOutcome, c: InferMany, b: InferMany, rest: InferCase, s: Store)
    requires PromisedCase(w, o, rest, s)
    ensures PromisedCase(w, if o.Took? then Took(o.branch + 1, o.out) else o, WhenCons(c, b, rest), s)
  {
    if (o.Took? || o.Broke?) && o.out.Returned? {
      ReturnTypedThree(w, o.out.v, c.rets, b.rets, rest.rets);
    }
  }

  /** The body of the clause that matched. */
  lemma {:induction false} SoundClause(rt: Runtime, cx: Context, when: When, x: Option<string>, v: Option<Value>,
                                       env: Env, s: Store)
    requires Ready(rt, cx, env, s) && AllPassive(when.conds, cx.closed) && AllCovered(when.body, cx.closed)
    requires (x.Some? ==> v == Some(Get(s, x.value))) && EvalConds(rt, when.conds, v, s).Matched?
    ensures var b := InferList(cx, when.body, BranchStart(env, x, NarrowOfWhen(when.conds, cx.closed)));
            Promised(rt.w, EvalBody(rt, when.body, s), LastTy(b.tys), b.env, b.rets) &&
            forall y :: y !in b.env ==> Get(s, y) == VNil
    decreases when, 0
  {
    BranchStartFits(rt, when.conds, cx.closed, x, v, env, s);
    SoundBody(rt, cx, when.body, BranchStart(env, x, NarrowOfWhen(when.conds, cx.closed)), s);
  }

  /** How `EvalWhens` unfolds when the conditions leave the store alone. */
  lemma EvalWhensStep(rt: Runtime, whens: seq<When>, closed: bool, v: Option<Value>, s: Store)
    requires whens != [] && AllPassive(whens[0].conds, closed)
    ensures var o := EvalConds(rt, whens[0].conds, v, s); var rest := EvalWhens(rt, whens[1..], v, s);
            EvalWhens(rt, whens, v, s) ==
              if o.Matched? then Took(0, EvalBody(rt, whens[0].body, s))
              else if o.NoMatch? then (if rest.Took? then Took(rest.branch + 1, rest.out) else rest)
              else Broke(o.out)
  {
    CondsPassiveStay(rt, whens[0].conds, closed, v, s);
  }

  lemma {:induction false} SoundWhens(rt: Runtime, cx: Context, whens: seq<When>, x: Option<string>, v: Option<Value>,
                                      env: Env, s: Store)
    requires Ready(rt, cx, env, s) && WhensCovered(whens, cx.closed)
    requires x.Some? ==> v == Some(Get(s, x.value))
    ensures PromisedCase(rt.w, EvalWhens(rt, whens, v, s), InferWhens(cx, whens, x, env), s)
    decreases whens, 0
  {
    if whens != [] {
      var c := InferList(cx, whens[0].conds, env);
      var b := InferList(cx, whens[0].body, BranchStart(c.env, x, NarrowOfWhen(whens[0].conds, cx.closed)));
      var rest := InferWhens(cx, whens[1..], x, c.env);
      assert InferWhens(cx, whens, x, env) == WhenCons(c, b, rest);
      EvalWhensStep(rt, whens, cx.closed, v, s);
      AllPassiveWiden(rt, cx, whens[0].conds, env, s);
      var o := EvalConds(rt, whens[0].conds, v, s);
      if o.Matched? {
        SoundClause(rt, cx, whens[0], x, v, c.env, s);
        PromisedFirst(rt.w, EvalBody(rt, whens[0].body, s), c, b, rest, s);
      } else if o.NoMatch? {
        SoundWhens(rt, cx, whens[1..], x, v, c.env, s);
        PromisedLater(rt.w, EvalWhens(rt, whens[1..], v, s), c, b, rest, s);
      } else {
        SoundConds(rt, cx, whens[0].conds, v, env, s);
        if o.out.Returned? { ReturnTypedThree(rt.w, o.out.v, c.rets, b.rets, rest.rets); }
      }
    }
  }

  /** No clause aborts or matches: the environment after all conditions still fits. */
  lemma {:induction false} FellFits(rt: Runtime, cx: Context, whens: seq<When>, x: Option<string>, env: Env, s: Store)
    requires WhensCovered(whens, cx.closed) && Fits(rt.w, s, env)
    ensures Fits(rt.w, s, InferWhens(cx, whens, x, env).env)
    decreases whens, 0
  {
    if whens != [] {
      AllPassiveWiden(rt, cx, whens[0].conds, env, s);
      FellFits(rt, cx, whens[1..], x, InferList(cx, whens[0].conds, env).env, s);
    }
  }

  function ClausesTy(tys: seq<Ty>): Ty {
    if tys == [] then Nil else JoinAll(tys[0], tys[1..])
  }

  /** Joining the clauses: the value and store of the branch that ran fit the whole. */
  lemma JoinCase(w: World, v: Value, s: Store, c: InferCase, f: Infer, i: nat)
    requires i <= |c.envs| == |c.tys|
    requires forall x :: x in c.env && x !in (c.envs + [f.env])[i] ==> Has(w, VNil, c.env[x])
    requires if i < |c.tys| then Has(w, v, c.tys[i]) && Fits(w, s, c.envs[i]) else Has(w, v, f.ty) && Fits(w, s, f.env)
    ensures Has(w, v, Join(ClausesTy(c.tys), f.ty)) && Fits(w, s, JoinEnvs(c.env, c.envs + [f.env]))
  {
    JoinMeaning(w, v, ClausesTy(c.tys), f.ty);
    if i < |c.tys| {
      JoinAllMeaning(w, v, c.tys[0], c.tys[1..]);
      if i > 0 { assert c.tys[1..][i - 1] == c.tys[i]; }
    }
    JoinFits(w, s, c.env, c.envs + [f.env], i);
  }

  /** `case`: subject, clauses and else together. */
  lemma CasePromised(rt: Runtime, o: CaseOutcome, s: Store, p: Infer, c: InferCase, f: Infer, last: Outcome)
    requires |c.envs| == |c.tys| && c.env.Keys <= f.env.Keys
    requires PromisedCase(rt.w, o, c, s) && Fits(rt.w, s, c.env)
    requires o.Fell? ==> Promised(rt.w, last, f.ty, f.env, f.rets)
    ensures Promised(rt.w, if o.Fell? then last else o.out, Join(ClausesTy(c.tys), f.ty),
                     JoinEnvs(c.env, c.envs + [f.env]), p.rets + c.rets + f.rets) || (o.Broke? && o.out.Normal?)
  {
    var out := if o.Fell? then last else o.out;
    if out.Returned? {
      ReturnTypedThree(rt.w, out.v, p.rets, c.rets, f.rets);
    } else if out.Normal? && !o.Broke? {
      var i := if o.Took? then o.branch else |c.envs|;
      JoinCase(rt.w, out.v, out.s, c, f, i);
    }
  }

  lemma SubjectIsRead(rt: Runtime, subject: Option<Expr>, s: Store)
    requires SubjectVar(subject).Some?
    ensures EvalOpt(rt, subject, s) == Normal(Get(s, SubjectVar(subject).value), s)
  {}

  lemma {:induction false} SoundCase(rt: Runtime, cx: Context, e: Expr, env: Env, s: Store)
    requires Ready(rt, cx, env, s) && Covered(e, cx.closed) && e.Case?
    ensures var r := InferExpr(cx, e, env); Promised(rt.w, Eval(rt, e, s), r.ty, r.env, r.rets)
    decreases e, 0
  {
    SoundOpt(rt, cx, e.subject, env, s);
    var p := InferOpt(cx, e.subject, env);
    var x := SubjectVar(e.subject);
    var c := InferWhens(cx, e.whens, x, p.env);
    var f := InferOpt(cx, e.els, c.env);
    var o := EvalOpt(rt, e.subject, s);
    if o.Normal? {
      var v := if e.subject.Some? then Some(o.v) else None;
      if x.Some? { SubjectIsRead(rt, e.subject, s); }
      SoundWhens(rt, cx, e.whens, x, v, p.env, o.s);
      FellFits(rt, cx, e.whens, x, p.env, o.s);
      SoundOpt(rt, cx, e.els, c.env, o.s);
      CasePromised(rt, EvalWhens(rt, e.whens, v, o.s), o.s, p, c, f, EvalOpt(rt, e.els, o.s));
    } else if o.Returned? {
      ReturnTypedThree(rt.w, o.v, p.rets, c.rets, f.rets);
    }
  }

  // ----- whole methods -----

  /** The method-level theorem: however the body ends, by falling off its end or by
      `return`, the value lies in the type `check_method_body` folds. */
  lemma MethodReturnSound(rt: Runtime, cx: Context, body: Option<Expr>, params: Env, s: Store)
    requires Ready(rt, cx, params, s) && OptCovered(body, cx.closed)
    ensures var o := EvalOpt(rt, body, s);
            (o.Normal? || o.Returned?) ==> Has(rt.w, o.v, MethodReturn(cx, body, params))
  {
    SoundOpt(rt, cx, body, params, s);
    var r := InferOpt(cx, body, params);
    var o := EvalOpt(rt, body, s);
    if o.Normal? || o.Returned? { JoinAllMeaning(rt.w, o.v, r.ty, r.rets); }
  }

  // ----- why the fragment stops where it does -----

  function QuietRuntime(): Runtime {
    Runtime(World(map[]), VNil, _ => None, _ => VNil, (_, _) => false, _ => None, (_, _) => false)
  }

  function PlainContext(): Context {
    Context(false, _ => Unknown, Unknown)
  }

  ghost predicate SoundFor(rt: Runtime, cx: Context, e: Expr, env: Env, s: Store) {
    var r := InferExpr(cx, e, env);
    Ready(rt, cx, env, s) ==> Promised(rt.w, Eval(rt, e, s), r.ty, r.env, r.rets)
  }

  /** `true || (x = 1)`: the write is walked but never run, and `x` stays nil. */
  lemma SkippedWriteUnsound()
    ensures !SoundFor(QuietRuntime(), PlainContext(), Or(BoolLit(true), Write("x", IntLit(1))), map[], map[])
  {
    var w := Write("x", IntLit(1));
    var e := Or(BoolLit(true), w);
    assert Eval(QuietRuntime(), e, map[]) == Normal(VBool(true), map[]);
    assert InferExpr(PlainContext(), w, map[]).env == map["x" := Int];
    assert InferExpr(PlainContext(), e, map[]).env == map["x" := Int];
    assert "x" in map["x" := Int];
  }

  function GuardOnX(): Expr {
    If(NilP("x"), [Return([])], None)
  }

  function MaybeInt(): Env {
    map["x" := Union([Int, Nil])]
  }

  lemma NilStripped()
    ensures NarrowFalse(MaybeInt(), Narrow("x", NilCheck)) == map["x" := Int]
  {
    assert [Int, Nil][1..] == [Nil] && Without([Nil], Nil) == [];
  }

  /** `return if x.nil?` leaves `x: Integer` behind when it starts from `Integer | nil`. */
  lemma GuardStripsNil()
    ensures InferExpr(PlainContext(), GuardOnX(), MaybeInt()).env == map["x" := Int]
  {
    NilStripped();
    assert InferExpr(PlainContext(), NilP("x"), MaybeInt()).env == MaybeInt();
    assert IfShortcut(NilP("x"), [Return([])], None, false);
  }

  /** `nil && r` runs nothing of `r` but infers all of it. */
  lemma {:induction false} NilAndSkips(rt: Runtime, cx: Context, r: Expr, env: Env, s: Store)
    ensures InferExpr(cx, And(NilLit, r), env).env == InferExpr(cx, r, env).env
    ensures Eval(rt, And(NilLit, r), s) == Normal(VNil, s)
  {
    InferAndOr(cx, And(NilLit, r), env);
    EvalAndOr(rt, And(NilLit, r), s);
    assert InferExpr(cx, NilLit, env).env == env;
    assert Eval(rt, NilLit, s) == Normal(VNil, s) && !Truthy(VNil);
  }

  lemma UnsetFitsMaybeInt()
    ensures Fits(World(map[]), map[], MaybeInt()) && !Fits(World(map[]), map[], map["x" := Int])
  {
    assert Has(World(map[]), VNil, [Int, Nil][1]);
    assert "x" in map["x" := Int];
  }

  /** `nil && (return if x.nil?)`: the guard is walked but never run, and its fact
      outlives it. Passive code may hold no guard clause either. */
  lemma SkippedGuardUnsound()
    ensures !SoundFor(QuietRuntime(), PlainContext(), And(NilLit, GuardOnX()), MaybeInt(), map[])
  {
    GuardStripsNil();
    NilAndSkips(QuietRuntime(), PlainContext(), GuardOnX(), MaybeInt(), map[]);
    UnsetFitsMaybeInt();
  }
}
