/** Right operands of `&&` and `||` that write: exactly when skipping one is covered by the environment
    its walk leaves. */
module SkippedOperands {
  import opened Types
  import opened Compat
  import opened Ruby
  import opened Flow
  import opened FlowSound

  /** What an environment says of a name; one it does not know is unset. */
  function TyIn(env: Env, x: string): Ty { Lookup(env, x, Nil) }

  /** Name by name, `after` allows everything `before` allows. */
  ghost predicate Widens(w: World, before: Env, after: Env) {
    forall x: string :: Included(w, TyIn(before, x), TyIn(after, x))
  }

  ghost predicate EnvInhabited(env: Env) { forall x :: x in env ==> Inhabited(env[x]) }

  lemma FitsByName(w: World, s: Store, env: Env)
    ensures Fits(w, s, env) <==> forall x :: Has(w, Get(s, x), TyIn(env, x))
  {
    assert forall x :: x !in env ==> (Has(w, Get(s, x), TyIn(env, x)) <==> Get(s, x) == VNil);
  }

  /** A store that fits `env` and holds `v` in `x`. */
  function StoreWith(env: Env, x: string, v: Value): Store { (map y | y in env :: Canon(env[y]))[x := v] }

  lemma StoreWithFits(w: World, env: Env, x: string, v: Value)
    requires EnvInhabited(env) && Has(w, v, TyIn(env, x))
    ensures Fits(w, StoreWith(env, x, v), env) && Get(StoreWith(env, x, v), x) == v
  {
    var s := StoreWith(env, x, v);
    forall y ensures Has(w, Get(s, y), TyIn(env, y)) {
      if y != x && y in env { CanonHas(w, env[y]); }
    }
    FitsByName(w, s, env);
  }

  lemma WidensIff(w: World, before: Env, after: Env)
    requires EnvInhabited(before)
    ensures Widens(w, before, after) <==> forall s :: Fits(w, s, before) ==> Fits(w, s, after)
  {
    if Widens(w, before, after) {
      forall s | Fits(w, s, before) ensures Fits(w, s, after) {
        WidenedStoreFits(w, before, after, s);
      }
    }
    if forall s :: Fits(w, s, before) ==> Fits(w, s, after) {
      forall x: string ensures Included(w, TyIn(before, x), TyIn(after, x)) {
        forall v | Has(w, v, TyIn(before, x)) ensures Has(w, v, TyIn(after, x)) {
          StoreWithFits(w, before, x, v);
          FitsByName(w, StoreWith(before, x, v), after);
        }
      }
    }
  }

  lemma WidenedStoreFits(w: World, before: Env, after: Env, s: Store)
    requires Widens(w, before, after) && Fits(w, s, before)
    ensures Fits(w, s, after)
  {
    FitsByName(w, s, before);
    FitsByName(w, s, after);
    forall x ensures Has(w, Get(s, x), TyIn(after, x)) {
      assert Included(w, TyIn(before, x), TyIn(after, x));
    }
  }

  /** Does the left operand's value make the run skip the right one? */
  predicate Skips(e: Expr, v: Value)
    requires e.And? || e.Or?
  {
    if e.And? then !Truthy(v) else Truthy(v)
  }

  /** If this run skips the right operand, the store still fits what walking the right one leaves. */
  ghost predicate SkipFits(rt: Runtime, e: Expr, env: Env, after: Env, s: Store)
    requires e.And? || e.Or?
  {
    var l := Eval(rt, e.l, s);
    Fits(rt.w, s, env) && l.Normal? && Skips(e, l.v) ==> Fits(rt.w, l.s, after)
  }

  /** For every left and right operand: `l && r` (`l || r`) is inferred soundly in every run exactly when each run that
      skips `r` leaves a store that fits the environment walking `r` leaves. */
  lemma SkippedSoundIff(rt: Runtime, cx: Context, e: Expr, env: Env)
    requires Honest(rt, cx) && (e.And? || e.Or?) && Covered(e.l, cx.closed) && Covered(e.r, cx.closed)
    ensures (forall s :: SoundFor(rt, cx, e, env, s)) <==>
      forall s :: SkipFits(rt, e, env, InferExpr(cx, e, env).env, s)
  {
    SkippedSoundEach(rt, cx, e, env, InferExpr(cx, e, env).env);
  }

  lemma SkippedSoundEach(rt: Runtime, cx: Context, e: Expr, env: Env, after: Env)
    requires Honest(rt, cx) && (e.And? || e.Or?) && Covered(e.l, cx.closed) && Covered(e.r, cx.closed)
    requires after == InferExpr(cx, e, env).env
    ensures forall s :: SoundFor(rt, cx, e, env, s) <==> SkipFits(rt, e, env, after, s)
  {
    forall s ensures SoundFor(rt, cx, e, env, s) <==> SkipFits(rt, e, env, after, s) {
      SkippedSoundAt(rt, cx, e, env, s);
    }
  }

  lemma SkippedSoundAt(rt: Runtime, cx: Context, e: Expr, env: Env, s: Store)
    requires Honest(rt, cx) && (e.And? || e.Or?) && Covered(e.l, cx.closed) && Covered(e.r, cx.closed)
    ensures SoundFor(rt, cx, e, env, s) <==> SkipFits(rt, e, env, InferExpr(cx, e, env).env, s)
  {
    if Fits(rt.w, s, env) { SkippedPromisedIff(rt, cx, e, env, s); }
  }

  lemma SkippedPromisedIff(rt: Runtime, cx: Context, e: Expr, env: Env, s: Store)
    requires Ready(rt, cx, env, s) && (e.And? || e.Or?) && Covered(e.l, cx.closed) && Covered(e.r, cx.closed)
    ensures var r, l := InferExpr(cx, e, env), Eval(rt, e.l, s);
            Promised(rt.w, Eval(rt, e, s), r.ty, r.env, r.rets) <==>
            (l.Normal? && Skips(e, l.v) ==> Fits(rt.w, l.s, r.env))
  {
    var a, l := InferExpr(cx, e.l, env), Eval(rt, e.l, s);
    var runs := l.Normal? && !Skips(e, l.v);
    InferAndOr(cx, e, env);
    RunAndOr(rt, e, s);
    SoundOperands(rt, cx, e, env, s, runs);
    OperandsPromisedIff(rt.w, l, Eval(rt, e, s), runs, a, InferExpr(cx, e.r, a.env), InferExpr(cx, e, env));
  }

  lemma SoundOperands(rt: Runtime, cx: Context, e: Expr, env: Env, s: Store, runs: bool)
    requires Ready(rt, cx, env, s) && (e.And? || e.Or?) && Covered(e.l, cx.closed) && Covered(e.r, cx.closed)
    requires runs ==> Eval(rt, e.l, s).Normal?
    ensures var a, l := InferExpr(cx, e.l, env), Eval(rt, e.l, s);
            var b := InferExpr(cx, e.r, a.env);
            && Promised(rt.w, l, a.ty, a.env, a.rets)
            && (runs ==> Promised(rt.w, Eval(rt, e.r, l.s), b.ty, b.env, b.rets))
  {
    Sound(rt, cx, e.l, env, s);
    if runs { Sound(rt, cx, e.r, InferExpr(cx, e.l, env).env, Eval(rt, e.l, s).s); }
  }

  lemma OperandsPromisedIff(w: World, l: Outcome, o: Outcome, runs: bool, a: Infer, b: Infer, r: Infer)
    requires r == Infer(Join(a.ty, b.ty), b.env, a.rets + b.rets)
    requires Promised(w, l, a.ty, a.env, a.rets) && (runs ==> Promised(w, o, b.ty, b.env, b.rets)) && (!runs ==> o == l)
    ensures Promised(w, o, r.ty, r.env, r.rets) <==> (!runs && l.Normal? ==> Fits(w, l.s, r.env))
  {
    if runs { PromisedRight(w, o, a.ty, a.rets, b); } else { LeftPromisedIff(w, l, a, b); }
  }

  /** The left operand's outcome as the outcome of the whole. */
  lemma LeftPromisedIff(w: World, l: Outcome, a: Infer, b: Infer)
    requires Promised(w, l, a.ty, a.env, a.rets)
    ensures Promised(w, l, Join(a.ty, b.ty), b.env, a.rets + b.rets) <==> (l.Normal? ==> Fits(w, l.s, b.env))
  {
    if l.Normal? { JoinMeaning(w, l.v, a.ty, b.ty); }
    if l.Returned? { ReturnTypedConcat(w, l.v, a.rets, b.rets); }
  }

  lemma RunAndOr(rt: Runtime, e: Expr, s: Store)
    requires e.And? || e.Or?
    ensures var l := Eval(rt, e.l, s);
            Eval(rt, e, s) == if l.Normal? && !Skips(e, l.v) then Eval(rt, e.r, l.s) else l
  {}

  /** The left operand of `e` has a value, skips the right one and changes nothing. */
  predicate AlwaysSkips(rt: Runtime, e: Expr, s: Store)
    requires e.And? || e.Or?
  {
    var l := Eval(rt, e.l, s);
    l.Normal? && Skips(e, l.v) && l.s == s
  }

  /** A left operand that skips from every store and changes none, such as a literal or an unknown call: then the
      condition is that walking `r` only widens the environment. */
  lemma SkippedSoundByName(rt: Runtime, cx: Context, e: Expr, env: Env)
    requires Honest(rt, cx) && (e.And? || e.Or?) && Covered(e.l, cx.closed) && Covered(e.r, cx.closed)
    requires EnvInhabited(env)
    requires forall s :: Fits(rt.w, s, env) ==> AlwaysSkips(rt, e, s)
    ensures (forall s :: SoundFor(rt, cx, e, env, s)) <==> Widens(rt.w, env, InferExpr(cx, e, env).env)
  {
    var after := InferExpr(cx, e, env).env;
    SkippedSoundIff(rt, cx, e, env);
    WidensIff(rt.w, env, after);
    assert forall s :: SkipFits(rt, e, env, after, s) <==> (Fits(rt.w, s, env) ==> Fits(rt.w, s, after));
  }

  /** With any left operand, a right operand that widens is covered whether it runs or not, writes and all. */
  lemma WideningOperandSound(rt: Runtime, cx: Context, e: Expr, env: Env, s: Store)
    requires (e.And? || e.Or?) && Covered(e.l, cx.closed) && Covered(e.r, cx.closed)
    requires var a := InferExpr(cx, e.l, env); Widens(rt.w, a.env, InferExpr(cx, e.r, a.env).env)
    ensures SoundFor(rt, cx, e, env, s)
  {
    if Ready(rt, cx, env, s) {
      SkippedSoundAt(rt, cx, e, env, s);
      WidenedSkipFits(rt, cx, e, env, s);
    }
  }

  lemma WidenedSkipFits(rt: Runtime, cx: Context, e: Expr, env: Env, s: Store)
    requires Ready(rt, cx, env, s) && (e.And? || e.Or?) && Covered(e.l, cx.closed)
    requires var a := InferExpr(cx, e.l, env); Widens(rt.w, a.env, InferExpr(cx, e.r, a.env).env)
    ensures SkipFits(rt, e, env, InferExpr(cx, e, env).env, s)
  {
    var a, l := InferExpr(cx, e.l, env), Eval(rt, e.l, s);
    Sound(rt, cx, e.l, env, s);
    InferAndOr(cx, e, env);
    if l.Normal? { WidenedStoreFits(rt.w, a.env, InferExpr(cx, e.r, a.env).env, l.s); }
  }

  // ----- `||=` and `&&=` -----

  /** The stores in which `x ||= e` (`x &&= e`) leaves `e` alone. */
  ghost predicate LeavesAlone(e: Expr, s: Store)
    requires e.OrWrite? || e.AndWrite?
  {
    Truthy(Get(s, e.x)) == e.OrWrite?
  }

  /** Name by name, `after` allows everything `before` allows in a store whose `x` is truthy (falsy). */
  ghost predicate WidensWhere(w: World, before: Env, after: Env, x: string, truthy: bool) {
    (exists v :: Has(w, v, TyIn(before, x)) && Truthy(v) == truthy) ==>
      && (forall y: string :: y != x ==> Included(w, TyIn(before, y), TyIn(after, y)))
      && forall v :: Has(w, v, TyIn(before, x)) && Truthy(v) == truthy ==> Has(w, v, TyIn(after, x))
  }

  lemma WidensWhereIff(w: World, before: Env, after: Env, x: string, truthy: bool)
    requires EnvInhabited(before)
    ensures WidensWhere(w, before, after, x, truthy) <==>
            forall s :: Fits(w, s, before) && Truthy(Get(s, x)) == truthy ==> Fits(w, s, after)
  {
    if WidensWhere(w, before, after, x, truthy) {
      forall s | Fits(w, s, before) && Truthy(Get(s, x)) == truthy ensures Fits(w, s, after) {
        WidenedWhereFits(w, before, after, x, truthy, s);
      }
    }
    if forall s :: Fits(w, s, before) && Truthy(Get(s, x)) == truthy ==> Fits(w, s, after) {
      FitsWidened(w, before, after, x, truthy);
    }
  }

  lemma WidenedWhereFits(w: World, before: Env, after: Env, x: string, truthy: bool, s: Store)
    requires WidensWhere(w, before, after, x, truthy) && Fits(w, s, before) && Truthy(Get(s, x)) == truthy
    ensures Fits(w, s, after)
  {
    FitsByName(w, s, before);
    FitsByName(w, s, after);
    assert Has(w, Get(s, x), TyIn(before, x));
    forall y ensures Has(w, Get(s, y), TyIn(after, y)) {
      if y != x { assert Included(w, TyIn(before, y), TyIn(after, y)); }
    }
  }

  lemma FitsWidened(w: World, before: Env, after: Env, x: string, truthy: bool)
    requires EnvInhabited(before)
    requires forall s :: Fits(w, s, before) && Truthy(Get(s, x)) == truthy ==> Fits(w, s, after)
    ensures WidensWhere(w, before, after, x, truthy)
  {
    forall v | Has(w, v, TyIn(before, x)) && Truthy(v) == truthy ensures Has(w, v, TyIn(after, x)) {
      StoreWithFits(w, before, x, v);
      FitsByName(w, StoreWith(before, x, v), after);
    }
    if v :| Has(w, v, TyIn(before, x)) && Truthy(v) == truthy {
      forall y: string | y != x ensures Included(w, TyIn(before, y), TyIn(after, y)) {
        forall u | Has(w, u, TyIn(before, y)) ensures Has(w, u, TyIn(after, y)) {
          StoreWithBothFits(w, before, x, v, y, u);
          FitsByName(w, StoreWith(before, x, v)[y := u], after);
        }
      }
    }
  }

  lemma StoreWithBothFits(w: World, env: Env, x: string, v: Value, y: string, u: Value)
    requires EnvInhabited(env) && x != y && Has(w, v, TyIn(env, x)) && Has(w, u, TyIn(env, y))
    ensures var s := StoreWith(env, x, v)[y := u]; Fits(w, s, env) && Get(s, x) == v && Get(s, y) == u
  {
    var t := StoreWith(env, x, v);
    var s := t[y := u];
    StoreWithFits(w, env, x, v);
    FitsByName(w, t, env);
    forall z ensures Has(w, Get(s, z), TyIn(env, z)) {
      if z != y { assert Get(s, z) == Get(t, z); }
    }
    FitsByName(w, s, env);
  }

  /** `x ||= e` and `x &&= e`, whatever `e` writes: sound in every run exactly when, name by name, the environment left
      allows the stores in which `e` is left alone. */
  lemma OpAssignSoundIff(rt: Runtime, cx: Context, e: Expr, env: Env)
    requires Honest(rt, cx) && (e.OrWrite? || e.AndWrite?) && Covered(e.e, cx.closed) && EnvInhabited(env)
    ensures (forall s :: SoundFor(rt, cx, e, env, s)) <==>
            WidensWhere(rt.w, env, InferExpr(cx, e, env).env, e.x, e.OrWrite?)
  {
    var after := InferExpr(cx, e, env).env;
    WidensWhereIff(rt.w, env, after, e.x, e.OrWrite?);
    forall s
      ensures SoundFor(rt, cx, e, env, s) <==> (Fits(rt.w, s, env) && LeavesAlone(e, s) ==> Fits(rt.w, s, after))
    {
      OpAssignAt(rt, cx, e, env, s);
    }
  }

  lemma OpAssignAt(rt: Runtime, cx: Context, e: Expr, env: Env, s: Store)
    requires Honest(rt, cx) && (e.OrWrite? || e.AndWrite?) && Covered(e.e, cx.closed)
    ensures SoundFor(rt, cx, e, env, s) <==>
            (Fits(rt.w, s, env) && LeavesAlone(e, s) ==> Fits(rt.w, s, InferExpr(cx, e, env).env))
  {
    OpAssignShape(rt, cx, e, env, s);
    if Fits(rt.w, s, env) {
      if !LeavesAlone(e, s) { Sound(rt, cx, e.e, env, s); }
      AssignPromisedIff(rt.w, s, Eval(rt, e.e, s), LeavesAlone(e, s), InferExpr(cx, e.e, env), e.x,
                        InferExpr(cx, e, env));
    }
  }

  lemma AssignPromisedIff(w: World, s: Store, o: Outcome, alone: bool, v: Infer, x: string, r: Infer)
    requires !alone ==> Promised(w, o, v.ty, v.env, v.rets)
    requires r.rets == v.rets && r.env == v.env[x := r.ty]
    requires r.ty == Unknown || r.ty == Join(Lookup(v.env, x, Nil), v.ty)
    ensures var out := if alone then Normal(Get(s, x), s) else if o.Normal? then Normal(o.v, o.s[x := o.v]) else o;
            Promised(w, out, r.ty, r.env, r.rets) <==> (alone ==> Fits(w, s, r.env))
  {
    if !alone {
      AssignedPromised(w, o, v, x, r);
    } else if Fits(w, s, r.env) {
      assert Has(w, Get(s, x), r.env[x]);
    }
  }

  /** The value, once assigned, has the type bound to the name. */
  lemma AssignedPromised(w: World, o: Outcome, v: Infer, x: string, r: Infer)
    requires Promised(w, o, v.ty, v.env, v.rets)
    requires r.rets == v.rets && r.env == v.env[x := r.ty]
    requires r.ty == Unknown || r.ty == Join(Lookup(v.env, x, Nil), v.ty)
    ensures Promised(w, if o.Normal? then Normal(o.v, o.s[x := o.v]) else o, r.ty, r.env, r.rets)
  {
    if o.Normal? {
      JoinMeaning(w, o.v, Lookup(v.env, x, Nil), v.ty);
      FitsAssign(w, o.s, v.env, x, o.v, r.ty);
    }
  }

  lemma OpAssignShape(rt: Runtime, cx: Context, e: Expr, env: Env, s: Store)
    requires e.OrWrite? || e.AndWrite?
    ensures var v := InferExpr(cx, e.e, env);
            var ty := if e.OrWrite? then Join(Lookup(v.env, e.x, Nil), v.ty) else Unknown;
            InferExpr(cx, e, env) == Infer(ty, v.env[e.x := ty], v.rets)
    ensures var o := Eval(rt, e.e, s);
            Eval(rt, e, s) == if LeavesAlone(e, s) then Normal(Get(s, e.x), s)
                              else if o.Normal? then Normal(o.v, o.s[e.x := o.v]) else o
  {}

  // ----- deciding the condition -----

  /** Where `compatible` is exact, the condition is decided by `compatible`, one name at a time. */
  predicate Checked(before: Env, after: Env, idx: Index) {
    forall x :: x in before.Keys + after.Keys ==> Compatible(TyIn(before, x), TyIn(after, x), idx)
  }

  ghost predicate Known(env: Env) { forall x :: x in env ==> NoUnknown(env[x]) }

  ghost predicate Exact(env: Env, idx: Index) {
    EnvInhabited(env) && forall x :: x in env ==> WideKeys(env[x]) && CompleteFor(env[x], idx)
  }

  lemma WidensByCompatible(w: World, idx: Index, before: Env, after: Env)
    requires idx.Describes(w) && w.Transitive() && Known(before) && Known(after) && Exact(before, idx)
    ensures Widens(w, before, after) <==> Checked(before, after, idx)
  {
    forall x: string
      ensures Included(w, TyIn(before, x), TyIn(after, x)) <==> Compatible(TyIn(before, x), TyIn(after, x), idx)
    {
      CompatibleIsInclusion(w, idx, TyIn(before, x), TyIn(after, x));
    }
    assert forall x: string :: x !in before.Keys + after.Keys ==> TyIn(before, x) == Nil && TyIn(after, x) == Nil;
  }
}
