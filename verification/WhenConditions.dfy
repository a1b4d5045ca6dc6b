/** `when` conditions that write: a condition after the one that matches is walked but never run. */
module WhenConditions {
  import opened Types
  import opened Compat
  import opened Ruby
  import opened Flow
  import opened FlowSound
  import opened SkippedOperands

  // ----- when walking the conditions is harmless -----

  /** Walking each condition but the very first only widens the environment. */
  ghost predicate CondsWiden(w: World, cx: Context, conds: seq<Expr>, env: Env, first: bool)
    decreases |conds|
  {
    conds == [] ||
    var after := InferExpr(cx, conds[0], env).env;
    (first || Widens(w, env, after)) && CondsWiden(w, cx, conds[1..], after, false)
  }

  /** The same through all clauses. */
  ghost predicate WhensWiden(w: World, cx: Context, whens: seq<When>, env: Env, first: bool)
    decreases |whens|
  {
    whens == [] ||
    (CondsWiden(w, cx, whens[0].conds, env, first) &&
     WhensWiden(w, cx, whens[1..], InferList(cx, whens[0].conds, env).env, first && whens[0].conds == []))
  }

  /** No clause narrows the subject variable after a condition that may have rebound it. */
  predicate KeepsSubject(whens: seq<When>, x: Option<string>, closed: bool, kept: bool)
    decreases |whens|
  {
    whens == [] ||
    ((x.Some? && NarrowOfWhen(whens[0].conds, closed).Some? ==> kept) &&
     KeepsSubject(whens[1..], x, closed, kept && AllPassive(whens[0].conds, closed)))
  }

  predicate ClausesCovered(whens: seq<When>, closed: bool)
    decreases |whens|
  {
    whens == [] ||
    (AllCovered(whens[0].conds, closed) && AllCovered(whens[0].body, closed) && ClausesCovered(whens[1..], closed))
  }

  lemma WidensThen(w: World, a: Env, b: Env, c: Env)
    requires Widens(w, a, b) && Widens(w, b, c)
    ensures Widens(w, a, c)
  {
    forall x: string ensures Included(w, TyIn(a, x), TyIn(c, x)) {
      assert Included(w, TyIn(a, x), TyIn(b, x)) && Included(w, TyIn(b, x), TyIn(c, x));
    }
  }

  lemma WidensSelf(w: World, env: Env)
    ensures Widens(w, env, env)
  {}

  lemma {:induction false} CondsWidened(w: World, cx: Context, conds: seq<Expr>, env: Env)
    requires CondsWiden(w, cx, conds, env, false)
    ensures Widens(w, env, InferList(cx, conds, env).env)
    decreases |conds|
  {
    if conds == [] {
      WidensSelf(w, env);
    } else {
      var after := InferExpr(cx, conds[0], env).env;
      CondsWidened(w, cx, conds[1..], after);
      WidensThen(w, env, after, InferList(cx, conds, env).env);
    }
  }

  lemma {:induction false} WhensWidened(w: World, cx: Context, whens: seq<When>, x: Option<string>, env: Env)
    requires WhensWiden(w, cx, whens, env, false)
    ensures Widens(w, env, InferWhens(cx, whens, x, env).env)
    decreases |whens|
  {
    if whens == [] {
      WidensSelf(w, env);
    } else {
      var after := InferList(cx, whens[0].conds, env).env;
      CondsWidened(w, cx, whens[0].conds, env);
      WhensWidened(w, cx, whens[1..], x, after);
      WidensThen(w, env, after, InferWhens(cx, whens, x, env).env);
    }
  }

  // ----- running the conditions -----

  /** Wherever the conditions stop, the store fits what walking all of them leaves. */
  lemma {:induction false} CondsRun(rt: Runtime, cx: Context, conds: seq<Expr>, v: Option<Value>, env: Env, s: Store,
                                    first: bool)
    requires Ready(rt, cx, env, s) && AllCovered(conds, cx.closed) && CondsWiden(rt.w, cx, conds, env, first)
    ensures var o, c := EvalConds(rt, conds, v, s), InferList(cx, conds, env);
            && (o.Matched? || o.NoMatch? ==> Fits(rt.w, o.s, c.env))
            && (o.Abort? && o.out.Returned? ==> ReturnTyped(rt.w, o.out.v, c.rets))
    decreases |conds|
  {
    if conds != [] {
      var h := InferExpr(cx, conds[0], env);
      var rest := InferList(cx, conds[1..], h.env);
      var o := Eval(rt, conds[0], s);
      Sound(rt, cx, conds[0], env, s);
      if o.Normal? {
        if CondHolds(rt, conds[0], o.v, v) {
          CondsWidened(rt.w, cx, conds[1..], h.env);
          WidenedStoreFits(rt.w, h.env, rest.env, o.s);
        } else {
          CondsRun(rt, cx, conds[1..], v, h.env, o.s, false);
        }
      }
      AbortTyped(rt, conds, v, s, h, rest);
    }
  }

  lemma AbortTyped(rt: Runtime, conds: seq<Expr>, v: Option<Value>, s: Store, h: Infer, rest: InferMany)
    requires conds != []
    requires var o := Eval(rt, conds[0], s); o.Returned? ==> ReturnTyped(rt.w, o.v, h.rets)
    requires var o := Eval(rt, conds[0], s);
             o.Normal? && !CondHolds(rt, conds[0], o.v, v) ==>
               var t := EvalConds(rt, conds[1..], v, o.s);
               t.Abort? && t.out.Returned? ==> ReturnTyped(rt.w, t.out.v, rest.rets)
    ensures var o := EvalConds(rt, conds, v, s);
            o.Abort? && o.out.Returned? ==> ReturnTyped(rt.w, o.out.v, h.rets + rest.rets)
  {
    var o := EvalConds(rt, conds, v, s);
    if o.Abort? && o.out.Returned? { ReturnTypedConcat(rt.w, o.out.v, h.rets, rest.rets); }
  }

  // ----- the clauses -----

  /** The clause taken is as inferred, and what only others know of may be nil; falling through fits what all the
      conditions leave. */
  ghost predicate PromisedWhens(w: World, o: CaseOutcome, r: InferCase) {
    match o
    case Took(i, out) =>
      i < |r.tys| == |r.envs| && Promised(w, out, r.tys[i], r.envs[i], r.rets) &&
      forall x :: x in r.env && x !in r.envs[i] ==> Has(w, VNil, r.env[x])
    case Broke(out) => out.Returned? ==> ReturnTyped(w, out.v, r.rets)
    case Fell(s) => Fits(w, s, r.env)
  }

  lemma TookFirst(w: World, out: Outcome, c: InferMany, b: InferMany, rest: InferCase)
    requires |rest.tys| == |rest.envs| && c.env.Keys <= b.env.Keys && Widens(w, c.env, rest.env)
    requires Promised(w, out, LastTy(b.tys), b.env, b.rets)
    ensures PromisedWhens(w, Took(0, out), WhenCons(c, b, rest))
  {
    if out.Returned? { ReturnTypedThree(w, out.v, c.rets, b.rets, rest.rets); }
    forall x | x in rest.env && x !in b.env ensures Has(w, VNil, rest.env[x]) {
      assert Included(w, TyIn(c.env, x), TyIn(rest.env, x)) && Has(w, VNil, TyIn(c.env, x));
    }
  }

  lemma TookLater(w: World, o: CaseOutcome, c: InferMany, b: InferMany, rest: InferCase)
    requires PromisedWhens(w, o, rest)
    ensures PromisedWhens(w, if o.Took? then Took(o.branch + 1, o.out) else o, WhenCons(c, b, rest))
  {
    if (o.Took? || o.Broke?) && o.out.Returned? {
      ReturnTypedThree(w, o.out.v, c.rets, b.rets, rest.rets);
    }
  }

  lemma WhensStep(rt: Runtime, whens: seq<When>, v: Option<Value>, s: Store)
    requires whens != []
    ensures var o := EvalConds(rt, whens[0].conds, v, s);
            EvalWhens(rt, whens, v, s) ==
              if o.Matched? then Took(0, EvalBody(rt, whens[0].body, o.s))
              else if o.NoMatch? then
                var rest := EvalWhens(rt, whens[1..], v, o.s);
                if rest.Took? then Took(rest.branch + 1, rest.out) else rest
              else Broke(o.out)
  {}

  /** A clause that narrows has only constants for conditions, so the subject variable still holds the subject. */
  lemma {:induction false} NarrowedPassive(conds: seq<Expr>, closed: bool)
    requires forall i :: 0 <= i < |conds| ==> conds[i].ConstRef?
    ensures AllPassive(conds, closed)
    decreases |conds|
  {
    if conds != [] { NarrowedPassive(conds[1..], closed); }
  }

  lemma StartFits(rt: Runtime, conds: seq<Expr>, closed: bool, x: Option<string>, v: Option<Value>, env: Env, s: Store,
                  s': Store, kept: bool)
    requires EvalConds(rt, conds, v, s) == Matched(s') && Fits(rt.w, s', env)
    requires x.Some? && kept ==> v == Some(Get(s, x.value))
    requires x.Some? && NarrowOfWhen(conds, closed).Some? ==> kept
    ensures Fits(rt.w, s', BranchStart(env, x, NarrowOfWhen(conds, closed)))
  {
    if x.Some? && NarrowOfWhen(conds, closed).Some? {
      forall i | 0 <= i < |conds| ensures conds[i].ConstRef? { ClauseIsConstants(conds, closed, i); }
      NarrowedPassive(conds, closed);
      var _ := MatchedBy(rt, conds, closed, v, s);
      BranchStartFits(rt, conds, closed, x, v, env, s);
    }
  }

  lemma ClauseTaken(rt: Runtime, cx: Context, when: When, x: Option<string>, v: Option<Value>, c: InferMany, s: Store,
                    s': Store, kept: bool)
    requires Honest(rt, cx) && AllCovered(when.body, cx.closed)
    requires EvalConds(rt, when.conds, v, s) == Matched(s') && Fits(rt.w, s', c.env)
    requires x.Some? && kept ==> v == Some(Get(s, x.value))
    requires x.Some? && NarrowOfWhen(when.conds, cx.closed).Some? ==> kept
    ensures var b := InferList(cx, when.body, BranchStart(c.env, x, NarrowOfWhen(when.conds, cx.closed)));
            Promised(rt.w, EvalBody(rt, when.body, s'), LastTy(b.tys), b.env, b.rets)
  {
    StartFits(rt, when.conds, cx.closed, x, v, c.env, s, s', kept);
    SoundBody(rt, cx, when.body, BranchStart(c.env, x, NarrowOfWhen(when.conds, cx.closed)), s');
  }

  /** A clause that matched had a condition, so all conditions after it widen. */
  lemma LaterWidens(rt: Runtime, cx: Context, whens: seq<When>, x: Option<string>, v: Option<Value>, env: Env, s: Store,
                    first: bool)
    requires whens != [] && WhensWiden(rt.w, cx, whens, env, first) && EvalConds(rt, whens[0].conds, v, s).Matched?
    ensures var after := InferList(cx, whens[0].conds, env).env;
            Widens(rt.w, after, InferWhens(cx, whens[1..], x, after).env)
  {
    assert whens[0].conds != [];
    WhensWidened(rt.w, cx, whens[1..], x, InferList(cx, whens[0].conds, env).env);
  }

  lemma {:induction false} FirstTaken(rt: Runtime, cx: Context, whens: seq<When>, x: Option<string>, v: Option<Value>,
                                      env: Env, s: Store, first: bool, kept: bool)
    requires whens != [] && Honest(rt, cx) && ClausesCovered(whens, cx.closed)
    requires WhensWiden(rt.w, cx, whens, env, first) && KeepsSubject(whens, x, cx.closed, kept)
    requires x.Some? && kept ==> v == Some(Get(s, x.value))
    requires var o := EvalConds(rt, whens[0].conds, v, s);
             o.Matched? && Fits(rt.w, o.s, InferList(cx, whens[0].conds, env).env)
    ensures PromisedWhens(rt.w, EvalWhens(rt, whens, v, s), InferWhens(cx, whens, x, env))
  {
    var c := InferList(cx, whens[0].conds, env);
    var b := InferList(cx, whens[0].body, BranchStart(c.env, x, NarrowOfWhen(whens[0].conds, cx.closed)));
    var rest := InferWhens(cx, whens[1..], x, c.env);
    var o := EvalConds(rt, whens[0].conds, v, s);
    assert InferWhens(cx, whens, x, env) == WhenCons(c, b, rest);
    WhensStep(rt, whens, v, s);
    LaterWidens(rt, cx, whens, x, v, env, s, first);
    ClauseTaken(rt, cx, whens[0], x, v, c, s, o.s, kept);
    TookFirst(rt.w, EvalBody(rt, whens[0].body, o.s), c, b, rest);
  }

  lemma {:induction false} WhensRun(rt: Runtime, cx: Context, whens: seq<When>, x: Option<string>, v: Option<Value>,
                                    env: Env, s: Store, first: bool, kept: bool)
    requires Ready(rt, cx, env, s) && ClausesCovered(whens, cx.closed)
    requires WhensWiden(rt.w, cx, whens, env, first) && KeepsSubject(whens, x, cx.closed, kept)
    requires x.Some? && kept ==> v == Some(Get(s, x.value))
    ensures PromisedWhens(rt.w, EvalWhens(rt, whens, v, s), InferWhens(cx, whens, x, env))
    decreases |whens|
  {
    if whens != [] {
      var conds := whens[0].conds;
      var c := InferList(cx, conds, env);
      var start := BranchStart(c.env, x, NarrowOfWhen(conds, cx.closed));
      var b, rest := InferList(cx, whens[0].body, start), InferWhens(cx, whens[1..], x, c.env);
      var o := EvalConds(rt, conds, v, s);
      assert InferWhens(cx, whens, x, env) == WhenCons(c, b, rest);
      WhensStep(rt, whens, v, s);
      CondsRun(rt, cx, conds, v, env, s, first);
      if o.Matched? {
        FirstTaken(rt, cx, whens, x, v, env, s, first, kept);
      } else if o.NoMatch? {
        var still := kept && AllPassive(conds, cx.closed);
        if still { CondsPassiveStay(rt, conds, cx.closed, v, s); }
        WhensRun(rt, cx, whens[1..], x, v, c.env, o.s, first && conds == [], still);
        TookLater(rt.w, EvalWhens(rt, whens[1..], v, o.s), c, b, rest);
      } else if o.out.Returned? {
        ReturnTypedThree(rt.w, o.out.v, c.rets, b.rets, rest.rets);
      }
    }
  }

  // ----- the whole `case` -----

  /** Are the conditions of a `case`, from the environment its subject leaves, harmless to walk? */
  ghost predicate CaseWidens(w: World, cx: Context, e: Expr, env: Env)
    requires e.Case?
  {
    var p := InferOpt(cx, e.subject, env);
    WhensWiden(w, cx, e.whens, p.env, true) && KeepsSubject(e.whens, SubjectVar(e.subject), cx.closed, true)
  }

  /** A `case` whose conditions after the first only widen the environment is covered, writes and all. */
  lemma WideningConditionsSound(rt: Runtime, cx: Context, e: Expr, env: Env, s: Store)
    requires e.Case? && OptCovered(e.subject, cx.closed) && ClausesCovered(e.whens, cx.closed)
    requires OptCovered(e.els, cx.closed) && CaseWidens(rt.w, cx, e, env)
    ensures SoundFor(rt, cx, e, env, s)
  {
    if Ready(rt, cx, env, s) {
      SoundOpt(rt, cx, e.subject, env, s);
      var p, x := InferOpt(cx, e.subject, env), SubjectVar(e.subject);
      var c := InferWhens(cx, e.whens, x, p.env);
      var f, o := InferOpt(cx, e.els, c.env), EvalOpt(rt, e.subject, s);
      if o.Normal? {
        var v := if e.subject.Some? then Some(o.v) else None;
        if x.Some? { SubjectIsRead(rt, e.subject, s); }
        WhensRun(rt, cx, e.whens, x, v, p.env, o.s, true, true);
        var t := EvalWhens(rt, e.whens, v, o.s);
        if t.Fell? { SoundOpt(rt, cx, e.els, c.env, t.s); }
        JoinedWhens(rt, t, p, c, f, if t.Fell? then EvalOpt(rt, e.els, t.s) else t.out);
      } else if o.Returned? {
        ReturnTypedThree(rt.w, o.v, p.rets, c.rets, f.rets);
      }
      CaseShape(cx, e, env);
      CaseRuns(rt, e, s);
    }
  }

  lemma JoinedWhens(rt: Runtime, t: CaseOutcome, p: Infer, c: InferCase, f: Infer, out: Outcome)
    requires |c.envs| == |c.tys| && c.env.Keys <= f.env.Keys && PromisedWhens(rt.w, t, c)
    requires if t.Fell? then Promised(rt.w, out, f.ty, f.env, f.rets) else out == t.out
    requires t.Broke? ==> !out.Normal?
    ensures Promised(rt.w, out, Join(ClausesTy(c.tys), f.ty), JoinEnvs(c.env, c.envs + [f.env]),
                     p.rets + c.rets + f.rets)
  {
    if out.Returned? {
      ReturnTypedThree(rt.w, out.v, p.rets, c.rets, f.rets);
    } else if out.Normal? {
      JoinCase(rt.w, out.v, out.s, c, f, if t.Took? then t.branch else |c.envs|);
    }
  }

  lemma CaseShape(cx: Context, e: Expr, env: Env)
    requires e.Case?
    ensures var p := InferOpt(cx, e.subject, env);
            var c := InferWhens(cx, e.whens, SubjectVar(e.subject), p.env);
            var f := InferOpt(cx, e.els, c.env);
            InferExpr(cx, e, env) ==
            Infer(Join(ClausesTy(c.tys), f.ty), JoinEnvs(c.env, c.envs + [f.env]), p.rets + c.rets + f.rets)
  {}

  lemma CaseRuns(rt: Runtime, e: Expr, s: Store)
    requires e.Case?
    ensures var o := EvalOpt(rt, e.subject, s);
            Eval(rt, e, s) ==
            if !o.Normal? then o
            else
              var t := EvalWhens(rt, e.whens, if e.subject.Some? then Some(o.v) else None, o.s);
              if t.Fell? then EvalOpt(rt, e.els, t.s) else t.out
  {}

  // ----- exactly when, where the first condition always matches -----

  /** What the body of the first clause is inferred to have. */
  function FirstTy(cx: Context, e: Expr, env: Env): Ty
    requires e.Case? && e.whens != []
  {
    InferWhens(cx, e.whens, SubjectVar(e.subject), InferOpt(cx, e.subject, env).env).tys[0]
  }

  /** From `s` the subject, the first condition and the body of its clause run without changing the store; the condition
      is met and the body has the type inferred for it. */
  ghost predicate TakenAt(rt: Runtime, cx: Context, e: Expr, env: Env, s: Store)
    requires e.Case? && e.whens != [] && e.whens[0].conds != []
  {
    var o, c, b := EvalOpt(rt, e.subject, s), Eval(rt, e.whens[0].conds[0], s), EvalBody(rt, e.whens[0].body, s);
    && o.Normal? && o.s == s && c.Normal? && c.s == s && b.Normal? && b.s == s
    && CondHolds(rt, e.whens[0].conds[0], c.v, if e.subject.Some? then Some(o.v) else None)
    && Has(rt.w, b.v, FirstTy(cx, e, env))
  }

  /** The first condition is met in every store of the environment, such as a literal `true`, and nothing run writes. */
  ghost predicate AlwaysTaken(rt: Runtime, cx: Context, e: Expr, env: Env) {
    e.Case? && e.whens != [] && e.whens[0].conds != [] && forall s :: Fits(rt.w, s, env) ==> TakenAt(rt, cx, e, env, s)
  }

  /** Then, whatever the other conditions, clauses and the else do, the `case` is sound in every run exactly when all
      that is walked only widens the environment. */
  lemma SkippedConditionsSoundIff(rt: Runtime, cx: Context, e: Expr, env: Env)
    requires Honest(rt, cx) && AlwaysTaken(rt, cx, e, env) && EnvInhabited(env)
    ensures (forall s :: SoundFor(rt, cx, e, env, s)) <==> Widens(rt.w, env, InferExpr(cx, e, env).env)
  {
    WidensIff(rt.w, env, InferExpr(cx, e, env).env);
    forall s
      ensures SoundFor(rt, cx, e, env, s) <==> (Fits(rt.w, s, env) ==> Fits(rt.w, s, InferExpr(cx, e, env).env))
    {
      if Fits(rt.w, s, env) { TakenSound(rt, cx, e, env, s); }
    }
  }

  lemma TakenSound(rt: Runtime, cx: Context, e: Expr, env: Env, s: Store)
    requires e.Case? && e.whens != [] && e.whens[0].conds != [] && TakenAt(rt, cx, e, env, s) && Ready(rt, cx, env, s)
    ensures SoundFor(rt, cx, e, env, s) <==> Fits(rt.w, s, InferExpr(cx, e, env).env)
  {
    TakenRun(rt, cx, e, env, s);
    TakenTy(rt.w, EvalBody(rt, e.whens[0].body, s).v, cx, e, env);
  }

  lemma TakenRun(rt: Runtime, cx: Context, e: Expr, env: Env, s: Store)
    requires e.Case? && e.whens != [] && e.whens[0].conds != [] && TakenAt(rt, cx, e, env, s)
    ensures Eval(rt, e, s) == Normal(EvalBody(rt, e.whens[0].body, s).v, s)
  {
    var o := EvalOpt(rt, e.subject, s);
    var v := if e.subject.Some? then Some(o.v) else None;
    assert EvalConds(rt, e.whens[0].conds, v, s) == Matched(s);
    WhensStep(rt, e.whens, v, s);
    CaseRuns(rt, e, s);
  }

  lemma TakenTy(w: World, v: Value, cx: Context, e: Expr, env: Env)
    requires e.Case? && e.whens != [] && Has(w, v, FirstTy(cx, e, env))
    ensures Has(w, v, InferExpr(cx, e, env).ty)
  {
    var p := InferOpt(cx, e.subject, env);
    var c := InferWhens(cx, e.whens, SubjectVar(e.subject), p.env);
    JoinAllMeaning(w, v, c.tys[0], c.tys[1..]);
    JoinMeaning(w, v, ClausesTy(c.tys), InferOpt(cx, e.els, c.env).ty);
    CaseShape(cx, e, env);
  }

  // ----- two conditions that are not harmless -----

  /** `case when true, (x = 1) then end`: the second condition is walked but never run, and `x` stays nil. */
  lemma SkippedConditionUnsound()
    ensures !SoundFor(QuietRuntime(), PlainContext(), SkippedCondition(), map[], map[])
  {
    ConditionRun();
    ConditionEnv();
  }

  lemma ConditionRun()
    ensures Eval(QuietRuntime(), SkippedCondition(), map[]) == Normal(VNil, map[])
  {
    var w, t, rt := Write("x", IntLit(1)), BoolLit(true), QuietRuntime();
    assert EvalConds(rt, [t, w], None, map[]) == Matched(map[]);
    assert EvalWhens(rt, [When([t, w], [])], None, map[]) == Took(0, Normal(VNil, map[]));
  }

  function SkippedCondition(): Expr { Case(None, [When([BoolLit(true), Write("x", IntLit(1))], [])], None) }

  lemma BothInt(known: Env)
    requires known == map["x" := Int]
    ensures "x" in JoinEnvs(known, [known] + [known]) && JoinEnvs(known, [known] + [known])["x"] == Int
  {
    var two := [known] + [known];
    BranchKeysAt(two, 0);
    assert BranchTys(known, two, "x") == [Int, Int];
    assert [Int, Int][1..] == [Int] && [Int][1..] == [];
  }

  lemma ConditionEnv()
    ensures var e := InferExpr(PlainContext(), SkippedCondition(), map[]).env; "x" in e && e["x"] == Int
  {
    var conds, cx := [BoolLit(true), Write("x", IntLit(1))], PlainContext();
    var whens := [When(conds, [])];
    var known: Env := map["x" := Int];
    CondsEnv(known);
    WhensEnv(known);
    CaseShape(cx, SkippedCondition(), map[]);
    assert SkippedCondition() == Case(None, whens, None);
    BothInt(known);
  }

  lemma CondsEnv(known: Env)
    requires known == map["x" := Int]
    ensures InferList(PlainContext(), [BoolLit(true), Write("x", IntLit(1))], map[]).env == known
  {
    var w, t, cx := Write("x", IntLit(1)), BoolLit(true), PlainContext();
    assert [t, w][1..] == [w] && [w][1..] == [];
    assert InferExpr(cx, t, map[]).env == map[];
    assert InferExpr(cx, w, map[]).env == known;
    assert InferList(cx, [w], map[]).env == known;
  }

  lemma WhensEnv(known: Env)
    requires known == map["x" := Int]
    ensures var c := InferWhens(PlainContext(), [When([BoolLit(true), Write("x", IntLit(1))], [])], None, map[]);
            c.env == known && c.envs == [known]
  {
    var conds := [BoolLit(true), Write("x", IntLit(1))];
    var whens := [When(conds, [])];
    CondsEnv(known);
    assert whens[1..] == [] && whens[0].conds == conds;
    assert NarrowOfWhen(conds, false).None?;
  }

  /** `case x when (x = "s") then; when C then x end`: the second clause narrows `x` to the class of the subject, which
      `x` no longer holds. Its conditions do widen. */
  lemma ReboundSubjectUnsound()
    ensures var env: Env, s: Store := map["x" := Instance(0)], map["x" := VObj(0, 0)];
            && !SoundFor(QuietRuntime(), PlainContext(), ReboundSubject(), env, s)
            && WhensWiden(QuietRuntime().w, PlainContext(), ReboundSubject().whens, env, true)
            && !KeepsSubject(ReboundSubject().whens, Some("x"), false, true)
  {
    ReboundRun();
    ReboundTy();
    ReboundWidens();
    ReboundLost();
    OutsideUnsound(QuietRuntime(), PlainContext(), ReboundSubject(), map["x" := Instance(0)], map["x" := VObj(0, 0)]);
  }

  lemma OutsideUnsound(rt: Runtime, cx: Context, e: Expr, env: Env, s: Store)
    requires rt == QuietRuntime() && cx == PlainContext() && Fits(rt.w, s, env)
    requires Eval(rt, e, s).Normal? && !Has(rt.w, Eval(rt, e, s).v, InferExpr(cx, e, env).ty)
    ensures !SoundFor(rt, cx, e, env, s)
  {}

  lemma ReboundLost()
    ensures !KeepsSubject(ReboundSubject().whens, Some("x"), false, true)
  {
    var whens := ReboundSubject().whens;
    assert whens[1..] == [When([ConstRef(Project(0))], [Read("x")])];
    assert NarrowOfWhen(whens[1].conds, false).Some?;
  }

  function ReboundSubject(): Expr {
    Case(Some(Read("x")),
         [When([Write("x", StrLit("s"))], []), When([ConstRef(Project(0))], [Read("x")])], None)
  }

  lemma ReboundRun()
    ensures var s: Store := map["x" := VObj(0, 0)];
            Eval(QuietRuntime(), ReboundSubject(), s) == Normal(VStr("s"), map["x" := VStr("s")])
  {
    var rt, v: Option<Value>, s: Store, t: Store :=
      QuietRuntime(), Some(VObj(0, 0)), map["x" := VObj(0, 0)], map["x" := VStr("s")];
    var first, second := When([Write("x", StrLit("s"))], []), When([ConstRef(Project(0))], [Read("x")]);
    assert EvalConds(rt, first.conds, v, s) == NoMatch(t) by {
      assert Eval(rt, Write("x", StrLit("s")), s) == Normal(VStr("s"), t);
      assert first.conds[1..] == [];
    }
    assert EvalConds(rt, second.conds, v, t) == Matched(t);
    assert EvalBody(rt, second.body, t) == Normal(VStr("s"), t) by {
      assert second.body[1..] == [];
      assert EvalList(rt, second.body, t) == Vals([VStr("s")] + [], t);
    }
    WhensStep(rt, [second], v, t);
    assert [first, second][1..] == [second];
    WhensStep(rt, [first, second], v, s);
  }

  lemma ReboundTy()
    ensures var env: Env := map["x" := Instance(0)];
            !Has(QuietRuntime().w, VStr("s"), InferExpr(PlainContext(), ReboundSubject(), env).ty)
  {
    var cx, env: Env := PlainContext(), map["x" := Instance(0)];
    ReboundTys(InferWhens(cx, ReboundSubject().whens, Some("x"), env).tys);
    NilOrInstance(cx, ReboundSubject(), "x", env, QuietRuntime().w);
  }

  lemma NilOrInstance(cx: Context, e: Expr, x: string, env: Env, w: World)
    requires e.Case? && e.subject == Some(Read(x)) && e.els.None?
    requires InferWhens(cx, e.whens, Some(x), env).tys == [Nil, Instance(0)]
    ensures !Has(w, VStr("s"), InferExpr(cx, e, env).ty)
  {
    ReadLeaves(cx, x, env);
    CaseTy(cx, e, env, [Nil, Instance(0)]);
    NoString(w, [Nil, Instance(0)]);
  }

  lemma ReadLeaves(cx: Context, x: string, env: Env)
    ensures InferOpt(cx, Some(Read(x)), env).env == env
  {}

  lemma CaseTy(cx: Context, e: Expr, env: Env, tys: seq<Ty>)
    requires e.Case? && e.els.None?
    requires tys == InferWhens(cx, e.whens, SubjectVar(e.subject), InferOpt(cx, e.subject, env).env).tys
    ensures InferExpr(cx, e, env).ty == Join(ClausesTy(tys), Nil)
  {
    CaseShape(cx, e, env);
  }

  lemma NoString(w: World, tys: seq<Ty>)
    requires tys == [Nil, Instance(0)]
    ensures !Has(w, VStr("s"), Join(ClausesTy(tys), Nil))
  {
    assert tys[1..] == [Instance(0)];
    JoinAllMeaning(w, VStr("s"), Nil, [Instance(0)]);
    JoinMeaning(w, VStr("s"), ClausesTy(tys), Nil);
  }

  lemma ReboundTys(tys: seq<Ty>)
    requires tys == InferWhens(PlainContext(), ReboundSubject().whens, Some("x"), map["x" := Instance(0)]).tys
    ensures tys == [Nil, Instance(0)]
  {
    var cx, env: Env, known: Env := PlainContext(), map["x" := Instance(0)], map["x" := Str];
    var first, second := When([Write("x", StrLit("s"))], []), When([ConstRef(Project(0))], [Read("x")]);
    assert [first, second][1..] == [second] && [second][1..] == [];
    assert InferList(cx, first.conds, env).env == known by {
      assert first.conds[1..] == [];
      assert InferExpr(cx, first.conds[0], env).env == known;
    }
    assert InferList(cx, second.conds, known).env == known by { assert second.conds[1..] == []; }
    assert NarrowOfWhen(first.conds, false).None? && NarrowOfWhen(second.conds, false) == Some(Instance(0));
    var start := BranchStart(known, Some("x"), Some(Instance(0)));
    assert InferList(cx, second.body, start).tys == [Instance(0)] by { assert second.body[1..] == []; }
    assert InferWhens(cx, [second], Some("x"), known).tys == [Instance(0)];
  }

  lemma ReboundWidens()
    ensures WhensWiden(QuietRuntime().w, PlainContext(), ReboundSubject().whens, map["x" := Instance(0)], true)
  {
    var cx, w, env: Env, known: Env := PlainContext(), QuietRuntime().w, map["x" := Instance(0)], map["x" := Str];
    var first, second := When([Write("x", StrLit("s"))], []), When([ConstRef(Project(0))], [Read("x")]);
    assert first.conds[1..] == [] && second.conds[1..] == [];
    assert InferExpr(cx, first.conds[0], env).env == known && InferList(cx, first.conds, env).env == known;
    WidensSelf(w, known);
    assert CondsWiden(w, cx, second.conds, known, false);
    assert [first, second][1..] == [second] && [second][1..] == [];
    assert WhensWiden(w, cx, [second], known, false);
  }
}
