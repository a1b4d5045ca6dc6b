/** What the flow analysis gains: soundness alone would let it know nothing. Here every store that fits a narrowed
    environment satisfies the fact it was narrowed by, and joins hold nothing their branches do not. */
module Precision {
  import opened Types
  import opened Ruby
  import opened Flow
  import opened FlowSound
  import WhenConditions

  // ----- members of unions -----

  /** `a` is of the class that `t` tests for; element types do not count. */
  predicate OfClass(a: Ty, t: Ty) {
    match t
    case Array(_) => a.Array?
    case Hash(_, _) => a.Hash?
    case _ => a == t
  }

  lemma {:induction false} WithoutElements(parts: seq<Ty>, t: Ty)
    ensures forall a :: a in Without(parts, t) <==> a in parts && !OfClass(a, t)
  {
    if parts != [] { WithoutElements(parts[1..], t); }
  }

  /** `v` belongs to a member of another class than `t` tests for. */
  ghost predicate HasOther(w: World, v: Value, parts: seq<Ty>, t: Ty) {
    exists a :: a in parts && !OfClass(a, t) && Has(w, v, a)
  }

  lemma RestHas(w: World, v: Value, parts: seq<Ty>, t: Ty)
    ensures Has(w, v, Packed(Without(parts, t))) <==> HasOther(w, v, parts, t)
  {
    WithoutElements(parts, t);
    PackedHas(w, v, Without(parts, t));
  }

  lemma NoRest(parts: seq<Ty>, t: Ty)
    ensures Without(parts, t) == [] <==> forall a :: a in parts ==> OfClass(a, t)
  {
    WithoutElements(parts, t);
    if Without(parts, t) != [] { assert Without(parts, t)[0] in Without(parts, t); }
  }

  /** Some of `t` is left when nil is taken away. */
  predicate MoreThanNil(t: Ty) { t != Nil && (t.Union? ==> exists a :: a in t.parts && a != Nil) }

  /** `strip_nil` takes away nil and nothing else, wherever more than nil is there. */
  lemma StripNilExact(w: World, v: Value, t: Ty)
    requires MoreThanNil(t)
    ensures Has(w, v, StripNil(t)) <==> if t.Union? then HasOther(w, v, t.parts, Nil) else Has(w, v, t)
  {
    if t.Union? {
      NoRest(t.parts, Nil);
      RestHas(w, v, t.parts, Nil);
    }
  }

  lemma StripNilLeaves(w: World, v: Value, t: Ty)
    requires MoreThanNil(t) && v != VNil
    ensures Has(w, v, StripNil(t)) <==> Has(w, v, t)
  {
    StripNilExact(w, v, t);
    if t.Union? {
      UnionHas(w, v, t.parts);
      assert t == Union(t.parts);
    }
  }

  /** A union, all members known, of which some are of the tested class and some are not. */
  ghost predicate Splits(cur: Ty, t: Ty) {
    && cur.Union? && Unknown !in cur.parts
    && (exists a :: a in cur.parts && OfClass(a, t)) && exists a :: a in cur.parts && !OfClass(a, t)
  }

  /** `eliminate_union_member` applies exactly to such unions, and leaves exactly the members of other classes. */
  lemma EliminateExact(w: World, v: Value, cur: Ty, t: Ty)
    ensures EliminateMember(cur, t).Some? <==> Splits(cur, t)
    ensures Splits(cur, t) ==> (Has(w, v, EliminateMember(cur, t).value) <==> HasOther(w, v, cur.parts, t))
  {
    if cur.Union? {
      assert forall a :: SameClass(a, t) <==> OfClass(a, t);
      NoRest(cur.parts, t);
      RestHas(w, v, cur.parts, t);
    }
  }

  // ----- what a branch knows -----

  /** Nil is a value of the type and stands apart from the rest, so that stripping it rules it out. */
  ghost predicate NilApart(w: World, t: Ty) {
    !t.Unknown? && MoreThanNil(t) && (t.Union? ==> forall a :: a in t.parts && a != Nil ==> !Has(w, VNil, a))
  }

  lemma NilRuledOut(w: World, t: Ty)
    requires NilApart(w, t)
    ensures !Has(w, VNil, StripNil(t))
  {
    StripNilExact(w, VNil, t);
  }

  predicate CoreName(n: string) {
    || n == "Integer" || n == "Float" || n == "String" || n == "Symbol" || n == "NilClass" || n == "Array"
    || n == "Hash" || n == "TrueClass" || n == "FalseClass"
  }

  /** The classes a test of which is believed: those of the project, and in a closed world core classes. */
  predicate Believed(c: Const, closed: bool) { c.Project? || (closed && CoreName(TrimCbase(c.name))) }

  /** A union member that the class `c` exhausts, or for `TrueClass` and `FalseClass` stands for. */
  predicate MemberOf(a: Ty, c: Const) {
    match c
    case Project(cls) => a == Instance(cls)
    case Named(name) =>
      var n := TrimCbase(name);
      || (n == "Integer" && a == Int) || (n == "Float" && a == Float) || (n == "String" && a == Str)
      || (n == "Symbol" && a == Sym) || (n == "NilClass" && a == Nil) || (n == "Array" && a.Array?)
      || (n == "Hash" && a.Hash?) || ((n == "TrueClass" || n == "FalseClass") && a == Bool)
  }

  ghost predicate SplitBy(cur: Ty, c: Const) {
    && cur.Union? && Unknown !in cur.parts
    && (exists a :: a in cur.parts && MemberOf(a, c)) && exists a :: a in cur.parts && !MemberOf(a, c)
  }

  /** What a predicate that held says of the store; `base` is what was known before. */
  ghost predicate TrueFacts(rt: Runtime, closed: bool, pred: Expr, base: Env, s: Store) {
    match pred
    case IsAP(x, c) => Believed(c, closed) ==> if HalfOfBool(c) then Get(s, x).VBool? else IsA(rt, Get(s, x), c)
    case NilP(x) => Get(s, x) == VNil
    case Read(x) => x in base && NilApart(rt.w, base[x]) ==> Get(s, x) != VNil
    case _ => true
  }

  /** What a predicate that failed says. */
  ghost predicate FalseFacts(rt: Runtime, closed: bool, pred: Expr, base: Env, s: Store) {
    match pred
    case IsAP(x, c) =>
      Believed(c, closed) && x in base && SplitBy(base[x], c) ==>
        exists a :: a in base[x].parts && !MemberOf(a, c) && Has(rt.w, Get(s, x), a)
    case NilP(x) => x in base && NilApart(rt.w, base[x]) ==> Get(s, x) != VNil
    case Or(l, r) =>
      var asked := if l.NilP? then Some(l.x) else if r.NilP? then Some(r.x) else None;
      asked.Some? && asked.value in base && NilApart(rt.w, base[asked.value]) ==> Get(s, asked.value) != VNil
    case _ => true
  }

  lemma BelievedTy(rt: Runtime, c: Const, closed: bool)
    ensures TestedTy(c, closed).Some? <==> Believed(c, closed)
    ensures Believed(c, closed) ==> forall a :: OfClass(a, TestedTy(c, closed).value) <==> MemberOf(a, c)
    ensures Believed(c, closed) ==> forall v ::
      Has(rt.w, v, TestedTy(c, closed).value) <==> if HalfOfBool(c) then v.VBool? else IsA(rt, v, c)
  {}

  lemma OnlyNilPAsks(pred: Expr, closed: bool)
    ensures var n := NarrowOf(pred, closed); n.Some? && n.value.kind.NilCheck? <==> pred.NilP?
  {}

  lemma OrAsks(l: Expr, r: Expr, closed: bool)
    ensures var n := NarrowOf(Or(l, r), closed);
            n == if l.NilP? then Some(Narrow(l.x, NilCheckOrGuard))
                 else if r.NilP? then Some(Narrow(r.x, NilCheckOrGuard)) else None
  {
    OnlyNilPAsks(l, closed);
    OnlyNilPAsks(r, closed);
  }

  /** Every store that fits what the branch of a predicate that held starts from satisfies the predicate's fact. */
  lemma TrueBranchKnows(rt: Runtime, closed: bool, pred: Expr, base: Env, s: Store)
    requires Fits(rt.w, s, WhenTrue(base, NarrowOf(pred, closed)))
    ensures TrueFacts(rt, closed, pred, base, s)
  {
    match pred
    case IsAP(x, c) => BelievedTy(rt, c, closed);
    case Read(x) => if x in base && NilApart(rt.w, base[x]) { NilRuledOut(rt.w, base[x]); }
    case _ =>
  }

  lemma NilStrippedFrom(w: World, x: string, base: Env, s: Store)
    requires Fits(w, s, base[x := StripNil(Lookup(base, x, Unknown))])
    ensures x in base && NilApart(w, base[x]) ==> Get(s, x) != VNil
  {
    if x in base && NilApart(w, base[x]) { NilRuledOut(w, base[x]); }
  }

  lemma FailedTestKnows(rt: Runtime, closed: bool, x: string, c: Const, base: Env, s: Store)
    requires Fits(rt.w, s, WhenFalse(base, NarrowOf(IsAP(x, c), closed)))
    ensures FalseFacts(rt, closed, IsAP(x, c), base, s)
  {
    BelievedTy(rt, c, closed);
    if Believed(c, closed) && x in base && SplitBy(base[x], c) {
      var t := TestedTy(c, closed).value;
      assert Splits(base[x], t);
      EliminateExact(rt.w, Get(s, x), base[x], t);
    }
  }

  lemma FailedNilKnows(rt: Runtime, closed: bool, x: string, base: Env, s: Store)
    requires Fits(rt.w, s, WhenFalse(base, NarrowOf(NilP(x), closed)))
    ensures FalseFacts(rt, closed, NilP(x), base, s)
  {
    NilStrippedFrom(rt.w, x, base, s);
  }

  lemma FailedOrKnows(rt: Runtime, closed: bool, l: Expr, r: Expr, base: Env, s: Store)
    requires Fits(rt.w, s, WhenFalse(base, NarrowOf(Or(l, r), closed)))
    ensures FalseFacts(rt, closed, Or(l, r), base, s)
  {
    OrAsks(l, r, closed);
    if l.NilP? {
      NilStrippedFrom(rt.w, l.x, base, s);
    } else if r.NilP? {
      NilStrippedFrom(rt.w, r.x, base, s);
    }
  }

  /** The same for a predicate that failed. */
  lemma FalseBranchKnows(rt: Runtime, closed: bool, pred: Expr, base: Env, s: Store)
    requires Fits(rt.w, s, WhenFalse(base, NarrowOf(pred, closed)))
    ensures FalseFacts(rt, closed, pred, base, s)
  {
    if pred.IsAP? {
      FailedTestKnows(rt, closed, pred.x, pred.c, base, s);
    } else if pred.NilP? {
      FailedNilKnows(rt, closed, pred.x, base, s);
    } else if pred.Or? {
      FailedOrKnows(rt, closed, pred.l, pred.r, base, s);
    }
  }

  /** The local a predicate is about. */
  function Asked(pred: Expr): Option<string> {
    match pred
    case IsAP(x, _) => Some(x)
    case NilP(x) => Some(x)
    case Read(x) => Some(x)
    case Or(l, r) => if l.NilP? then Some(l.x) else if r.NilP? then Some(r.x) else None
    case _ => None
  }

  /** Nothing but `x` is known otherwise. */
  ghost predicate Elsewhere(base: Env, start: Env, x: Option<string>) {
    forall y :: Some(y) != x ==> (y in start <==> y in base) && (y in base ==> start[y] == base[y])
  }

  lemma NarrowsAsked(pred: Expr, closed: bool, base: Env)
    ensures Elsewhere(base, WhenTrue(base, NarrowOf(pred, closed)), Asked(pred))
    ensures Elsewhere(base, WhenFalse(base, NarrowOf(pred, closed)), Asked(pred))
  {
    if pred.Or? { OrAsks(pred.l, pred.r, closed); }
  }

  // ----- the branches of `if`, `unless` and `case` -----

  /** In every store of a branch that starts from `start`, `pred` held (failed); other locals are as before. */
  ghost predicate Starts(rt: Runtime, closed: bool, pred: Expr, holds: bool, base: Env, start: Env) {
    Elsewhere(base, start, Asked(pred)) &&
    forall s :: Fits(rt.w, s, start) ==>
      if holds then TrueFacts(rt, closed, pred, base, s) else FalseFacts(rt, closed, pred, base, s)
  }

  lemma BranchesStart(rt: Runtime, closed: bool, pred: Expr, base: Env)
    ensures Starts(rt, closed, pred, true, base, WhenTrue(base, NarrowOf(pred, closed)))
    ensures Starts(rt, closed, pred, false, base, WhenFalse(base, NarrowOf(pred, closed)))
  {
    NarrowsAsked(pred, closed, base);
    var t, f := WhenTrue(base, NarrowOf(pred, closed)), WhenFalse(base, NarrowOf(pred, closed));
    forall s | Fits(rt.w, s, t) ensures TrueFacts(rt, closed, pred, base, s) {
      TrueBranchKnows(rt, closed, pred, base, s);
    }
    forall s | Fits(rt.w, s, f) ensures FalseFacts(rt, closed, pred, base, s) {
      FalseBranchKnows(rt, closed, pred, base, s);
    }
  }

  /** A statement that leaves the method or the loop. */
  predicate Leaves(e: Expr) { e.Return? || e.Raise? || e.Jump? }

  /** A guard clause: a body that leaves, no else, and a predicate that says something; for `unless`, not a class
      test. */
  predicate GuardClause(e: Expr, closed: bool)
    requires e.If? || e.Unless?
  {
    && e.thn != [] && Leaves(e.thn[|e.thn| - 1]) && e.els.None?
    && Asked(e.pred).Some? && (e.pred.IsAP? ==> e.If? && Believed(e.pred.c, closed))
  }

  lemma SaysSomething(pred: Expr, closed: bool)
    ensures NarrowOf(pred, closed).Some? <==> Asked(pred).Some? && (pred.IsAP? ==> Believed(pred.c, closed))
    ensures NarrowOf(pred, closed).Some? ==> (NarrowOf(pred, closed).value.kind.IsAFact? <==> pred.IsAP?)
  {
    if pred.Or? { OrAsks(pred.l, pred.r, closed); }
    if pred.IsAP? { assert TestedTy(pred.c, closed).Some? <==> Believed(pred.c, closed); }
  }

  /** Both branches of `if` (`unless`) are walked from environments that know how the predicate came out, and after a
      guard clause the walk goes on knowing it. */
  lemma BranchesKnow(rt: Runtime, cx: Context, e: Expr, env: Env) returns (thn: Env, els: Env)
    requires e.If? || e.Unless?
    ensures var p := InferExpr(cx, e.pred, env);
            && Starts(rt, cx.closed, e.pred, e.If?, p.env, thn) && Starts(rt, cx.closed, e.pred, e.Unless?, p.env, els)
            && InferExpr(cx, e, env) == Branched(cx, e.thn, e.els, p, thn, els, GuardClause(e, cx.closed))
    ensures GuardClause(e, cx.closed) ==> InferExpr(cx, e, env).env == els
  {
    var p, nw := InferExpr(cx, e.pred, env), NarrowOf(e.pred, cx.closed);
    BranchesStart(rt, cx.closed, e.pred, p.env);
    SaysSomething(e.pred, cx.closed);
    if e.If? {
      thn, els := WhenTrue(p.env, nw), WhenFalse(p.env, nw);
      InferIf(cx, e, env);
    } else {
      thn, els := WhenFalse(p.env, nw), WhenTrue(p.env, nw);
      InferUnless(cx, e, env);
    }
  }

  /** All conditions are constants of believed classes. */
  predicate ClassClause(conds: seq<Expr>, closed: bool) {
    conds != [] && forall i :: 0 <= i < |conds| ==> conds[i].ConstRef? && Believed(conds[i].c, closed)
  }

  ghost predicate OfCond(rt: Runtime, v: Value, cond: Expr) {
    cond.ConstRef? && if HalfOfBool(cond.c) then v.VBool? else IsA(rt, v, cond.c)
  }

  /** `v` is of one of the classes. */
  ghost predicate OneOf(rt: Runtime, v: Value, conds: seq<Expr>) {
    exists i :: 0 <= i < |conds| && OfCond(rt, v, conds[i])
  }

  lemma OneOfLast(rt: Runtime, v: Value, conds: seq<Expr>)
    requires conds != []
    ensures var n := |conds| - 1; OneOf(rt, v, conds) <==> OneOf(rt, v, conds[..n]) || OfCond(rt, v, conds[n])
  {
    var n := |conds| - 1;
    if i :| 0 <= i < n && OfCond(rt, v, conds[..n][i]) { assert conds[i] == conds[..n][i]; }
    if i :| 0 <= i < |conds| && OfCond(rt, v, conds[i]) {
      if i < n { assert conds[..n][i] == conds[i]; }
    }
  }

  lemma {:induction false} ClauseNarrows(conds: seq<Expr>, closed: bool)
    ensures NarrowOfWhen(conds, closed).Some? <==> ClassClause(conds, closed)
    decreases |conds|
  {
    if conds != [] {
      var n := |conds| - 1;
      LastBelieved(conds[n], closed);
      if n > 0 { ClauseNarrows(conds[..n], closed); }
    }
  }

  lemma LastBelieved(cond: Expr, closed: bool)
    ensures cond.ConstRef? ==> (TestedTy(cond.c, closed).Some? <==> Believed(cond.c, closed))
  {}

  /** The type of a clause of class constants has exactly the values of those classes. */
  lemma {:induction false} ClauseMeans(rt: Runtime, conds: seq<Expr>, closed: bool, v: Value)
    requires ClassClause(conds, closed) && NarrowOfWhen(conds, closed).Some?
    ensures Has(rt.w, v, NarrowOfWhen(conds, closed).value) <==> OneOf(rt, v, conds)
    decreases |conds|
  {
    var n := |conds| - 1;
    BelievedTy(rt, conds[n].c, closed);
    OneOfLast(rt, v, conds);
    if n > 0 {
      ClauseNarrows(conds[..n], closed);
      ClauseMeans(rt, conds[..n], closed, v);
      JoinMeaning(rt.w, v, NarrowOfWhen(conds[..n], closed).value, TestedTy(conds[n].c, closed).value);
    }
  }

  /** In every store of a clause that starts from `start`, the subject variable is of one of its classes. */
  ghost predicate ClauseStarts(rt: Runtime, closed: bool, conds: seq<Expr>, x: Option<string>, base: Env, start: Env) {
    Elsewhere(base, start, x) &&
    (x.Some? && ClassClause(conds, closed) ==> forall s :: Fits(rt.w, s, start) ==> OneOf(rt, Get(s, x.value), conds))
  }

  lemma FirstClauseKnows(rt: Runtime, closed: bool, conds: seq<Expr>, x: Option<string>, base: Env)
    ensures ClauseStarts(rt, closed, conds, x, base, BranchStart(base, x, NarrowOfWhen(conds, closed)))
  {
    ClauseNarrows(conds, closed);
    if x.Some? && ClassClause(conds, closed) {
      forall s | Fits(rt.w, s, BranchStart(base, x, NarrowOfWhen(conds, closed)))
        ensures OneOf(rt, Get(s, x.value), conds)
      {
        ClauseMeans(rt, conds, closed, Get(s, x.value));
      }
    }
  }

  lemma WhensStart(cx: Context, whens: seq<When>, x: Option<string>, env: Env)
    requires whens != []
    ensures var c := InferList(cx, whens[0].conds, env);
            var b := InferList(cx, whens[0].body, BranchStart(c.env, x, NarrowOfWhen(whens[0].conds, cx.closed)));
            var all, rest := InferWhens(cx, whens, x, env), InferWhens(cx, whens[1..], x, c.env);
            all.tys == [LastTy(b.tys)] + rest.tys && all.envs == [b.env] + rest.envs && all.env == rest.env
  {}

  /** The clause is walked from `start`, with that outcome. */
  ghost predicate ClauseKnown(rt: Runtime, cx: Context, when: When, x: Option<string>, ty: Ty, end: Env, base: Env,
                              start: Env) {
    && ClauseStarts(rt, cx.closed, when.conds, x, base, start)
    && ty == LastTy(InferList(cx, when.body, start).tys) && end == InferList(cx, when.body, start).env
  }

  lemma HeadKnown(rt: Runtime, cx: Context, whens: seq<When>, x: Option<string>, env: Env)
    returns (base: Env, start: Env)
    requires whens != []
    ensures var c := InferWhens(cx, whens, x, env);
            ClauseKnown(rt, cx, whens[0], x, c.tys[0], c.envs[0], base, start)
    ensures base == InferList(cx, whens[0].conds, env).env
  {
    base := InferList(cx, whens[0].conds, env).env;
    start := BranchStart(base, x, NarrowOfWhen(whens[0].conds, cx.closed));
    WhensStart(cx, whens, x, env);
    FirstClauseKnows(rt, cx.closed, whens[0].conds, x, base);
  }

  /** Each clause of a `case` is walked from an environment that knows the class of the subject. */
  lemma {:induction false} ClausesKnow(rt: Runtime, cx: Context, whens: seq<When>, x: Option<string>, env: Env, i: nat)
      returns (base: Env, start: Env)
    requires i < |whens|
    ensures var c := InferWhens(cx, whens, x, env);
            ClauseKnown(rt, cx, whens[i], x, c.tys[i], c.envs[i], base, start)
    ensures base == InferList(cx, whens[i].conds, InferWhens(cx, whens[..i], x, env).env).env
    decreases |whens|
  {
    if i == 0 {
      base, start := HeadKnown(rt, cx, whens, x, env);
    } else {
      var after := InferList(cx, whens[0].conds, env).env;
      base, start := ClausesKnow(rt, cx, whens[1..], x, after, i - 1);
      WhensStart(cx, whens, x, env);
      assert whens[1..][i - 1] == whens[i];
      WhensStart(cx, whens[..i], x, env);
      assert whens[..i][1..] == whens[1..][..i - 1];
    }
  }

  // ----- joins hold nothing more -----

  /** What a branch says of `x`: its own type, else the one from before, else nil. */
  ghost predicate BranchHas(w: World, v: Value, base: Env, b: Env, x: string) {
    if x in b then Has(w, v, b[x]) else if x in base then Has(w, v, base[x]) else v == VNil
  }

  ghost predicate SomeBranchHas(w: World, v: Value, base: Env, branches: seq<Env>, x: string) {
    exists i :: 0 <= i < |branches| && BranchHas(w, v, base, branches[i], x)
  }

  predicate SomeBranchNames(branches: seq<Env>, x: string) { exists i :: 0 <= i < |branches| && x in branches[i] }

  lemma JoinedTyExact(w: World, v: Value, base: Env, branches: seq<Env>, x: string)
    requires branches != []
    ensures Has(w, v, JoinedTy(base, branches, x)) <==> SomeBranchHas(w, v, base, branches, x)
  {
    var tys := BranchTys(base, branches, x);
    JoinAllExact(w, v, tys);
    forall i | 0 <= i < |branches| ensures Has(w, v, tys[i]) <==> BranchHas(w, v, base, branches[i], x) {
      BranchTyExact(w, v, base, branches[i], x);
    }
    assert |tys| == |branches|;
  }

  lemma BranchTyExact(w: World, v: Value, base: Env, b: Env, x: string)
    ensures Has(w, v, BranchTy(base, b, x)) <==> BranchHas(w, v, base, b, x)
  {}

  lemma JoinAllExact(w: World, v: Value, tys: seq<Ty>)
    requires tys != []
    ensures Has(w, v, JoinAll(tys[0], tys[1..])) <==> exists i :: 0 <= i < |tys| && Has(w, v, tys[i])
  {
    JoinAllMeaning(w, v, tys[0], tys[1..]);
    if i :| 0 <= i < |tys| && Has(w, v, tys[i]) {
      if i > 0 { assert tys[1..][i - 1] == tys[i]; }
    }
    if i :| 0 <= i < |tys| - 1 && Has(w, v, tys[1..][i]) { assert tys[i + 1] == tys[1..][i]; }
  }

  /** `join_envs`: exactly the values some branch allows; a name no branch has keeps its type. */
  lemma JoinExact(w: World, v: Value, base: Env, branches: seq<Env>, x: string)
    ensures x in JoinEnvs(base, branches) <==> x in base || SomeBranchNames(branches, x)
    ensures SomeBranchNames(branches, x) ==>
      (Has(w, v, JoinEnvs(base, branches)[x]) <==> SomeBranchHas(w, v, base, branches, x))
    ensures x in base && !SomeBranchNames(branches, x) ==> JoinEnvs(base, branches)[x] == base[x]
  {
    KeysOfBranches(branches, x);
    if branches != [] { JoinedTyExact(w, v, base, branches, x); }
  }

  lemma {:induction false} KeysOfBranches(branches: seq<Env>, x: string)
    ensures x in BranchKeys(branches) <==> SomeBranchNames(branches, x)
  {
    if branches != [] {
      KeysOfBranches(branches[1..], x);
      if i :| 0 <= i < |branches| && x in branches[i] {
        if i > 0 { assert branches[1..][i - 1] == branches[i]; }
      }
      if i :| 0 <= i < |branches| - 1 && x in branches[1..][i] { assert branches[i + 1] == branches[1..][i]; }
    }
  }

  /** `merge_loop_env`: exactly the values from before the loop and those after one pass. */
  lemma MergeLoopExact(w: World, v: Value, base: Env, body: Env, x: string)
    ensures x in MergeLoop(base, body) <==> x in base || x in body
    ensures x in body ==>
      (Has(w, v, MergeLoop(base, body)[x]) <==>
       (if x in base then Has(w, v, base[x]) else v == VNil) || Has(w, v, body[x]))
    ensures x in base && x !in body ==> MergeLoop(base, body)[x] == base[x]
  {
    if x in body { JoinMeaning(w, v, Lookup(base, x, Nil), body[x]); }
  }

  // ----- each form has the values its parts have -----

  ghost predicate OneHas(w: World, v: Value, tys: seq<Ty>) { exists i :: 0 <= i < |tys| && Has(w, v, tys[i]) }

  lemma ElementTyExact(w: World, v: Value, tys: seq<Ty>)
    ensures Has(w, v, ElementTy(tys)) <==> tys == [] || OneHas(w, v, tys)
  {
    if tys != [] { JoinAllExact(w, v, tys); }
  }

  /** What a literal, a read or a jump evaluates to. */
  ghost predicate LeafValue(w: World, cx: Context, e: Expr, env: Env, v: Value) {
    match e
    case IntLit(_) => v.VInt?
    case FloatLit(_) => v.VFloat?
    case StrLit(_) => v.VStr?
    case SymLit(_) => v.VSym?
    case BoolLit(_) => v.VBool?
    case NilLit => v.VNil?
    case SelfRef => Has(w, v, cx.selfTy)
    case ConstRef(c) => c.Project? ==> v == VClass(c.cls)
    case Read(x) => x in env ==> Has(w, v, env[x])
    case DefinedP(_) => v.VStr? || v.VNil?
    case _ => true
  }

  predicate LeafForm(e: Expr) {
    || e.IntLit? || e.FloatLit? || e.StrLit? || e.SymLit? || e.BoolLit? || e.NilLit? || e.SelfRef? || e.ConstRef?
    || e.Read? || e.DefinedP? || e.Jump?
  }

  lemma LeafExact(w: World, cx: Context, e: Expr, env: Env, v: Value)
    requires LeafForm(e)
    ensures Has(w, v, InferExpr(cx, e, env).ty) <==> LeafValue(w, cx, e, env, v)
  {
    if e.DefinedP? { assert Union([Str, Nil]).parts[0] == Str && Union([Str, Nil]).parts[1] == Nil; }
  }

  lemma LeafStays(cx: Context, e: Expr, env: Env)
    requires LeafForm(e)
    ensures InferExpr(cx, e, env).env == env && InferExpr(cx, e, env).rets == []
  {}

  /** Assignments: `=` stores the value, `||=` the value or what was there, `&&=` and `op=` may store anything; no other
      local is touched. */
  lemma WriteExact(w: World, cx: Context, e: Expr, env: Env, v: Value)
    requires e.Write? || e.OrWrite? || e.AndWrite? || e.OpWrite?
    ensures var b, r := InferExpr(cx, e.e, env), InferExpr(cx, e, env);
            && e.x in r.env && r.env[e.x] == r.ty && Elsewhere(b.env, r.env, Some(e.x)) && r.rets == b.rets
            && (Has(w, v, r.ty) <==>
                (e.Write? ==> Has(w, v, b.ty)) &&
                (e.OrWrite? ==> Has(w, v, b.ty) || if e.x in b.env then Has(w, v, b.env[e.x]) else v == VNil))
  {
    var b := InferExpr(cx, e.e, env);
    if e.OrWrite? { JoinMeaning(w, v, Lookup(b.env, e.x, Nil), b.ty); }
  }

  /** `if` and `unless`: the value of one branch, the locals of one branch, the returns of all parts. */
  lemma BranchedExact(w: World, cx: Context, thn: seq<Expr>, els: Option<Expr>, p: Infer, thnEnv: Env, elsEnv: Env,
                      shortcut: bool, v: Value)
    ensures var t, f, r := InferList(cx, thn, thnEnv), InferOpt(cx, els, elsEnv),
                           Branched(cx, thn, els, p, thnEnv, elsEnv, shortcut);
            && (Has(w, v, r.ty) <==> Has(w, v, LastTy(t.tys)) || Has(w, v, f.ty))
            && r.rets == p.rets + t.rets + f.rets
            && r.env == if shortcut then f.env else JoinEnvs(p.env, [t.env, f.env])
  {
    JoinMeaning(w, v, LastTy(InferList(cx, thn, thnEnv).tys), InferOpt(cx, els, elsEnv).ty);
  }

  lemma ClausesTyExact(w: World, v: Value, tys: seq<Ty>)
    ensures Has(w, v, ClausesTy(tys)) <==> OneHas(w, v, tys) || (tys == [] && v == VNil)
  {
    if tys != [] { JoinAllExact(w, v, tys); }
  }

  /** `case`: the value of one clause or of the else. */
  lemma CaseExact(w: World, cx: Context, e: Expr, env: Env, v: Value)
    requires e.Case?
    ensures var p := InferOpt(cx, e.subject, env);
            var c := InferWhens(cx, e.whens, SubjectVar(e.subject), p.env);
            var f, r := InferOpt(cx, e.els, c.env), InferExpr(cx, e, env);
            && (Has(w, v, r.ty) <==> OneHas(w, v, c.tys) || Has(w, v, f.ty) || (c.tys == [] && v == VNil))
            && r.env == JoinEnvs(c.env, c.envs + [f.env]) && r.rets == p.rets + c.rets + f.rets
  {
    var p := InferOpt(cx, e.subject, env);
    var c := InferWhens(cx, e.whens, SubjectVar(e.subject), p.env);
    WhenConditions.CaseShape(cx, e, env);
    ClausesTyExact(w, v, c.tys);
    JoinMeaning(w, v, ClausesTy(c.tys), InferOpt(cx, e.els, c.env).ty);
  }

  /** `&&` and `||`: the value of one side. */
  lemma AndOrExact(w: World, cx: Context, e: Expr, env: Env, v: Value)
    requires e.And? || e.Or?
    ensures var a := InferExpr(cx, e.l, env);
            var b, r := InferExpr(cx, e.r, a.env), InferExpr(cx, e, env);
            (Has(w, v, r.ty) <==> Has(w, v, a.ty) || Has(w, v, b.ty)) && r.env == b.env && r.rets == a.rets + b.rets
  {
    var a := InferExpr(cx, e.l, env);
    JoinMeaning(w, v, a.ty, InferExpr(cx, e.r, a.env).ty);
  }

  /** Statements: the value of the last, nil for none. */
  lemma StmtsExact(w: World, cx: Context, e: Expr, env: Env, v: Value)
    requires e.Stmts?
    ensures var m, r := InferList(cx, e.body, env), InferExpr(cx, e, env);
            && (Has(w, v, r.ty) <==> if m.tys == [] then v == VNil else Has(w, v, m.tys[|m.tys| - 1]))
            && r.env == m.env && r.rets == m.rets
  {}

  /** `return`: one more return type, of nil, the value, or an array of the values. */
  lemma ReturnExact(w: World, cx: Context, e: Expr, env: Env, v: Value)
    requires e.Return?
    ensures var m, r := InferList(cx, e.args, env), InferExpr(cx, e, env);
            && r.env == m.env && |r.rets| == |m.rets| + 1 && r.rets[..|m.rets|] == m.rets
            && (Has(w, v, r.rets[|m.rets|]) <==>
                if |e.args| == 0 then v == VNil else if |e.args| == 1 then Has(w, v, m.tys[0]) else v.VArray?)
  {}

  /** An array literal without splats: arrays of the items' values. */
  lemma ArrayExact(w: World, cx: Context, e: Expr, env: Env, es: seq<Value>)
    requires e.ArrayLit?
    ensures var m := InferList(cx, e.items, env);
            Has(w, VArray(es), InferExpr(cx, e, env).ty) <==>
            (e.splat || m.tys == [] || forall i :: 0 <= i < |es| ==> OneHas(w, es[i], m.tys))
  {
    forall i | 0 <= i < |es|
      ensures var tys := InferList(cx, e.items, env).tys;
              Has(w, es[i], ElementTy(tys)) <==> tys == [] || OneHas(w, es[i], tys)
    {
      ElementTyExact(w, es[i], InferList(cx, e.items, env).tys);
    }
  }

  /** One of every other type has `v`, from the first on or from the second: keys and values alternate. */
  ghost predicate OneHasAt(w: World, v: Value, tys: seq<Ty>, odd: bool)
    decreases |tys|
  {
    tys != [] && ((!odd && Has(w, v, tys[0])) || OneHasAt(w, v, tys[1..], !odd))
  }

  lemma OneHasThen(w: World, v: Value, a: seq<Ty>, b: seq<Ty>)
    ensures OneHas(w, v, a + b) <==> OneHas(w, v, a) || OneHas(w, v, b)
  {
    if i :| 0 <= i < |a| && Has(w, v, a[i]) { assert (a + b)[i] == a[i]; }
    if i :| 0 <= i < |b| && Has(w, v, b[i]) { assert (a + b)[|a| + i] == b[i]; }
    if i :| 0 <= i < |a + b| && Has(w, v, (a + b)[i]) {
      if i < |a| { assert (a + b)[i] == a[i]; } else { assert (a + b)[i] == b[i - |a|]; }
    }
  }

  lemma {:induction false} EveryOtherExact(w: World, v: Value, tys: seq<Ty>, odd: bool)
    ensures OneHas(w, v, EveryOther(tys, odd)) <==> OneHasAt(w, v, tys, odd)
    decreases |tys|
  {
    if tys != [] {
      EveryOtherExact(w, v, tys[1..], !odd);
      OneHasThen(w, v, if odd then [] else [tys[0]], EveryOther(tys[1..], !odd));
      assert OneHas(w, v, [tys[0]]) <==> Has(w, v, [tys[0]][0]);
    }
  }

  /** A hash literal without splats: hashes from the keys' values to the values'. */
  lemma HashExact(w: World, cx: Context, e: Expr, env: Env, m: map<Value, Value>)
    requires e.HashLit? && !e.splat && |e.items| >= 2
    ensures var tys := InferList(cx, e.items, env).tys;
            Has(w, VHash(m), InferExpr(cx, e, env).ty) <==>
            forall k :: k in m ==> OneHasAt(w, k, tys, false) && OneHasAt(w, m[k], tys, true)
  {
    var tys := InferList(cx, e.items, env).tys;
    var ks, vs := EveryOther(tys, false), EveryOther(tys, true);
    HashLitTy(cx, e, env);
    assert tys[1..][0] == tys[1];
    assert ks != [] && vs != [];
    forall k | k in m
      ensures Has(w, k, ElementTy(ks)) <==> OneHasAt(w, k, tys, false)
      ensures Has(w, m[k], ElementTy(vs)) <==> OneHasAt(w, m[k], tys, true)
    {
      ElementTyExact(w, k, ks);
      ElementTyExact(w, m[k], vs);
      EveryOtherExact(w, k, tys, false);
      EveryOtherExact(w, m[k], tys, true);
    }
  }

  lemma HashLitTy(cx: Context, e: Expr, env: Env)
    requires e.HashLit? && !e.splat
    ensures var tys := InferList(cx, e.items, env).tys;
            InferExpr(cx, e, env).ty == Hash(ElementTy(EveryOther(tys, false)), ElementTy(EveryOther(tys, true)))
  {}

  /** The type of a method: the last value's or one of the returns'. */
  lemma MethodReturnExact(w: World, cx: Context, body: Option<Expr>, params: Env, v: Value)
    ensures var r := InferOpt(cx, body, params);
            Has(w, v, MethodReturn(cx, body, params)) <==> Has(w, v, r.ty) || OneHas(w, v, r.rets)
  {
    var r := InferOpt(cx, body, params);
    JoinAllMeaning(w, v, r.ty, r.rets);
  }
}
