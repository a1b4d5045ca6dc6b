/** The checker as a stateful walker: one object that holds the diagnostics, the census,
    the memo tables with their in-progress guards, and the save/restore stacks. Fields the
    checker saves and restores together are one record here. Every walk is shown to follow a
    derivation, and to do to the checker's state exactly what the derivation says. */
module Walker {
  import opened Types
  import opened Census
  import opened Project
  import opened Constraints
  import opened Verdicts
  import opened Typing
  import Flow
  import Compat

  function CountCode(ds: seq<Diag>, code: Code): nat {
    if ds == [] then 0
    else CountCode(ds[..|ds| - 1], code) + (if ds[|ds| - 1].code == code then 1 else 0)
  }

  lemma CountAppend(ds: seq<Diag>, d: Diag, code: Code)
    ensures CountCode(ds + [d], code) == CountCode(ds, code) + (if d.code == code then 1 else 0)
  {
    assert (ds + [d])[..|ds|] == ds;
  }

  // ----- the checker's fields, grouped -----

  /** Swapped out as a whole around a walk into another file's method. */
  datatype Mode = Mode(silent: bool, dark: bool, hover: Option<nat>, casts: seq<Cast>)

  /** All but the block parameters is replaced for the duration of one method body. */
  datatype Scope = Scope(
    params: seq<string>, blockParams: seq<string>, rebindable: nat, operands: map<string, Ty>, name: Option<string>)

  datatype Memo = Memo(methods: map<Key, Ty>, ivars: map<ClassId, map<string, Ty>>)

  /** What only a walk that is not silent may touch. */
  datatype Log = Log(
    diags: seq<Diag>, stats: CallStats, origins: map<string, Origin>,
    unknownCalls: map<Span, (Origin, Option<RetCause>)>)

  datatype Hovered = Hovered(ty: Option<(Span, Ty)>, name: Option<string>)

  /** Ghost record of a run: `check_call`s the census counted, `.new` calls among them on a
      class without `initialize`. */
  datatype Count = Count(entered: nat, newNoInit: nat)

  /** Ghost record of the walks started. */
  datatype Walked = Walked(keys: multiset<Key>, classes: multiset<ClassId>)

  /** Ghost record of how each memo entry came about. */
  datatype Proofs = Proofs(methods: map<Key, Walk>, classes: map<ClassId, Walk>)

  /** The census breakdowns add up. */
  ghost predicate LogOk(census: bool, log: Log, count: Count) {
    && log.stats.Adds()
    && log.stats.buckets.inconclusive == log.stats.anc.Sum() + count.newNoInit
    && (census ==> log.stats.buckets.diagnosed == CountCode(log.diags, E0101))
  }

  /** A method (class) was walked once when it is memoised or under way, otherwise never,
      and is never both. */
  ghost predicate MemoOk(memo: Memo, busy: Busy, walked: Walked) {
    && (forall k {:trigger walked.keys[k]} ::
          && walked.keys[k] == (if k in memo.methods || k in busy.keys then 1 else 0)
          && !(k in memo.methods && k in busy.keys))
    && (forall c {:trigger walked.classes[c]} ::
          && walked.classes[c] == (if c in memo.ivars || c in busy.classes then 1 else 0)
          && !(c in memo.ivars && c in busy.classes))
  }

  /** Memo entries are written once. */
  ghost predicate Extends(m: Memo, m': Memo) {
    && (forall k :: k in m.methods ==> k in m'.methods && m'.methods[k] == m.methods[k])
    && (forall c :: c in m.ivars ==> c in m'.ivars && m'.ivars[c] == m.ivars[c])
  }

  /** Every memo entry has its derivation. */
  ghost predicate MemoProven(p: Oracle, memo: Memo, proofs: Proofs) {
    && (forall k :: k in memo.methods ==>
          k in proofs.methods && MethodProven(p, k, memo.methods[k], proofs.methods[k]))
    && (forall c :: c in memo.ivars ==>
          c in proofs.classes && ClassProven(p, c, memo.ivars[c], proofs.classes[c]))
  }

  ghost predicate MethodProven(p: Oracle, key: Key, ty: Ty, w: Walk) {
    var found := LookupOf(p, key);
    found.Found? && w.Walk? && !w.anew && MethodWalk(p, key, found.m, ty, w)
  }

  ghost predicate ClassProven(p: Oracle, c: ClassId, ivars: map<string, Ty>, w: Walk) {
    w.Walk? && !w.anew && ClassWalk(p, c, w) && ivars == IvarsOf(c, BodiesFx(p, w.cx, w.bodies).stores)
  }

  lemma FreshOk(p: Oracle, census: bool, log: Log, count: Count, memo: Memo, busy: Busy, walked: Walked, proofs: Proofs)
    requires log.diags == [] && Blank(log.stats) && count.newNoInit == 0
    requires memo.methods == map[] && memo.ivars == map[] && busy.keys == {} && busy.classes == {}
    requires walked.keys == multiset{} && walked.classes == multiset{}
    ensures LogOk(census, log, count) && MemoOk(memo, busy, walked) && MemoProven(p, memo, proofs)
  {}

  lemma StartMethodWalk(memo: Memo, busy: Busy, walked: Walked, key: Key)
    requires MemoOk(memo, busy, walked) && key !in memo.methods && key !in busy.keys
    ensures MemoOk(memo, busy.(keys := busy.keys + {key}), walked.(keys := walked.keys + multiset{key}))
  {
    forall k
      ensures (walked.keys + multiset{key})[k] == if k in memo.methods || k in busy.keys + {key} then 1 else 0
    {
      assert walked.keys[k] == (if k in memo.methods || k in busy.keys then 1 else 0);
    }
  }

  lemma BusyNotMemoised(memo: Memo, busy: Busy, walked: Walked, key: Key)
    requires MemoOk(memo, busy, walked) && key in busy.keys
    ensures key !in memo.methods
  {
    var n := walked.keys[key];
  }

  lemma BusyClassNotMemoised(memo: Memo, busy: Busy, walked: Walked, c: ClassId)
    requires MemoOk(memo, busy, walked) && c in busy.classes
    ensures c !in memo.ivars
  {
    var n := walked.classes[c];
  }

  lemma EndMethodWalk(memo: Memo, busy: Busy, walked: Walked, key: Key, ty: Ty)
    requires MemoOk(memo, busy, walked) && key in busy.keys
    ensures MemoOk(memo.(methods := memo.methods[key := ty]), busy.(keys := busy.keys - {key}), walked)
  {}

  lemma StartClassWalk(memo: Memo, busy: Busy, walked: Walked, c: ClassId)
    requires MemoOk(memo, busy, walked) && c !in memo.ivars && c !in busy.classes
    ensures MemoOk(memo, busy.(classes := busy.classes + {c}), walked.(classes := walked.classes + multiset{c}))
  {
    forall d
      ensures (walked.classes + multiset{c})[d] == if d in memo.ivars || d in busy.classes + {c} then 1 else 0
    {
      assert walked.classes[d] == (if d in memo.ivars || d in busy.classes then 1 else 0);
    }
  }

  lemma EndClassWalk(memo: Memo, busy: Busy, walked: Walked, c: ClassId, found: map<string, Ty>)
    requires MemoOk(memo, busy, walked) && c in busy.classes
    ensures MemoOk(memo.(ivars := memo.ivars[c := found]), busy.(classes := busy.classes - {c}), walked)
  {}

  // ----- one census step, as functions of the log -----

  function Tallied(log: Log, b: Bucket): Log {
    log.(stats := Bump(log.stats, b))
  }

  function Noted(log: Log, span: Span, origin: Origin, cause: Option<RetCause>): Log {
    log.(unknownCalls := log.unknownCalls[span := (origin, cause)])
  }

  /** `tally_inconclusive`: the bucket and its ancestry breakdown in one call. */
  function TalliedInconclusive(log: Log, blocker: Option<Blocker>): Log {
    log.(stats := BumpAncestry(Bump(log.stats, InconclusiveCall), blocker))
  }

  /** `tally_ar_base` */
  function TalliedArBase(log: Log, blocker: Option<Blocker>, arBase: bool): Log {
    if blocker == Some(DeclaredExternal) && arBase
    then log.(stats := log.stats.(notArApi := log.stats.notArApi + 1)) else log
  }

  /** `tally_unknown_receiver` */
  function TalliedUnknown(log: Log, span: Span, origin: Origin, cause: Option<RetCause>): Log {
    var s := BumpOrigin(Bump(log.stats, UnknownReceiver), origin);
    Noted(log.(stats := if origin == FromProjectRet then BumpCause(s, cause) else s), span, FromChain, None)
  }

  function Emitted(log: Log, d: Diag): Log {
    log.(diags := log.diags + [d])
  }

  /** One more call in exactly one bucket, everything still adding up. */
  ghost predicate OneMore(census: bool, log: Log, log': Log, count: Count, count': Count) {
    LogOk(census, log', count') && log'.stats.Total() == log.stats.Total() + 1 && count'.entered == count.entered
  }

  lemma PlainTally(log: Log, b: Bucket, count: Count)
    requires LogOk(true, log, count) && b in {Resolved, CoreCall, RbiMethod, DslMethod, ArApiMethod}
    ensures OneMore(true, log, Tallied(log, b), count, count)
  {}

  lemma BlockedTally(log: Log, blocker: Option<Blocker>, arBase: bool, count: Count)
    requires LogOk(true, log, count)
    ensures OneMore(true, log, TalliedArBase(TalliedInconclusive(log, blocker), blocker, arBase), count, count)
    ensures OneMore(true, log, TalliedInconclusive(log, blocker), count, count)
  {}

  lemma UnknownTally(log: Log, span: Span, origin: Origin, cause: Option<RetCause>, count: Count)
    requires LogOk(true, log, count)
    ensures OneMore(true, log, TalliedUnknown(log, span, origin, cause), count, count)
  {}

  lemma AccusedTally(log: Log, d: Diag, count: Count)
    requires LogOk(true, log, count) && d.code == E0101
    ensures OneMore(true, log, Emitted(Tallied(log, Diagnosed), d), count, count)
    ensures Emitted(Tallied(log, Diagnosed), d) == Tallied(Emitted(log, d), Diagnosed)
  {
    CountAppend(log.diags, d, E0101);
  }

  /** The `.new` arm without `initialize` fills the bucket and no ancestry counter. */
  lemma NewTally(log: Log, count: Count)
    requires LogOk(true, log, count)
    ensures OneMore(true, log, Tallied(log, InconclusiveCall), count, count.(newNoInit := count.newNoInit + 1))
  {}

  /** A diagnostic other than E0101, or any diagnostic without a census, breaks no sum. */
  lemma EmitKeepsLog(census: bool, log: Log, d: Diag, count: Count)
    requires LogOk(census, log, count) && (d.code != E0101 || !census)
    ensures LogOk(census, Emitted(log, d), count)
  {
    CountAppend(log.diags, d, E0101);
  }


  lemma AppendTwice(a: seq<Diag>, b: seq<Diag>, c: seq<Diag>)
    ensures a + b + c == a + (b + c)
  {}

  // ----- what the derivations add up to -----

  /** A call without a nested walk: its use and its diagnostics. */
  lemma PlainCall(p: Oracle, cx: Ctx, site: Site, t: Trail)
    requires site.call.kind.CallNode?
    ensures var u := UseEvents(p, cx.silent, site, cx.guards, cx.rebindable);
            var ds := if cx.silent then [] else CallDiags(p, site, cx.guards, cx.rebindable);
            Run(t, CallFx(p, cx, site, NoWalk)) ==
            t.(local := t.local.(constraints := CollectFrom(t.local.constraints, u)), diags := t.diags + ds)
  {
    var u := UseEvents(p, cx.silent, site, cx.guards, cx.rebindable);
    var ds := if cx.silent then [] else CallDiags(p, site, cx.guards, cx.rebindable);
    RunThen(t, Fx([], u, [], ds), STILL);
  }

  /** A call on a receiver of known type whose method was walked: its diagnostics, then what the walk leaks. */
  lemma WalkedCall(p: Oracle, cx: Ctx, site: Site, w: Walk, t: Trail)
    requires site.call.kind.CallNode? && !site.recv.Unknown?
    ensures var ds := if cx.silent then [] else CallDiags(p, site, cx.guards, cx.rebindable);
            Run(t, CallFx(p, cx, site, w)) == Run(t.(diags := t.diags + ds), MethodLeak(p, w))
  {
    var ds := if cx.silent then [] else CallDiags(p, site, cx.guards, cx.rebindable);
    RunThen(t, Fx([], [], [], ds), MethodLeak(p, w));
  }

  /** What the rules see of the checker. */
  function CtxOf(mode: Mode, scope: Scope, guards: Guards, busy: Busy, self: SelfTy): Ctx {
    Ctx(mode.silent, mode.casts, guards, scope.rebindable, self, busy)
  }

  /** The same at the start of a body. */
  function BodyCtx(mode: Mode, guards: Guards, busy: Busy, self: SelfTy): Ctx {
    Ctx(mode.silent, mode.casts, guards, 0, self, busy)
  }

  /** What effects act on. */
  function TrailOf(local: Local, capture: Option<Capture>, log: Log): Trail { Trail(local, capture, log.diags) }

  class Checker {
    const p: Oracle
    const census: bool

    var mode: Mode
    var scope: Scope
    var guards: Guards
    var depth: nat
    var busy: Busy
    var memo: Memo
    var log: Log
    var hovered: Hovered
    var darkRecs: seq<Span>
    var local: Local
    var capture: Option<Capture>
    var retCauses: map<Key, RetCause>
    var lastRetCause: Option<RetCause>

    ghost var count: Count
    ghost var walked: Walked
    ghost var proofs: Proofs

    /** A fresh checker, as every entry point builds it. */
    constructor (p: Oracle, census: bool, mode: Mode, start: CallStats)
      requires Blank(start)
      ensures Valid() && this.p == p && this.census == census && this.mode == mode
      ensures log == Log([], start, map[], map[]) && count.entered == 0 && count.newNoInit == 0 && depth == 0
      ensures memo.methods == map[] && memo.ivars == map[] && busy == Busy({}, {}) && capture.None?
      ensures local == Local(map[], []) && guards == Guards([], [], [], []) && scope.rebindable == 0
    {
      this.p, this.census, this.mode := p, census, mode;
      scope, guards, depth := Scope([], [], 0, map[], None), Guards([], [], [], []), 0;
      busy, memo := Busy({}, {}), Memo(map[], map[]);
      log := Log([], start, map[], map[]);
      hovered, darkRecs, local := Hovered(None, None), [], Local(map[], []);
      capture, retCauses, lastRetCause := None, map[], None;
      count, walked, proofs := Count(0, 0), Walked(multiset{}, multiset{}), Proofs(map[], map[]);
      new;
      FreshOk(p, census, log, count, memo, busy, walked, proofs);
    }

    ghost predicate Valid()
      reads this
    {
      LogOk(census, log, count) && MemoOk(memo, busy, walked) && MemoProven(p, memo, proofs)
    }

    predicate Counting()
      reads this`mode
    {
      census && !mode.silent
    }

    // ----- what every walk keeps -----

    /** Every save/restore field, every stack and both in-progress sets are as found. */
    twostate predicate StacksKept()
      reads this
    {
      mode == old(mode) && scope == old(scope) && guards == old(guards) && depth == old(depth) && busy == old(busy)
    }

    /** No memo entry changes, and a silent walk leaves no trace in diagnostics or census,
        a walk without a cursor none in the hover, a walk outside the dark census none there. */
    twostate predicate TraceKept()
      reads this
    {
      && Extends(old(memo), memo)
      && (old(mode).silent ==> log == old(log) && count == old(count))
      && (!old(mode).dark ==> darkRecs == old(darkRecs))
      && (old(mode).hover.None? ==> hovered == old(hovered))
    }

    /** Every call the census counted was tallied in exactly one bucket. */
    twostate predicate Counted()
      reads this
    {
      log.stats.Total() + old(count).entered == old(log).stats.Total() + count.entered
    }

    /** Locals, instance variables and diagnostics changed exactly as `fx` says. */
    twostate predicate Did(fx: Fx)
      reads this
    {
      TrailOf(local, capture, log) == Run(old(TrailOf(local, capture, log)), fx)
    }

    /** A walk with effect `fx`: everything pushed is popped. */
    twostate predicate Kept(fx: Fx)
      reads this
    {
      StacksKept() && TraceKept() && Counted() && Did(fx)
    }

    /** A nested walk into another method or class: nothing of the walk in hand changes, but for what leaks. */
    twostate predicate Isolated(leak: Fx)
      reads this
    {
      && StacksKept() && Extends(old(memo), memo)
      && log == old(log) && count == old(count) && hovered == old(hovered)
      && (!old(mode).dark ==> darkRecs == old(darkRecs))
      && Did(leak)
    }

    /** One call's verdict: one more in bucket `b` when the census counts, none when silent, and exactly the diagnostics
        `ds` unless silent. */
    twostate predicate LogStep(ds: seq<Diag>, b: Bucket)
      reads this
    {
      && LogOk(census, log, count) && count.entered == old(count).entered
      && (old(mode).silent ==> log == old(log) && count == old(count))
      && log.stats.buckets ==
         (if census && !old(mode).silent then Bump(old(log).stats, b).buckets else old(log).stats.buckets)
      && log.stats.Total() == old(log).stats.Total() + (if census && !old(mode).silent then 1 else 0)
      && log.diags == old(log).diags + (if old(mode).silent then [] else ds)
    }

    /** The verdict on a call: its bucket and its diagnostics. */
    twostate predicate Judged(site: Site)
      requires site.call.kind.CallNode?
      reads this
    {
      LogStep(CallDiags(p, site, guards, scope.rebindable), BucketOf(p, site, guards, scope.rebindable))
    }

    /** A verdict that opens no walk. */
    twostate predicate Spoke(site: Site, ty: Ty)
      requires site.call.kind.CallNode?
      reads this
    {
      Judged(site) && AnswerOf(p, mode.silent, site, guards, scope.rebindable) == Fixed(ty)
    }

    /** A dispatch: one verdict, its type by the rules, and everything else as after any walk. */
    twostate predicate Dispatched(site: Site, self: SelfTy, ty: Ty, w: Walk)
      requires site.call.kind.CallNode?
      reads this
    {
      && StacksKept() && TraceKept() && Judged(site)
      && Answered(p, CtxOf(mode, scope, guards, busy, self), Left(depth), site, ty, w)
      && Did(CallFx(p, CtxOf(mode, scope, guards, busy, self), site, w))
    }

    /** Exactly the diagnostics `ds` were added, none when silent; no counter moved. */
    twostate predicate Raised(ds: seq<Diag>)
      reads this
    {
      LogOk(census, log, count) && log == old(log).(diags := old(log).diags + if mode.silent then [] else ds)
    }

    // ----- small writers -----

    /** `emit`, for every code but E0101. */
    method Emit(d: Diag)
      requires LogOk(census, log, count) && d.code != E0101
      modifies this`log
      ensures Raised([d])
    {
      if !mode.silent {
        EmitKeepsLog(census, log, d, count);
        log := Emitted(log, d);
      }
    }

    method TallyPlain(b: Bucket)
      requires LogOk(census, log, count) && b in {Resolved, CoreCall, RbiMethod, DslMethod, ArApiMethod}
      modifies this`log
      ensures LogStep([], b)
    {
      if Counting() {
        PlainTally(log, b, count);
        log := Tallied(log, b);
      }
    }

    method NoteUnknown(span: Span, origin: Origin, cause: Option<RetCause>)
      requires LogOk(census, log, count)
      modifies this`log
      ensures LogOk(census, log, count) && log.stats == old(log).stats && log.diags == old(log).diags
      ensures mode.silent ==> log == old(log)
    {
      if Counting() { log := Noted(log, span, origin, cause); }
    }

    /** `collect_constraint`, called for receivers of unknown type only. */
    method CollectConstraint(n: Node, recvTy: Ty, ghost args: seq<Pos>)
      requires n.kind.CallNode? && recvTy.Unknown? && !Excused(n, guards, scope.rebindable)
      modifies this`local
      ensures var u := UseEvents(p, mode.silent, Site(n, recvTy, args), guards, scope.rebindable);
              local == old(local).(constraints := CollectFrom(old(local).constraints, u))
    {
      if mode.silent || !p.closedWorld { return; }
      var r := n.kind.recv;
      if r.None? || !r.value.kind.LocalRead? { return; }
      var x, use := r.value.kind.x, Use(n.kind.name, n.kind.msg.0, n.kind.msg.1, recvTy);
      var cs := local.constraints;
      assert [Called(x, use)][..0] == [];
      local := local.(constraints := cs[x := (if x in cs then cs[x] else []) + [use]]);
    }

    /** `maybe_goto`, the hover half. */
    method HoverCall(span: Span, name: string)
      modifies this`hovered
      ensures mode.hover.None? ==> hovered == old(hovered)
    {
      if mode.hover.Some? && span.0 <= mode.hover.value <= span.1 { hovered := hovered.(name := Some(name)); }
    }

    /** `maybe_hover_ty`: the smallest known expression under the cursor wins. */
    method HoverExpr(span: Span, ty: Ty)
      modifies this`hovered
      ensures mode.hover.None? ==> hovered == old(hovered)
    {
      if mode.hover.None? || mode.hover.value < span.0 || span.1 < mode.hover.value { return; }
      var was := hovered.ty;
      var smaller := was.None? || span.1 + was.value.0.0 < was.value.0.1 + span.0;
      if (ty != Unknown && smaller) || was.None? { hovered := hovered.(ty := Some((span, ty))); }
    }

    method CaptureIvar(c: ClassId, x: string, ty: Ty)
      modifies this`capture
      ensures capture == Captured(old(capture), [Store(c, x, ty)])
    {
      assert [Store(c, x, ty)][..0] == [];
      if capture.Some? && capture.value.cls == c {
        var w := capture.value.writes;
        capture := Some(Capture(c, w[x := (if x in w then w[x] else []) + [ty]]));
      }
    }

    /** `kill_constraint`, for each name assigned. */
    method KillConstraints(xs: seq<string>)
      modifies this`local
      ensures local == old(local).(constraints := CollectFrom(old(local).constraints, Rebounds(xs)))
      ensures Did(Rebinding(xs))
    {
      RunRebinding(TrailOf(local, capture, log), xs);
      for i := 0 to |xs|
        invariant local == old(local).(constraints := CollectFrom(old(local).constraints, Rebounds(xs[..i])))
      {
        assert xs[..i + 1][..i] == xs[..i];
        var seen := Rebounds(xs[..i]);
        assert (seen + [Rebound(xs[i])])[..|seen|] == seen;
        local := local.(constraints := local.constraints - {xs[i]});
      }
      assert xs[..|xs|] == xs;
    }

    /** `unknown_origin` */
    function UnknownOrigin(n: Option<Node>): Origin
      reads this
    {
      if n.None? then FromOther
      else match n.value.kind
        case LocalRead(x) =>
          if x in scope.blockParams || NumberedParam(x) then FromBlockParam
          else if x in scope.params then FromParam
          else if x in log.origins then log.origins[x] else FromOther
        case IvarRead(_) => FromIvar
        case ConstRead(_, _) => FromConst
        case CallNode(_, _, _, _, _, _) =>
          if n.value.span in log.unknownCalls then log.unknownCalls[n.value.span].0 else FromOther
        case _ => FromOther
    }

    function UnknownCause(n: Option<Node>): Option<RetCause>
      reads this
    {
      if n.Some? && n.value.kind.CallNode? && n.value.span in log.unknownCalls
      then log.unknownCalls[n.value.span].1 else None
    }

    // ----- expressions -----

    /** `infer_expr`: the depth guard and the hover capture around one node. */
    method InferExpr(n: Node, env: Env, self: SelfTy) returns (ty: Ty, env': Env, ghost d: Deriv)
      requires Valid()
      modifies this
      ensures Valid() && Kept(d.fx) && Yields(d, ty, env')
      ensures Derives(p, CtxOf(mode, scope, guards, busy, self), Left(depth), n, env, d)
      decreases p.methods.Keys - busy.keys, p.classMethods.Keys - busy.classes, 4, n, 9, 1
    {
      if depth > 200 {
        RunStill(TrailOf(local, capture, log));
        return Unknown, env, Deriv(Unknown, env, STILL, [], NoWalk);
      }
      assert Left(depth) == Left(depth + 1) + 1;
      ty, env', d := InferDeeper(n, env, self);
    }

    method InferDeeper(n: Node, env: Env, self: SelfTy) returns (ty: Ty, env': Env, ghost d: Deriv)
      requires Valid() && depth <= 200
      modifies this
      ensures Valid() && Kept(d.fx) && Yields(d, ty, env')
      ensures Infers(p, CtxOf(mode, scope, guards, busy, self), Left(depth + 1), n, env, d)
      decreases p.methods.Keys - busy.keys, p.classMethods.Keys - busy.classes, 4, n, 9, 0
    {
      depth := depth + 1;
      ty, env', d := InferInner(n, env, self);
      depth := depth - 1;
      HoverExpr(n.span, ty);
    }

    method InferOpt(n: Option<Node>, env: Env, self: SelfTy) returns (ty: Ty, env': Env, ghost d: Deriv)
      requires Valid()
      modifies this
      ensures Valid() && Kept(d.fx) && Yields(d, ty, env')
      ensures DerivesOpt(p, CtxOf(mode, scope, guards, busy, self), Left(depth), n, env, d)
      decreases p.methods.Keys - busy.keys, p.classMethods.Keys - busy.classes, 4, n, 9
    {
      if n.Some? {
        ty, env', d := InferExpr(n.value, env, self);
      } else {
        RunStill(TrailOf(local, capture, log));
        ty, env', d := Nil, env, Deriv(Nil, env, STILL, [], NoWalk);
      }
    }

    method InferList(ns: seq<Node>, env: Env, self: SelfTy) returns (tys: seq<Ty>, env': Env, ghost ds: seq<Deriv>)
      requires Valid()
      modifies this
      ensures Valid() && Kept(FxAll(ds)) && tys == TysOf(ds) && env' == EndEnv(env, ds) && |tys| == |ns|
      ensures DerivesAll(p, CtxOf(mode, scope, guards, busy, self), Left(depth), ns, env, ds)
      decreases p.methods.Keys - busy.keys, p.classMethods.Keys - busy.classes, 4, ns, 0
    {
      if ns == [] {
        RunStill(TrailOf(local, capture, log));
        return [], env, [];
      }
      ghost var t := TrailOf(local, capture, log);
      var ty, env1, d := InferExpr(ns[0], env, self);
      var rest;
      ghost var more;
      rest, env', more := InferList(ns[1..], env1, self);
      tys, ds := [ty] + rest, [d] + more;
      assert ds[1..] == more;
      RunThen(t, d.fx, FxAll(more));
    }

    /** A list in its own right. */
    method InferSeq(ns: seq<Node>, env: Env, self: SelfTy) returns (tys: seq<Ty>, env': Env, ghost d: Deriv)
      requires Valid()
      modifies this
      ensures Valid() && Kept(d.fx) && Yields(d, Flow.LastTy(tys), env') && tys == TysOf(d.kids) && |tys| == |ns|
      ensures DerivesList(p, CtxOf(mode, scope, guards, busy, self), Left(depth), ns, env, d)
      decreases p.methods.Keys - busy.keys, p.classMethods.Keys - busy.classes, 4, ns, 1
    {
      ghost var ds;
      tys, env', ds := InferList(ns, env, self);
      d := Deriv(Flow.LastTy(tys), env', FxAll(ds), ds, NoWalk);
    }

    /** `infer_expr_inner` */
    method InferInner(n: Node, env: Env, self: SelfTy) returns (ty: Ty, env': Env, ghost d: Deriv)
      requires Valid()
      modifies this
      ensures Valid() && Kept(d.fx) && Yields(d, ty, env')
      ensures Infers(p, CtxOf(mode, scope, guards, busy, self), Left(depth), n, env, d)
      decreases p.methods.Keys - busy.keys, p.classMethods.Keys - busy.classes, 4, n, 8
    {
      if Assigns(n) {
        ty, env', d := InferWrite(n, env, self);
      } else if n.kind.IvarRead? {
        ty, d := InferIvarRead(n, env, self);
        env' := env;
      } else if n.kind.IvarWrite? {
        ty, env', d := InferIvarWrite(n, env, self);
      } else if n.kind.Stmts? || n.kind.Parts? || n.kind.Spread? {
        ty, env', d := InferParts(n, env, self);
      } else {
        ty, env', d := InferFlow(n, env, self);
      }
    }

    /** Control flow, closures, calls and the leaves. */
    method InferFlow(n: Node, env: Env, self: SelfTy) returns (ty: Ty, env': Env, ghost d: Deriv)
      requires Valid() && !Assigns(n)
      requires !n.kind.IvarWrite? && !n.kind.IvarRead? && !n.kind.Stmts? && !n.kind.Parts? && !n.kind.Spread?
      modifies this
      ensures Valid() && Kept(d.fx) && Yields(d, ty, env')
      ensures Infers(p, CtxOf(mode, scope, guards, busy, self), Left(depth), n, env, d)
      decreases p.methods.Keys - busy.keys, p.classMethods.Keys - busy.classes, 4, n, 7, 1
    {
      if n.kind.IfNode? {
        ty, env', d := InferIf(n, env, self);
      } else if n.kind.AndNode? || n.kind.OrNode? {
        ty, env', d := InferAndOr(n, env, self);
      } else if n.kind.ReturnNode? {
        ty, env', d := InferReturn(n, env, self);
      } else if n.kind.LambdaNode? {
        env', d := InferClosure(n, Block(n.kind.params, n.kind.block, []), true, env, self);
        ty := Unknown;
      } else if n.kind.CallNode? {
        ty, env', d := CheckCall(n, env, self);
      } else {
        ty, d := InferLeaf(n, env, self);
        env' := env;
      }
    }

    method InferLeaf(n: Node, env: Env, self: SelfTy) returns (ty: Ty, ghost d: Deriv)
      requires Valid()
      modifies this`log
      ensures Valid() && Kept(d.fx) && d.ty == ty && LeafOf(p, CtxOf(mode, scope, guards, busy, self), n, env, d)
    {
      ghost var fx := STILL;
      RunStill(TrailOf(local, capture, log));
      RunRaising(TrailOf(local, capture, log), mode.silent,
                 if n.kind.ConstRead? then ConstDiags(p, n.kind.path, n.span, guards, scope.rebindable) else []);
      match n.kind {
        case Plain(t) => ty := t;
        case SelfRead => ty := SelfAsTy(self);
        case ConstRead(path, t) =>
          ty := t;
          if t == Unknown {
            CheckConstRef(path, n.span);
            fx := ConstFx(p, CtxOf(mode, scope, guards, busy, self), path, n.span);
          }
        case LocalRead(x) => ty := if x in env then env[x] else Unknown;
        case _ => ty := Unknown;
      }
      d := Deriv(ty, env, fx, [], NoWalk);
    }

    /** `check_const_ref` */
    method CheckConstRef(path: string, span: Span)
      requires LogOk(census, log, count)
      modifies this`log
      ensures Raised(ConstDiags(p, path, span, guards, scope.rebindable))
    {
      if p.constKnown(span) || path in guards.defined { return; }
      Emit(Diag(E0104, span, NoConstant(path), guards, scope.rebindable));
    }

    /** A sequence of statements, or a form that only walks its parts. */
    method InferParts(n: Node, env: Env, self: SelfTy) returns (ty: Ty, env': Env, ghost d: Deriv)
      requires Valid() && (n.kind.Stmts? || n.kind.Parts? || n.kind.Spread?)
      modifies this
      ensures Valid() && Kept(d.fx) && Yields(d, ty, env')
      ensures WalksParts(p, CtxOf(mode, scope, guards, busy, self), Left(depth), n, env, d)
      decreases p.methods.Keys - busy.keys, p.classMethods.Keys - busy.classes, 4, n, 7
    {
      var tys;
      ghost var v;
      tys, env', v := InferSeq(if n.kind.Stmts? then n.kind.body else n.kind.parts, env, self);
      ty := if n.kind.Stmts? then Flow.LastTy(tys) else if n.kind.Parts? then n.kind.ty else Unknown;
      d := Deriv(ty, env', v.fx, [v], NoWalk);
    }

    method InferIvarRead(n: Node, env: Env, self: SelfTy) returns (ty: Ty, ghost d: Deriv)
      requires Valid() && n.kind.IvarRead?
      modifies this
      ensures Valid() && Kept(d.fx) && Yields(d, ty, env)
      ensures ReadsIvar(p, CtxOf(mode, scope, guards, busy, self), Left(depth), n, env, d)
      decreases p.methods.Keys - busy.keys, p.classMethods.Keys - busy.classes, 4, n, 7
    {
      if self.SInstance? {
        ghost var w;
        ty, w := IvarTy(self.cls, n.kind.x, self);
        d := Deriv(ty, env, ClassLeak(p, w), [], w);
      } else {
        RunStill(TrailOf(local, capture, log));
        ty, d := Unknown, Deriv(Unknown, env, STILL, [], NoWalk);
      }
    }

    method InferIvarWrite(n: Node, env: Env, self: SelfTy) returns (ty: Ty, env': Env, ghost d: Deriv)
      requires Valid() && n.kind.IvarWrite?
      modifies this
      ensures Valid() && Kept(d.fx) && Yields(d, ty, env')
      ensures WritesIvar(p, CtxOf(mode, scope, guards, busy, self), Left(depth), n, env, d)
      decreases p.methods.Keys - busy.keys, p.classMethods.Keys - busy.classes, 4, n, 7
    {
      ghost var t := TrailOf(local, capture, log);
      ghost var v;
      ty, env', v := InferExpr(n.kind.value, env, self);
      ghost var stores := if self.SInstance? then [Store(self.cls, n.kind.x, ty)] else [];
      RunStoring(TrailOf(local, capture, log), stores);
      if self.SInstance? { CaptureIvar(self.cls, n.kind.x, ty); }
      RunThen(t, v.fx, Storing(stores));
      d := Deriv(ty, env', Then(v.fx, Storing(stores)), [v], NoWalk);
    }

    /** Every form that assigns locals: the value is walked, its constraints end, then the names are bound. */
    method InferWrite(n: Node, env: Env, self: SelfTy) returns (ty: Ty, env': Env, ghost d: Deriv)
      requires Valid() && Assigns(n)
      modifies this
      ensures Valid() && Kept(d.fx) && Yields(d, ty, env')
      ensures Writes(p, CtxOf(mode, scope, guards, busy, self), Left(depth), n, env, d)
      decreases p.methods.Keys - busy.keys, p.classMethods.Keys - busy.classes, 4, n, 7
    {
      ghost var v;
      ty, env', v := InferAssigned(n, n.kind.value, AssignedNames(n), env, self);
      ty, env' := BindNames(n, ty, env');
      d := Deriv(ty, env', Then(v.fx, Rebinding(AssignedNames(n))), [v], NoWalk);
    }

    /** The names are bound to what the form makes of the value. */
    method BindNames(n: Node, value: Ty, env: Env) returns (ty: Ty, env': Env)
      requires LogOk(census, log, count) && Assigns(n)
      modifies this`log
      ensures LogOk(census, log, count) && log.stats == old(log).stats && log.diags == old(log).diags
      ensures mode.silent ==> log == old(log)
      ensures ty == BoundTy(mode.casts, n, value, env) && env' == BindAll(env, AssignedNames(n), ty)
    {
      var x := if n.kind.MultiWrite? then "" else n.kind.x;
      if n.kind.LocalWrite? {
        ty := ApplyCast(mode.casts, value, n.kind.value.span.0);
        NoteOrigin(x, n.kind.value, ty);
        BindOne(env, x, ty);
        env' := env[x := ty];
      } else if n.kind.LocalOrWrite? {
        ty := Join(if x in env then env[x] else Nil, value);
        BindOne(env, x, ty);
        env' := env[x := ty];
      } else {
        ty := Unknown;
        env' := BindAll(env, AssignedNames(n), Unknown);
      }
    }

    /** The value, after which the constraints of the assigned names end. */
    method InferAssigned(ghost n: Node, value: Node, xs: seq<string>, env: Env, self: SelfTy)
        returns (ty: Ty, env': Env, ghost v: Deriv)
      requires Valid() && value < n
      modifies this
      ensures Valid() && Kept(Then(v.fx, Rebinding(xs))) && Yields(v, ty, env')
      ensures Derives(p, CtxOf(mode, scope, guards, busy, self), Left(depth), value, env, v)
      decreases p.methods.Keys - busy.keys, p.classMethods.Keys - busy.classes, 4, n, 6
    {
      ghost var t := TrailOf(local, capture, log);
      ty, env', v := InferExpr(value, env, self);
      KillConstraints(xs);
      RunThen(t, v.fx, Rebinding(xs));
      assert StacksKept() && TraceKept() && Counted();
    }

    /** `local_origin`: why a local's type is not known. */
    method NoteOrigin(x: string, v: Node, ty: Ty)
      requires LogOk(census, log, count)
      modifies this`log
      ensures LogOk(census, log, count) && log.stats == old(log).stats && log.diags == old(log).diags
      ensures mode.silent ==> log == old(log)
    {
      if Counting() {
        var o := UnknownOrigin(Some(v));
        log := log.(origins := if ty.Unknown? || ty.Union? then log.origins[x := o] else log.origins - {x});
      }
    }

    method InferReturn(n: Node, env: Env, self: SelfTy) returns (ty: Ty, env': Env, ghost d: Deriv)
      requires Valid() && n.kind.ReturnNode?
      modifies this
      ensures Valid() && Kept(d.fx) && Yields(d, ty, env')
      ensures Returns(p, CtxOf(mode, scope, guards, busy, self), Left(depth), n, env, d)
      decreases p.methods.Keys - busy.keys, p.classMethods.Keys - busy.classes, 4, n, 7, 0
    {
      ghost var t := TrailOf(local, capture, log);
      var tys;
      ghost var v;
      tys, env', v := InferSeq(n.kind.args, env, self);
      var out := if tys == [] then Nil else if |tys| == 1 then tys[0] else Array(Unknown);
      RunReturning(TrailOf(local, capture, log), out);
      local := local.(returned := local.returned + [out]);
      RunThen(t, v.fx, Returning(out));
      ty := Unknown;
      d := Deriv(ty, env', Then(v.fx, Returning(out)), [v], NoWalk);
    }

    /** `if` and `unless`: guards are pushed around the branch they hold in and popped after it. */
    method InferIf(n: Node, env: Env, self: SelfTy) returns (ty: Ty, env': Env, ghost d: Deriv)
      requires Valid() && n.kind.IfNode?
      modifies this
      ensures Valid() && Kept(d.fx) && Yields(d, ty, env')
      ensures Branches(p, CtxOf(mode, scope, guards, busy, self), Left(depth), n, env, d)
      decreases p.methods.Keys - busy.keys, p.classMethods.Keys - busy.classes, 4, n, 7, 0
    {
      ghost var t := TrailOf(local, capture, log);
      var _, base, pred := InferExpr(n.kind.pred, env, self);
      ghost var thn, els;
      ty, env', thn, els := InferBranches(n, base, self, pred);
      RunThen(t, pred.fx, Then(thn.fx, els.fx));
      d := Deriv(ty, env', Then(pred.fx, Then(thn.fx, els.fx)), [pred, thn, els], NoWalk);
    }

    method InferBranches(n: Node, base: Env, self: SelfTy, ghost pred: Deriv)
        returns (ty: Ty, env': Env, ghost thn: Deriv, ghost els: Deriv)
      requires Valid() && n.kind.IfNode? && pred.env == base
      modifies this
      ensures Valid() && Kept(Then(thn.fx, els.fx))
      ensures Branch(p, CtxOf(mode, scope, guards, busy, self), Left(depth), n, true, base, thn)
      ensures Branch(p, CtxOf(mode, scope, guards, busy, self), Left(depth), n, false, base, els)
      ensures Joined(n, pred, thn, els, Deriv(ty, env', Then(pred.fx, Then(thn.fx, els.fx)), [pred, thn, els], NoWalk))
      decreases p.methods.Keys - busy.keys, p.classMethods.Keys - busy.classes, 4, n, 6
    {
      var k := n.kind;
      ghost var t := TrailOf(local, capture, log);
      var holds, fails := Flow.WhenTrue(base, k.narrow), Flow.WhenFalse(base, k.narrow);
      var thenTy, elseTy, thenEnv, elseEnv;
      thenTy, thenEnv, thn := InferBranch(n, true, if k.negated then fails else holds, self, base);
      elseTy, elseEnv, els := InferBranch(n, false, if k.negated then holds else fails, self, base);
      RunThen(t, thn.fx, els.fx);
      var shortcut := k.narrow.Some? && k.leaves && !k.hasElse && (k.negated ==> !k.narrow.value.kind.IsAFact?);
      env' := if shortcut then elseEnv else Flow.JoinEnvs(base, [thenEnv, elseEnv]);
      ty := Join(thenTy, elseTy);
    }

    /** One branch; the guards hold in the branch the predicate proves them for. */
    method InferBranch(n: Node, thn: bool, env: Env, self: SelfTy, ghost base: Env)
        returns (ty: Ty, env': Env, ghost d: Deriv)
      requires Valid() && n.kind.IfNode?
      requires env == (if thn != n.kind.negated then Flow.WhenTrue(base, n.kind.narrow)
                       else Flow.WhenFalse(base, n.kind.narrow))
      modifies this
      ensures Valid() && Kept(d.fx) && Yields(d, ty, env')
      ensures Branch(p, CtxOf(mode, scope, guards, busy, self), Left(depth), n, thn, base, d)
      decreases p.methods.Keys - busy.keys, p.classMethods.Keys - busy.classes, 4, n, 5
    {
      var ns, tys := if thn then n.kind.thn else n.kind.els, [];
      if thn == n.kind.negated {
        tys, env', d := InferSeq(ns, env, self);
      } else {
        tys, env', d := InferGuarded(n, ns, env, self);
      }
      ty := Flow.LastTy(tys);
    }

    /** A list under the guards of `if defined?(X)` or `if respond_to?(:m)`, popped after it. */
    method InferGuarded(n: Node, ns: seq<Node>, env: Env, self: SelfTy)
        returns (tys: seq<Ty>, env': Env, ghost d: Deriv)
      requires Valid() && n.kind.IfNode? && (ns == n.kind.thn || ns == n.kind.els)
      modifies this
      ensures Valid() && Kept(d.fx) && Yields(d, Flow.LastTy(tys), env')
      ensures DerivesList(p, Under(CtxOf(mode, scope, guards, busy, self),
                                   Pushed(guards, n.kind.definedGuard, n.kind.respondGuard)), Left(depth), ns, env, d)
      decreases p.methods.Keys - busy.keys, p.classMethods.Keys - busy.classes, 4, n, 4
    {
      var g, r := n.kind.definedGuard, n.kind.respondGuard;
      guards := Pushed(guards, g, r);
      tys, env', d := InferSeq(ns, env, self);
      if g.Some? { guards := guards.(defined := guards.defined[..|guards.defined| - 1]); }
      if r.Some? { guards := guards.(respond := guards.respond[..|guards.respond| - 1]); }
      assert guards.defined == old(guards).defined && guards.respond == old(guards).respond;
    }

    method InferAndOr(n: Node, env: Env, self: SelfTy) returns (ty: Ty, env': Env, ghost d: Deriv)
      requires Valid() && (n.kind.AndNode? || n.kind.OrNode?)
      modifies this
      ensures Valid() && Kept(d.fx) && Yields(d, ty, env')
      ensures AndsOrs(p, CtxOf(mode, scope, guards, busy, self), Left(depth), n, env, d)
      decreases p.methods.Keys - busy.keys, p.classMethods.Keys - busy.classes, 4, n, 7, 0
    {
      ghost var t := TrailOf(local, capture, log);
      var lt, env1, l := InferExpr(n.kind.l, env, self);
      var rt;
      ghost var r;
      rt, env', r := InferRight(n, env1, self);
      RunThen(t, l.fx, r.fx);
      ty := Join(lt, rt);
      d := Deriv(ty, env', Then(l.fx, r.fx), [l, r], NoWalk);
    }

    /** The right operand; what a left `is_a?(Class)` proved holds here only. */
    method InferRight(n: Node, env: Env, self: SelfTy) returns (ty: Ty, env': Env, ghost d: Deriv)
      requires Valid() && (n.kind.AndNode? || n.kind.OrNode?)
      modifies this
      ensures Valid() && Kept(d.fx) && Yields(d, ty, env')
      ensures Derives(p, Under(CtxOf(mode, scope, guards, busy, self), PushedClass(guards, n)), Left(depth), n.kind.r,
                      env, d)
      decreases p.methods.Keys - busy.keys, p.classMethods.Keys - busy.classes, 4, n, 6
    {
      var g := if n.kind.AndNode? then n.kind.classGuard else None;
      if g.Some? { guards := guards.(narrowed := guards.narrowed + [(g.value, Unknown)]); }
      ty, env', d := InferExpr(n.kind.r, env, self);
      if g.Some? { guards := guards.(narrowed := guards.narrowed[..|guards.narrowed| - 1]); }
      assert guards.narrowed == old(guards).narrowed;
    }

    /** A block or lambda: its writes are spilled. */
    method InferClosure(ghost n: Node, b: Block, rebindable: bool, env: Env, self: SelfTy)
        returns (env': Env, ghost d: Deriv)
      requires Valid() && (b.body.Some? ==> b.body.value < n)
      modifies this
      ensures Valid() && Kept(d.fx) && Yields(d, Unknown, env')
      ensures Closes(p, CtxOf(mode, scope, guards, busy, self), Left(depth), b, rebindable, env, d)
      decreases p.methods.Keys - busy.keys, p.classMethods.Keys - busy.classes, 4, n, 5, 2
    {
      var benv, v := InferPushed(n, b, rebindable, BindUnknown(env, b.params), self);
      env' := Spill(env, benv);
      d := Deriv(Unknown, env', v.fx, [v], NoWalk);
    }

    /** The body, with the block's parameters pushed and truncated. */
    method InferPushed(ghost n: Node, b: Block, rebindable: bool, env: Env, self: SelfTy)
        returns (benv: Env, ghost d: Deriv)
      requires Valid() && (b.body.Some? ==> b.body.value < n)
      modifies this
      ensures Valid() && Kept(d.fx) && d.env == benv
      ensures DerivesOpt(p, InBlock(CtxOf(mode, scope, guards, busy, self), b, rebindable), Left(depth), b.body, env, d)
      decreases p.methods.Keys - busy.keys, p.classMethods.Keys - busy.classes, 4, n, 5, 1
    {
      var params := |scope.blockParams|;
      scope := scope.(blockParams := scope.blockParams + if census then b.params else []);
      benv, d := InferArmed(n, b, rebindable, env, self);
      scope := scope.(blockParams := scope.blockParams[..params]);
      assert scope.blockParams == old(scope).blockParams;
    }

    /** The body, with the subjects it asserts to raise armed and disarmed. */
    method InferArmed(ghost n: Node, b: Block, rebindable: bool, env: Env, self: SelfTy)
        returns (benv: Env, ghost d: Deriv)
      requires Valid() && (b.body.Some? ==> b.body.value < n)
      modifies this
      ensures Valid() && Kept(d.fx) && d.env == benv
      ensures DerivesOpt(p, InBlock(CtxOf(mode, scope, guards, busy, self), b, rebindable), Left(depth), b.body, env, d)
      decreases p.methods.Keys - busy.keys, p.classMethods.Keys - busy.classes, 4, n, 5, 0
    {
      var subjects := |guards.subjects|;
      guards := Armed(guards, b.subjects);
      benv, d := InferClosureBody(n, b, rebindable, env, self);
      guards := guards.(subjects := guards.subjects[..subjects]);
      assert guards.subjects == old(guards).subjects;
    }

    /** The rebindable depth is raised and lowered around the body. */
    method InferClosureBody(ghost n: Node, b: Block, rebindable: bool, env: Env, self: SelfTy)
        returns (benv: Env, ghost d: Deriv)
      requires Valid() && (b.body.Some? ==> b.body.value < n)
      modifies this
      ensures Valid() && Kept(d.fx) && d.env == benv
      ensures DerivesOpt(p, Rebindable(CtxOf(mode, scope, guards, busy, self), rebindable), Left(depth), b.body, env, d)
      decreases p.methods.Keys - busy.keys, p.classMethods.Keys - busy.classes, 4, n, 4
    {
      if b.body.None? {
        RunStill(TrailOf(local, capture, log));
        return env, Deriv(Nil, env, STILL, [], NoWalk);
      }
      var ignored;
      ghost var cx := Rebindable(CtxOf(mode, scope, guards, busy, self), rebindable);
      if rebindable { scope := scope.(rebindable := scope.rebindable + 1); }
      assert cx == CtxOf(mode, scope, guards, busy, self);
      ignored, benv, d := InferExpr(b.body.value, env, self);
      if rebindable { scope := scope.(rebindable := scope.rebindable - 1); }
    }

    // ----- calls -----

    /** `check_call`: receiver, arguments, block, then exactly one verdict. */
    method CheckCall(n: Node, env: Env, self: SelfTy) returns (ty: Ty, env': Env, ghost d: Deriv)
      requires Valid() && n.kind.CallNode?
      modifies this
      ensures Valid() && Kept(d.fx) && Yields(d, ty, env')
      ensures Calls(p, CtxOf(mode, scope, guards, busy, self), Left(depth), n, env, d)
      decreases p.methods.Keys - busy.keys, p.classMethods.Keys - busy.classes, 4, n, 7, 0
    {
      ghost var t := TrailOf(local, capture, log);
      var recvTy, args;
      ghost var ds, w;
      recvTy, args, env', ds := InferOperands(n, env, self);
      ghost var site, fx := Site(n, recvTy, args), OperandFx(ds[0], ds[1], ds[2]);
      if Counting() { count := count.(entered := count.entered + 1); }
      ty, w := Dispatch(n, recvTy, args, self);
      RunThen(t, fx, CallFx(p, CtxOf(mode, scope, guards, busy, self), site, w));
      d := Deriv(ty, env', Then(fx, CallFx(p, CtxOf(mode, scope, guards, busy, self), site, w)), ds, w);
    }

    /** The receiver, the arguments and the block. */
    method InferOperands(n: Node, env: Env, self: SelfTy)
        returns (recvTy: Ty, args: seq<Pos>, env': Env, ghost ds: seq<Deriv>)
      requires Valid() && n.kind.CallNode?
      modifies this
      ensures Valid() && Operands(p, CtxOf(mode, scope, guards, busy, self), Left(depth), n, env, ds)
      ensures Kept(OperandFx(ds[0], ds[1], ds[2]))
      ensures Site(n, recvTy, args) == SiteOf(CtxOf(mode, scope, guards, busy, self), n, ds[0], ds[1])
      ensures env' == ds[2].env
      decreases p.methods.Keys - busy.keys, p.classMethods.Keys - busy.classes, 4, n, 6
    {
      ghost var t := TrailOf(local, capture, log);
      ghost var recv, list, blk;
      recvTy, args, env', recv, list := InferRecvArgs(n, env, self);
      env', blk := InferBlock(n, recvTy, env', self);
      RunThen(t, Then(recv.fx, list.fx), blk.fx);
      ds := [recv, list, blk];
    }

    method InferBlock(n: Node, recvTy: Ty, env: Env, self: SelfTy) returns (env': Env, ghost d: Deriv)
      requires Valid() && n.kind.CallNode?
      modifies this
      ensures Valid() && Kept(d.fx) && d.env == env'
      ensures Blocks(p, CtxOf(mode, scope, guards, busy, self), Left(depth), n, recvTy, env, d)
      decreases p.methods.Keys - busy.keys, p.classMethods.Keys - busy.classes, 4, n, 5, 3
    {
      if n.kind.blk.Some? {
        env', d := InferClosure(n, n.kind.blk.value, !p.keepsSelf(recvTy, n.kind.name), env, self);
      } else {
        RunStill(TrailOf(local, capture, log));
        env', d := env, Deriv(Nil, env, STILL, [], NoWalk);
      }
    }

    method InferRecvArgs(n: Node, env: Env, self: SelfTy)
        returns (recvTy: Ty, args: seq<Pos>, env': Env, ghost recv: Deriv, ghost list: Deriv)
      requires Valid() && n.kind.CallNode?
      modifies this
      ensures Valid() && Kept(Then(recv.fx, list.fx)) && recv.ty == recvTy && list.env == env'
      ensures Receives(p, CtxOf(mode, scope, guards, busy, self), Left(depth), n, env, recv)
      ensures DerivesList(p, CtxOf(mode, scope, guards, busy, self), Left(depth), n.kind.args, recv.env, list)
      ensures args == Positional(n.kind.args, TysOf(list.kids), mode.casts)
      decreases p.methods.Keys - busy.keys, p.classMethods.Keys - busy.classes, 4, n, 5
    {
      ghost var t := TrailOf(local, capture, log);
      recvTy, env', recv := InferReceiver(n, env, self);
      var tys;
      tys, env', list := InferSeq(n.kind.args, env', self);
      args := Positional(n.kind.args, tys, mode.casts);
      RunThen(t, recv.fx, list.fx);
    }

    /** The receiver, with the asserted subjects of `expect { ... }.to raise_error` armed
        around it, and what an enclosing `&&` proved about it. */
    method InferReceiver(n: Node, env: Env, self: SelfTy) returns (ty: Ty, env': Env, ghost d: Deriv)
      requires Valid() && n.kind.CallNode?
      modifies this
      ensures Valid() && Kept(d.fx) && Yields(d, ty, env')
      ensures Receives(p, CtxOf(mode, scope, guards, busy, self), Left(depth), n, env, d)
      decreases p.methods.Keys - busy.keys, p.classMethods.Keys - busy.classes, 4, n, 4
    {
      var saved := |guards.subjects|;
      guards := Armed(guards, n.kind.rspec);
      if n.kind.recv.Some? {
        ty, env', d := InferExtended(n, env, self);
        ty := NarrowedRead(n.kind.recv.value, guards.narrowed, ty);
        d := d.(ty := ty);
      } else {
        RunStill(TrailOf(local, capture, log));
        ty, env', d := SelfAsTy(self), env, Deriv(SelfAsTy(self), env, STILL, [], NoWalk);
      }
      guards := guards.(subjects := guards.subjects[..saved]);
      assert guards.subjects == old(guards).subjects;
    }

    /** The receiver itself, made unknowable by `x.extend(M)`. */
    method InferExtended(n: Node, env: Env, self: SelfTy) returns (ty: Ty, env': Env, ghost d: Deriv)
      requires Valid() && n.kind.CallNode? && n.kind.recv.Some?
      modifies this
      ensures Valid() && Kept(d.fx) && Yields(d, ty, env') && |d.kids| == 1 && d.kids[0].ty == ty
      ensures Derives(p, CtxOf(mode, scope, guards, busy, self), Left(depth), n.kind.recv.value, env, d.kids[0])
      ensures env' == ExtendedEnv(p, n, d.kids[0].env)
      ensures d.fx == Then(d.kids[0].fx, Storing(ExtendedStores(n, self)))
      decreases p.methods.Keys - busy.keys, p.classMethods.Keys - busy.classes, 4, n, 3
    {
      ghost var t := TrailOf(local, capture, log);
      var r := n.kind.recv.value;
      ghost var v;
      ty, env', v := InferExpr(r, env, self);
      RunStoring(TrailOf(local, capture, log), ExtendedStores(n, self));
      if n.kind.name == "extend" {
        if p.closedWorld && r.kind.LocalRead? { env' := env'[r.kind.x := Unknown]; }
        if r.kind.IvarRead? && self.SInstance? { CaptureIvar(self.cls, r.kind.x, Unknown); }
      }
      RunThen(t, v.fx, Storing(ExtendedStores(n, self)));
      d := Deriv(ty, env', Then(v.fx, Storing(ExtendedStores(n, self))), [v], NoWalk);
    }

    /** Suppressions first, then the receiver's type decides. */
    method Dispatch(n: Node, recvTy: Ty, args: seq<Pos>, ghost self: SelfTy) returns (ty: Ty, ghost w: Walk)
      requires Valid() && n.kind.CallNode?
      modifies this
      ensures Valid() && Dispatched(Site(n, recvTy, args), self, ty, w)
      decreases p.methods.Keys - busy.keys, p.classMethods.Keys - busy.classes, 3, 3
    {
      if n.span in guards.subjects ||
         (scope.rebindable > 0 && (n.kind.recv.None? || n.kind.recv.value.kind.SelfRead?)) {
        DispatchExcused(n, recvTy, args, self);
        ty, w := Unknown, NoWalk;
      } else if recvTy.Unknown? || recvTy.Union? {
        DispatchUnknown(n, recvTy, args, self);
        ty, w := Unknown, NoWalk;
      } else {
        ty, w := DispatchKnown(n, recvTy, args, self);
      }
    }

    method DispatchExcused(n: Node, recvTy: Ty, args: seq<Pos>, ghost self: SelfTy)
      requires Valid() && n.kind.CallNode? && Excused(n, guards, scope.rebindable)
      modifies this`log
      ensures Valid() && Dispatched(Site(n, recvTy, args), self, Unknown, NoWalk)
    {
      PlainCall(p, CtxOf(mode, scope, guards, busy, self), Site(n, recvTy, args), TrailOf(local, capture, log));
      Inconclusively(n);
    }

    method DispatchUnknown(n: Node, recvTy: Ty, args: seq<Pos>, ghost self: SelfTy)
      requires Valid() && n.kind.CallNode? && (recvTy.Unknown? || recvTy.Union?)
      requires !Excused(n, guards, scope.rebindable)
      modifies this`log, this`local
      ensures Valid() && Dispatched(Site(n, recvTy, args), self, Unknown, NoWalk)
    {
      PlainCall(p, CtxOf(mode, scope, guards, busy, self), Site(n, recvTy, args), TrailOf(local, capture, log));
      UnknownReceiverCall(n, recvTy, args);
      if recvTy.Unknown? { CollectConstraint(n, recvTy, args); }
    }

    method DispatchKnown(n: Node, recvTy: Ty, args: seq<Pos>, ghost self: SelfTy) returns (ty: Ty, ghost w: Walk)
      requires Valid() && n.kind.CallNode? && !recvTy.Unknown? && !recvTy.Union?
      requires !Excused(n, guards, scope.rebindable)
      modifies this
      ensures Valid() && Dispatched(Site(n, recvTy, args), self, ty, w)
      decreases p.methods.Keys - busy.keys, p.classMethods.Keys - busy.classes, 3, 2
    {
      if recvTy.Instance? {
        ty, w := DispatchInstance(n, recvTy.cls, args, self);
      } else if recvTy.Class? && n.kind.name != "new" {
        ty, w := DispatchClass(n, recvTy.cls, args, self);
      } else {
        ty := DispatchFixed(n, recvTy, args, self);
        w := NoWalk;
      }
    }

    /** `.new` and core receivers: no walk is opened. */
    method DispatchFixed(n: Node, recvTy: Ty, args: seq<Pos>, ghost self: SelfTy) returns (ty: Ty)
      requires Valid() && n.kind.CallNode? && !Excused(n, guards, scope.rebindable)
      requires !recvTy.Unknown? && !recvTy.Union? && !recvTy.Instance? && (recvTy.Class? ==> n.kind.name == "new")
      modifies this`log, this`hovered, this`count
      ensures Valid() && Dispatched(Site(n, recvTy, args), self, ty, NoWalk)
    {
      PlainCall(p, CtxOf(mode, scope, guards, busy, self), Site(n, recvTy, args), TrailOf(local, capture, log));
      if recvTy.Class? {
        ty := DispatchNew(n, recvTy.cls, args);
      } else {
        ty := DispatchCore(n, recvTy, args);
      }
    }

    method UnknownReceiverCall(n: Node, ghost recvTy: Ty, ghost args: seq<Pos>)
      requires LogOk(census, log, count) && n.kind.CallNode? && (recvTy.Unknown? || recvTy.Union?)
      requires !Excused(n, guards, scope.rebindable)
      modifies this`log
      ensures Spoke(Site(n, recvTy, args), Unknown)
    {
      if Counting() {
        var origin, cause := UnknownOrigin(n.kind.recv), UnknownCause(n.kind.recv);
        UnknownTally(log, n.span, origin, cause, count);
        log := TalliedUnknown(log, n.span, origin, cause);
      }
    }

    method Inconclusively(n: Node)
      requires LogOk(census, log, count)
      modifies this`log
      ensures LogStep([], InconclusiveCall)
    {
      if Counting() {
        BlockedTally(log, None, false, count);
        log := TalliedInconclusive(log, None);
      }
      NoteUnknown(n.span, FromProjectRet, None);
    }

    /** The arm every ancestry-blocked lookup shares. */
    method BlockedLookup(n: Node, c: ClassId, singleton: bool)
      requires LogOk(census, log, count)
      modifies this`log
      ensures LogStep([], InconclusiveCall)
    {
      var blocker := p.blocker(c, singleton);
      if Counting() {
        BlockedTally(log, blocker, p.arBase(c), count);
        log := TalliedArBase(TalliedInconclusive(log, blocker), blocker, p.arBase(c));
      }
      NoteUnknown(n.span, FromProjectRet, None);
    }

    /** `rbi_escalate` before the blocked arm: a declared method leaves the inconclusive
        bucket for one of its own. */
    method OpenLookup(n: Node, c: ClassId, name: string, escalateOn: bool, blameOn: bool) returns (ty: Option<Ty>)
      requires LogOk(census, log, count)
      modifies this`log
      ensures LogStep([], OpenBucket(p, c, name, escalateOn))
      ensures (if ty.Some? then ty.value else Unknown) == Escalated(p, mode.silent, c, name, escalateOn)
    {
      var hit := p.escalate(c, name, escalateOn);
      if !mode.silent && hit.Some? {
        TallyPlain(BucketVia(hit.value.0));
        return Some(hit.value.1);
      }
      BlockedLookup(n, c, blameOn);
      return None;
    }

    /** E0102, positional arity against a project signature. */
    method CheckArity(m: MethodSig, countable: bool, n: Node, recvTy: Ty, args: seq<Pos>)
      requires LogOk(census, log, count) && n.kind.CallNode?
      requires TargetOf(p, recvTy, n.kind.name) == Method(m, countable)
      modifies this`log
      ensures Raised(CountDiags(p, Site(n, recvTy, args), guards, scope.rebindable))
    {
      if !countable || !ExactArity(n.kind.args) || m.arityUnknown || m.rest { return; }
      if |args| < m.required || m.required + m.optional < |args| {
        Emit(Diag(E0102, n.kind.msg, WrongCount(Site(n, recvTy, args)), guards, scope.rebindable));
      }
    }

    /** E0103, each positional argument against the signature's parameter type. */
    method CheckSigArgs(m: MethodSig, countable: bool, n: Node, recvTy: Ty, args: seq<Pos>)
      requires LogOk(census, log, count) && n.kind.CallNode?
      requires TargetOf(p, recvTy, n.kind.name) == Method(m, countable)
      modifies this`log
      ensures Raised(ArgDiags(p, Site(n, recvTy, args), |args|, guards, scope.rebindable))
    {
      ghost var site := Site(n, recvTy, args);
      if m.ret.None? {
        NoMoreArgs(p, site, 0, |args|, guards, scope.rebindable);
        return;
      }
      for i := 0 to |args|
        invariant Raised(ArgDiags(p, site, i, guards, scope.rebindable))
      {
        if i >= |m.paramTys| {
          NoMoreArgs(p, site, i, |args|, guards, scope.rebindable);
          return;
        }
        CheckArg(m, countable, n, recvTy, args, i);
        AppendTwice(old(log).diags, ArgDiags(p, site, i, guards, scope.rebindable),
                    ArgDiag(p, site, i, guards, scope.rebindable));
      }
    }

    method CheckArg(m: MethodSig, ghost countable: bool, n: Node, recvTy: Ty, args: seq<Pos>, i: nat)
      requires LogOk(census, log, count) && n.kind.CallNode? && m.ret.Some? && i < |args| && i < |m.paramTys|
      requires TargetOf(p, recvTy, n.kind.name) == Method(m, countable)
      modifies this`log
      ensures Raised(ArgDiag(p, Site(n, recvTy, args), i, guards, scope.rebindable))
    {
      if !Compat.Compatible(args[i].ty, m.paramTys[i], p.index) {
        Emit(Diag(E0103, args[i].span, BadArgument(Site(n, recvTy, args), i), guards, scope.rebindable));
      }
    }

    /** A found method: tally, hover, arity and signature checks. */
    method Resolve(m: MethodSig, countable: bool, n: Node, recvTy: Ty, args: seq<Pos>)
      requires LogOk(census, log, count) && n.kind.CallNode? && !Excused(n, guards, scope.rebindable)
      requires TargetOf(p, recvTy, n.kind.name) == Method(m, countable)
      modifies this`log, this`hovered
      ensures Judged(Site(n, recvTy, args))
      ensures mode.hover.None? ==> hovered == old(hovered)
    {
      TallyPlain(Resolved);
      HoverCall(n.kind.msg, n.kind.name);
      ghost var was, site := log.diags, Site(n, recvTy, args);
      CheckArity(m, countable, n, recvTy, args);
      CheckSigArgs(m, countable, n, recvTy, args);
      AppendTwice(was, CountDiags(p, site, guards, scope.rebindable),
                  ArgDiags(p, site, |args|, guards, scope.rebindable));
    }

    /** E0101: the tally and the diagnostic, only on a proven miss nothing spares. */
    method Accuse(n: Node, recvTy: Ty, args: seq<Pos>)
      requires LogOk(census, log, count) && n.kind.CallNode? && !Excused(n, guards, scope.rebindable)
      requires TargetOf(p, recvTy, n.kind.name) == Absent && !Responds(n, recvTy, guards)
      modifies this`log
      ensures Judged(Site(n, recvTy, args))
    {
      var d := Diag(E0101, n.kind.msg, NoMethod(Site(n, recvTy, args)), guards, scope.rebindable);
      if Counting() {
        AccusedTally(log, d, count);
        log := Tallied(log, Diagnosed);
        log := Emitted(log, d);
      } else if !mode.silent {
        EmitKeepsLog(census, log, d, count);
        log := Emitted(log, d);
      }
      NoteUnknown(n.span, FromProjectRet, None);
    }

    /** E0102, positional arity against the core table. */
    method CheckCoreArity(cm: CoreMethod, n: Node, recvTy: Ty, args: seq<Pos>)
      requires LogOk(census, log, count) && n.kind.CallNode?
      requires TargetOf(p, recvTy, n.kind.name) == Core(cm)
      modifies this`log
      ensures Raised(CountDiags(p, Site(n, recvTy, args), guards, scope.rebindable))
    {
      if !ExactArity(n.kind.args) || cm.max.None? { return; }
      if |args| < cm.min || cm.max.value < |args| {
        Emit(Diag(E0102, n.kind.msg, WrongCount(Site(n, recvTy, args)), guards, scope.rebindable));
      }
    }

    method CoreResult(cm: CoreMethod, n: Node, recvTy: Ty, args: seq<Pos>) returns (ty: Ty)
      requires LogOk(census, log, count) && n.kind.CallNode? && !Excused(n, guards, scope.rebindable)
      requires TargetOf(p, recvTy, n.kind.name) == Core(cm)
      modifies this`log
      ensures Judged(Site(n, recvTy, args)) && ty == cm.ret
    {
      TallyPlain(CoreCall);
      CheckCoreArity(cm, n, recvTy, args);
      ty := cm.ret;
      if ty == Unknown { NoteUnknown(n.span, FromCoreRet, None); }
    }

    method DispatchCore(n: Node, t: Ty, args: seq<Pos>) returns (ty: Ty)
      requires LogOk(census, log, count) && n.kind.CallNode? && !Excused(n, guards, scope.rebindable)
      requires !t.Unknown? && !t.Union? && !t.Instance? && !t.Class?
      modifies this`log
      ensures Spoke(Site(n, t, args), ty)
    {
      var cm := p.core(t, n.kind.name);
      ty := Unknown;
      if cm.Some? {
        ty := CoreResult(cm.value, n, t, args);
      } else if p.conclusiveMiss(t, n.kind.name) {
        Accuse(n, t, args);
        NoteUnknown(n.span, FromCoreRet, None);
      } else {
        Inconclusively(n);
        NoteUnknown(n.span, FromCoreRet, None);
      }
    }

    method DispatchInstance(n: Node, c: ClassId, args: seq<Pos>, ghost self: SelfTy) returns (ty: Ty, ghost w: Walk)
      requires Valid() && n.kind.CallNode? && !Excused(n, guards, scope.rebindable)
      modifies this
      ensures Valid() && Dispatched(Site(n, Instance(c), args), self, ty, w)
      decreases p.methods.Keys - busy.keys, p.classMethods.Keys - busy.classes, 3, 1
    {
      var key := Key(c, n.kind.name, false);
      var found := LookupOf(p, key);
      if found.Found? {
        ty, w := DispatchFound(n, Instance(c), key, found.m, !found.m.overridden, args, self);
      } else {
        w := NoWalk;
        PlainCall(p, CtxOf(mode, scope, guards, busy, self), Site(n, Instance(c), args), TrailOf(local, capture, log));
        if found.NotFound? {
          ty := DispatchMissed(n, c, args);
        } else {
          var up := OpenLookup(n, c, n.kind.name, false, false);
          ty := if up.Some? then up.value else Unknown;
        }
      }
    }

    /** No project method: the `Object` table, a `respond_to?` guard, or an accusation. */
    method DispatchMissed(n: Node, c: ClassId, args: seq<Pos>) returns (ty: Ty)
      requires LogOk(census, log, count) && n.kind.CallNode? && !Excused(n, guards, scope.rebindable)
      requires LookupOf(p, Key(c, n.kind.name, false)).NotFound?
      modifies this`log
      ensures Spoke(Site(n, Instance(c), args), ty)
    {
      ty := Unknown;
      var cm := p.core(Instance(c), n.kind.name);
      if cm.Some? {
        ty := CoreResult(cm.value, n, Instance(c), args);
      } else if n.kind.recv.None? && n.kind.name in guards.respond {
        Inconclusively(n);
      } else {
        Accuse(n, Instance(c), args);
      }
    }

    /** A found method: the checks, then its inferred return. */
    method DispatchFound(n: Node, recvTy: Ty, key: Key, m: MethodSig, countable: bool, args: seq<Pos>,
                         ghost self: SelfTy)
        returns (ty: Ty, ghost w: Walk)
      requires Valid() && n.kind.CallNode? && !Excused(n, guards, scope.rebindable) && !recvTy.Unknown?
      requires TargetOf(p, recvTy, n.kind.name) == Method(m, countable) && LookupOf(p, key) == Found(m)
      requires AnswerOf(p, mode.silent, Site(n, recvTy, args), guards, scope.rebindable) == ByReturn(key, m)
      modifies this
      ensures Valid() && Dispatched(Site(n, recvTy, args), self, ty, w)
      decreases p.methods.Keys - busy.keys, p.classMethods.Keys - busy.classes, 3, 0
    {
      ghost var t := TrailOf(local, capture, log);
      Resolve(m, countable, n, recvTy, args);
      ty, w := ResolvedReturn(n, key, m, self);
      WalkedCall(p, CtxOf(mode, scope, guards, busy, self), Site(n, recvTy, args), w, t);
    }

    method DispatchClass(n: Node, c: ClassId, args: seq<Pos>, ghost self: SelfTy) returns (ty: Ty, ghost w: Walk)
      requires Valid() && n.kind.CallNode? && n.kind.name != "new" && !Excused(n, guards, scope.rebindable)
      modifies this
      ensures Valid() && Dispatched(Site(n, Class(c), args), self, ty, w)
      decreases p.methods.Keys - busy.keys, p.classMethods.Keys - busy.classes, 3, 1
    {
      var key := Key(c, n.kind.name, true);
      var found := LookupOf(p, key);
      if found.Found? {
        ty, w := DispatchFound(n, Class(c), key, found.m, true, args, self);
      } else {
        w := NoWalk;
        PlainCall(p, CtxOf(mode, scope, guards, busy, self), Site(n, Class(c), args), TrailOf(local, capture, log));
        ty := DispatchUnfound(n, c, args, found.Open?);
      }
    }

    /** No method on the class object: the blocked arm, or an accusation; the dark census records either. */
    method DispatchUnfound(n: Node, c: ClassId, args: seq<Pos>, open: bool) returns (ty: Ty)
      requires LogOk(census, log, count) && n.kind.CallNode? && n.kind.name != "new"
      requires !Excused(n, guards, scope.rebindable)
      requires LookupOf(p, Key(c, n.kind.name, true)) == if open then Open else NotFound
      modifies this`log, this`darkRecs
      ensures Spoke(Site(n, Class(c), args), ty) && (!mode.dark ==> darkRecs == old(darkRecs))
    {
      ty := Unknown;
      if open {
        var up := OpenLookup(n, c, n.kind.name, true, true);
        if up.Some? { return up.value; }
      } else {
        Accuse(n, Class(c), args);
      }
      if mode.dark { darkRecs := darkRecs + [n.kind.msg]; }
    }

    /** `.new` on a class object: an own `self.new` first, then `initialize`. */
    method DispatchNew(n: Node, c: ClassId, args: seq<Pos>) returns (ty: Ty)
      requires LogOk(census, log, count) && n.kind.CallNode? && n.kind.name == "new"
      requires !Excused(n, guards, scope.rebindable)
      modifies this`log, this`hovered, this`count
      ensures Spoke(Site(n, Class(c), args), ty) && (mode.hover.None? ==> hovered == old(hovered))
      ensures NewTarget(p, c).Bare? && Counting() ==>
              count.newNoInit == old(count).newNoInit + 1 && log.stats.anc == old(log).stats.anc
      ensures !NewTarget(p, c).Bare? || !Counting() ==> count == old(count)
    {
      ty := Instance(c);
      if p.anonymous(c) {
        TallyPlain(CoreCall);
        NoteUnknown(n.span, FromCoreRet, None);
        return Unknown;
      }
      match p.ownNew(c)
      case Found(m) => Resolve(m, true, n, Class(c), args);
      case Open => BlockedLookup(n, c, true);
      case NotFound => NewByInitialize(n, c, args);
    }

    method NewByInitialize(n: Node, c: ClassId, args: seq<Pos>)
      requires LogOk(census, log, count) && n.kind.CallNode? && n.kind.name == "new"
      requires !Excused(n, guards, scope.rebindable) && !p.anonymous(c) && p.ownNew(c).NotFound?
      modifies this`log, this`hovered, this`count
      ensures Judged(Site(n, Class(c), args))
      ensures mode.hover.None? ==> hovered == old(hovered)
      ensures NewTarget(p, c).Bare? && Counting() ==>
              count.newNoInit == old(count).newNoInit + 1 && log.stats.anc == old(log).stats.anc
      ensures !NewTarget(p, c).Bare? || !Counting() ==> count == old(count)
    {
      match LookupOf(p, Key(c, "initialize", false))
      case Found(m) => Resolve(m, true, n, Class(c), args);
      case Open => var _ := OpenLookup(n, c, "initialize", false, true);
      case NotFound =>
        if Counting() {
          NewTally(log, count);
          log := Tallied(log, InconclusiveCall);
          count := count.(newNoInit := count.newNoInit + 1);
        }
        NoteUnknown(n.span, FromProjectRet, None);
    }

    /** The inferred return of a found method, noted when unknown. */
    method ResolvedReturn(n: Node, key: Key, m: MethodSig, ghost self: SelfTy) returns (ty: Ty, ghost w: Walk)
      requires Valid() && LookupOf(p, key) == Found(m)
      modifies this
      ensures Valid() && StacksKept() && TraceKept() && Did(MethodLeak(p, w))
      ensures Returned(p, CtxOf(mode, scope, guards, busy, self), Left(depth), key, m, ty, w)
      ensures log.stats == old(log).stats && log.diags == old(log).diags && count == old(count)
      decreases p.methods.Keys - busy.keys, p.classMethods.Keys - busy.classes, 2
    {
      ty, w := MethodReturn(key, m, self);
      if ty == Unknown { NoteUnknown(n.span, FromProjectRet, lastRetCause); }
    }

    // ----- nested walks -----

    /** `method_return`: the signature, the memo, the in-progress fallback, or one silent
        walk of the body. */
    method MethodReturn(key: Key, m: MethodSig, ghost self: SelfTy) returns (ty: Ty, ghost w: Walk)
      requires Valid() && LookupOf(p, key) == Found(m)
      modifies this
      ensures Valid() && Isolated(MethodLeak(p, w)) && darkRecs == old(darkRecs)
      ensures Returned(p, CtxOf(mode, scope, guards, busy, self), Left(depth), key, m, ty, w)
      ensures w.Walk? && w.anew <==> Opens(key, m, old(memo), old(busy))
      ensures m.ret.None? && !m.arityUnknown && key !in busy.keys ==> key in memo.methods && ty == memo.methods[key]
      decreases p.methods.Keys - busy.keys, p.classMethods.Keys - busy.classes, 1
    {
      RunStill(TrailOf(local, capture, log));
      w := NoWalk;
      if m.ret.Some? || m.arityUnknown {
        SetRetCause(None);
        return if m.ret.Some? then m.ret.value else Unknown, NoWalk;
      }
      if key in memo.methods {
        ty, w := memo.methods[key], proofs.methods[key];
        MemoisedIsIdle(memo, busy, walked, key);
        SetRetCause(if ty == Unknown && key in retCauses then Some(retCauses[key]) else None);
        return;
      }
      if key in busy.keys {
        SetRetCause(None);
        return m.sorbet, NoWalk;
      }
      ty, w := FreshReturn(key, m, self);
    }

    /** The freshly computed path of `method_return`. */
    method FreshReturn(key: Key, m: MethodSig, ghost self: SelfTy) returns (ty: Ty, ghost w: Walk)
      requires Valid() && LookupOf(p, key) == Found(m) && m.ret.None? && !m.arityUnknown
      requires key !in memo.methods && key !in busy.keys
      modifies this
      ensures Valid() && Isolated(MethodLeak(p, w)) && darkRecs == old(darkRecs)
      ensures w.Walk? && w.anew && Returned(p, CtxOf(mode, scope, guards, busy, self), Left(depth), key, m, ty, w)
      ensures key in memo.methods && ty == memo.methods[key]
      decreases p.methods.Keys - busy.keys, p.classMethods.Keys - busy.classes, 0
    {
      ghost var cx := CtxOf(mode, scope, guards, busy, self);
      OpenWalk(key);
      ty, w := WalkOpened(key, m, cx);
    }

    /** The walk of a key just put in progress. */
    method WalkOpened(key: Key, m: MethodSig, ghost cx: Ctx) returns (ty: Ty, ghost w: Walk)
      requires Valid() && LookupOf(p, key) == Found(m) && key !in cx.busy.keys
      requires cx.guards == guards && busy == cx.busy.(keys := cx.busy.keys + {key})
      modifies this
      ensures Valid() && busy == cx.busy && key in memo.methods && ty == memo.methods[key]
      ensures mode == old(mode) && scope == old(scope) && guards == old(guards) && depth == old(depth)
      ensures Extends(old(memo), memo) && log == old(log) && count == old(count) && hovered == old(hovered)
      ensures darkRecs == old(darkRecs) && Did(MethodLeak(p, w))
      ensures w.Walk? && w.anew && w.left == Left(depth) && w.cx == MethodCtx(p, cx, key, m)
      ensures MethodWalk(p, key, m, ty, w)
      decreases p.methods.Keys - busy.keys, p.classMethods.Keys - busy.classes, 9
    {
      ty, w := WalkIfDefined(key, m, cx);
      assert MethodWalk(p, key, m, ty, w) && w.left == Left(depth) && w.cx == MethodCtx(p, cx, key, m);
      CloseWalk(key, m, ty, w);
      assert busy == cx.busy by { assert busy.keys == cx.busy.keys; }
    }

    method OpenWalk(key: Key)
      requires MemoOk(memo, busy, walked) && key !in memo.methods && key !in busy.keys
      modifies this`busy, this`walked
      ensures MemoOk(memo, busy, walked) && busy == old(busy).(keys := old(busy).keys + {key})
    {
      StartMethodWalk(memo, busy, walked, key);
      busy, walked := busy.(keys := busy.keys + {key}), walked.(keys := walked.keys + multiset{key});
    }

    method CloseWalk(key: Key, m: MethodSig, ty: Ty, ghost w: Walk)
      requires MemoOk(memo, busy, walked) && MemoProven(p, memo, proofs) && key in busy.keys
      requires LookupOf(p, key) == Found(m) && w.Walk? && MethodWalk(p, key, m, ty, w)
      modifies this`busy, this`memo, this`proofs
      ensures MemoOk(memo, busy, walked) && MemoProven(p, memo, proofs)
      ensures busy == old(busy).(keys := old(busy).keys - {key})
      ensures Extends(old(memo), memo) && key in memo.methods && memo.methods[key] == ty
    {
      BusyNotMemoised(memo, busy, walked, key);
      EndMethodWalk(memo, busy, walked, key, ty);
      MethodRemembered(p, key, m, ty, w);
      busy := busy.(keys := busy.keys - {key});
      memo := memo.(methods := memo.methods[key := ty]);
      proofs := proofs.(methods := proofs.methods[key := w.(anew := false)]);
    }

    /** The body walk, or Unknown without a definition; a sorbet signature fills Unknown. */
    method WalkIfDefined(key: Key, m: MethodSig, ghost cx: Ctx) returns (ty: Ty, ghost w: Walk)
      requires Valid() && cx.guards == guards && busy == cx.busy.(keys := cx.busy.keys + {key})
      modifies this
      ensures Valid() && Isolated(MethodLeak(p, w)) && darkRecs == old(darkRecs)
      ensures w.Walk? && w.anew && w.left == Left(depth) && w.cx == MethodCtx(p, cx, key, m)
      ensures MethodWalk(p, key, m, ty, w)
      decreases p.methods.Keys - busy.keys, p.classMethods.Keys - busy.classes, 8
    {
      ghost var bodies := [];
      ghost var inner := MethodCtx(p, cx, key, m);
      ty := Unknown;
      if m.def.Some? {
        ghost var b;
        ty, b := WalkForeign(m, key, cx);
        bodies := [b];
      } else {
        SetRetCause(Some(CauseOther));
        RunStill(TrailOf(local, capture, log));
      }
      ty := Filled(ty, m.sorbet);
      MemoizeRetCause(key, ty);
      w := Walk(true, inner, Left(depth), bodies);
    }

    method SetRetCause(cause: Option<RetCause>)
      modifies this`lastRetCause
    {
      if census { lastRetCause := cause; }
    }

    method MemoizeRetCause(key: Key, ty: Ty)
      modifies this`retCauses, this`lastRetCause
    {
      if !census { return; }
      if ty == Unknown {
        var cause := if lastRetCause.Some? then lastRetCause.value else CauseOther;
        retCauses := retCauses[key := cause];
        lastRetCause := Some(cause);
      } else {
        lastRetCause := None;
      }
    }

    /** Another method's body, with silence on, its own file's casts, and hover and dark census set aside. */
    method WalkForeign(m: MethodSig, key: Key, ghost cx: Ctx) returns (ty: Ty, ghost b: Body)
      requires Valid() && m.def.Some? && cx.guards == guards && busy == cx.busy.(keys := cx.busy.keys + {key})
      modifies this
      ensures Valid() && darkRecs == old(darkRecs)
      ensures DerivesBody(p, MethodCtx(p, cx, key, m), Left(depth), m.def.value, b) && ty == BodyTy(b)
      ensures Isolated(BodyFx(p, MethodCtx(p, cx, key, m), b).(diags := []))
      decreases p.methods.Keys - busy.keys, p.classMethods.Keys - busy.classes, 7
    {
      var saved := mode;
      mode := Mode(true, false, None, p.fileCasts(m.file));
      ty, b := CheckMethodBody(m.def.value, Some(key.cls), key.singleton);
      assert log == old(log) && Did(BodyFx(p, MethodCtx(p, cx, key, m), b));
      mode := saved;
    }

    /** `check_method_body` */
    method CheckMethodBody(def: Def, cls: Option<ClassId>, singleton: bool) returns (ty: Ty, ghost b: Body)
      requires Valid()
      modifies this
      ensures Valid() && DerivesBody(p, BodyCtx(mode, guards, busy, SelfOf(cls, singleton)), Left(depth), def, b)
      ensures ty == BodyTy(b) && Kept(BodyFx(p, BodyCtx(mode, guards, busy, SelfOf(cls, singleton)), b))
      decreases p.methods.Keys - busy.keys, p.classMethods.Keys - busy.classes, 6
    {
      var saved := scope;
      scope := scope.(params := [], rebindable := 0);
      ty, b := WalkMethod(def, SelfOf(cls, singleton));
      scope := saved;
    }

    /** As every walk, but that the parameters are pushed and not popped. */
    twostate predicate Steady(fx: Fx)
      reads this
    {
      && mode == old(mode) && guards == old(guards) && depth == old(depth) && busy == old(busy)
      && scope.rebindable == old(scope).rebindable && scope.blockParams == old(scope).blockParams
      && TraceKept() && Counted() && Did(fx)
    }

    /** The parameter list, then the body. */
    method WalkMethod(def: Def, self: SelfTy) returns (ty: Ty, ghost b: Body)
      requires Valid()
      modifies this
      ensures Valid() && DerivesBody(p, CtxOf(mode, scope, guards, busy, self), Left(depth), def, b) && ty == BodyTy(b)
      ensures Steady(BodyFx(p, CtxOf(mode, scope, guards, busy, self), b))
      decreases p.methods.Keys - busy.keys, p.classMethods.Keys - busy.classes, 5, 2
    {
      ghost var t := TrailOf(local, capture, log);
      var env, defaults := BindParams(def.params, self);
      ghost var d, order;
      ty, d, order := WalkBody(def, env, self);
      b := Body(defaults, d, order);
      RunThen(t, FxAll(defaults), BodyOut(p, CtxOf(mode, scope, guards, busy, self), d, order));
    }

    /** The body, with returns, constraints, operand proofs and the method name set aside. */
    method WalkBody(def: Def, env: Env, self: SelfTy) returns (ty: Ty, ghost d: Deriv, ghost order: seq<string>)
      requires Valid()
      modifies this
      ensures Valid() && DerivesOpt(p, CtxOf(mode, scope, guards, busy, self), Left(depth), def.body, env, d)
      ensures Lists(order, Collected(d.fx.events).Keys) && ty == JoinAll(d.ty, d.fx.rets)
      ensures Steady(BodyOut(p, CtxOf(mode, scope, guards, busy, self), d, order))
      decreases p.methods.Keys - busy.keys, p.classMethods.Keys - busy.classes, 5, 1
    {
      var saved := local;
      scope := scope.(operands := if mode.silent then map[] else def.operands, name := Some(def.name));
      local := Local(map[], []);
      ty, d, order := InferBody(def, env, self);
      local := saved;
      RunBodyOut(old(TrailOf(local, capture, log)), p, CtxOf(mode, scope, guards, busy, self), d, order);
    }

    /** The folded return type: the last value's type joined with every `return`'s. */
    method InferBody(def: Def, env: Env, self: SelfTy) returns (ty: Ty, ghost d: Deriv, ghost order: seq<string>)
      requires Valid() && local == Local(map[], [])
      modifies this
      ensures Valid() && DerivesOpt(p, CtxOf(mode, scope, guards, busy, self), Left(depth), def.body, env, d)
      ensures Lists(order, Collected(d.fx.events).Keys) && ty == JoinAll(d.ty, d.fx.rets)
      ensures StacksKept() && TraceKept() && Counted() && capture == Captured(old(capture), d.fx.stores)
      ensures log.diags == old(log).diags + BodyOut(p, CtxOf(mode, scope, guards, busy, self), d, order).diags
      decreases p.methods.Keys - busy.keys, p.classMethods.Keys - busy.classes, 5, 0
    {
      var last;
      last, d, order := InferFlushed(def, env, self);
      ty := JoinAll(last, local.returned);
      NoteReturn(def, last, ty);
    }

    /** The body proper, after which its bindings are flushed. */
    method InferFlushed(def: Def, env: Env, self: SelfTy) returns (last: Ty, ghost d: Deriv, ghost order: seq<string>)
      requires Valid() && local == Local(map[], [])
      modifies this
      ensures Valid() && DerivesOpt(p, CtxOf(mode, scope, guards, busy, self), Left(depth), def.body, env, d)
      ensures Lists(order, Collected(d.fx.events).Keys) && last == d.ty && local.returned == d.fx.rets
      ensures StacksKept() && TraceKept() && Counted() && capture == Captured(old(capture), d.fx.stores)
      ensures log.diags == old(log).diags + BodyOut(p, CtxOf(mode, scope, guards, busy, self), d, order).diags
      decreases p.methods.Keys - busy.keys, p.classMethods.Keys - busy.classes, 4, def.body, 10
    {
      var ignored;
      last, ignored, d := InferOpt(def.body, env, self);
      assert [] + d.fx.rets == d.fx.rets;
      order := FlushConstraints();
      AppendTwice(old(log).diags, d.fx.diags,
                  Flush(p, CtxOf(mode, scope, guards, busy, self), order, Collected(d.fx.events)));
    }

    method NoteReturn(def: Def, last: Ty, ty: Ty)
      modifies this`lastRetCause
    {
      if census { lastRetCause := ReturnCause(def, last, ty); }
    }

    function ReturnCause(def: Def, last: Ty, ty: Ty): Option<RetCause>
      reads this
    {
      if ty != Unknown then None
      else if last.Unknown? || last.Union? then
        Some(CauseOf(UnknownOrigin(if def.body.Some? then Tail(def.body.value) else None)))
      else Some(CauseExplicit)
    }

    /** The parameter list. A keyword default is walked here, before the constraints and
        returns of the enclosing walk are set aside. */
    method BindParams(params: seq<Param>, self: SelfTy) returns (env: Env, ghost ds: seq<Deriv>)
      requires Valid()
      modifies this
      ensures Valid() && DerivesParams(p, CtxOf(mode, scope, guards, busy, self), Left(depth), params, ds)
      ensures env == ParamEnv(params, ds)
      ensures Steady(FxAll(ds))
      decreases p.methods.Keys - busy.keys, p.classMethods.Keys - busy.classes, 5, 1, |params|
    {
      if params == [] {
        RunStill(TrailOf(local, capture, log));
        return map[], [];
      }
      var n := |params| - 1;
      ghost var t := TrailOf(local, capture, log);
      ghost var front, d;
      env, front := BindParams(params[..n], self);
      env, d := BindParam(params[n], env, self);
      ds := front + [d];
      assert ds[..n] == front;
      FxAllThen(front, d);
      RunThen(t, FxAll(front), d.fx);
    }

    method BindParam(q: Param, env: Env, self: SelfTy) returns (env': Env, ghost d: Deriv)
      requires Valid()
      modifies this
      ensures Valid() && DerivesOpt(p, CtxOf(mode, scope, guards, busy, self), Left(depth), q.default, env, d)
      ensures Steady(d.fx)
      ensures env' == env[q.name := ParamTy(q, d.ty)]
      decreases p.methods.Keys - busy.keys, p.classMethods.Keys - busy.classes, 5, 0
    {
      var ty, ignored;
      ty, ignored, d := InferOpt(q.default, env, self);
      if census { scope := scope.(params := scope.params + [q.name]); }
      env' := env[q.name := if q.ty.Some? then q.ty.value else if q.default.None? then Unknown else ty];
    }

    /** `flush_constraints`: E0107 for every contradictory binding of the finished scope, and nothing else. */
    method FlushConstraints() returns (ghost order: seq<string>)
      requires LogOk(census, log, count)
      modifies this`local, this`log
      ensures local == old(local).(constraints := map[]) && Lists(order, old(local).constraints.Keys)
      ensures Raised(FlushDiags(p, order, old(local).constraints, guards, scope.rebindable))
    {
      var raw := local.constraints;
      local := local.(constraints := map[]);
      var todo := raw.Keys;
      order := [];
      while todo != {}
        invariant todo <= raw.Keys && Lists(order, raw.Keys - todo)
        invariant local == old(local).(constraints := map[])
        invariant Raised(FlushDiags(p, order, raw, guards, scope.rebindable))
      {
        var x :| x in todo;
        todo := todo - {x};
        ClassifyBinding(x, raw[x]);
        assert (order + [x])[..|order|] == order;
        AppendTwice(old(log).diags, FlushDiags(p, order, raw, guards, scope.rebindable),
                    BindingDiags(p, x, raw[x], guards, scope.rebindable));
        order := order + [x];
      }
    }

    /** `classify_binding`, the half that emits. */
    method ClassifyBinding(x: string, calls: seq<Use>)
      requires LogOk(census, log, count)
      modifies this`log
      ensures Raised(BindingDiags(p, x, calls, guards, scope.rebindable))
    {
      var verdict := Constraints.ClassifyBinding(calls, p.candidates);
      if verdict == Contradiction {
        Emit(Diag(E0107, (calls[0].start, calls[0].end), NoCommonType(x, calls), guards, scope.rebindable));
      }
    }

    /** `ivar_ty`: one silent walk per class collects every instance variable. */
    method IvarTy(c: ClassId, x: string, ghost self: SelfTy) returns (ty: Ty, ghost w: Walk)
      requires Valid()
      modifies this
      ensures Valid() && Isolated(ClassLeak(p, w))
      ensures IvarTyped(p, CtxOf(mode, scope, guards, busy, self), Left(depth), c, x, ty, w)
      ensures w.Walk? && w.anew <==> c !in old(memo).ivars && c !in busy.classes
      ensures c !in busy.classes ==> c in memo.ivars && ty == Typed(memo.ivars[c], x)
      decreases p.methods.Keys - busy.keys, p.classMethods.Keys - busy.classes, 2
    {
      RunStill(TrailOf(local, capture, log));
      if c in memo.ivars {
        MemoisedClassIsIdle(memo, busy, walked, c);
        return Typed(memo.ivars[c], x), proofs.classes[c];
      }
      if c in busy.classes { return Unknown, NoWalk; }
      w := FreshIvars(c, self);
      ty := Typed(memo.ivars[c], x);
    }

    method FreshIvars(c: ClassId, ghost self: SelfTy) returns (ghost w: Walk)
      requires Valid() && c !in memo.ivars && c !in busy.classes
      modifies this
      ensures Valid() && Isolated(ClassLeak(p, w)) && c in memo.ivars
      ensures w.Walk? && w.anew && w.cx == ClassCtx(CtxOf(mode, scope, guards, busy, self), c) && w.left == Left(depth)
      ensures ClassWalk(p, c, w) && memo.ivars[c] == IvarsOf(c, BodiesFx(p, w.cx, w.bodies).stores)
      decreases p.methods.Keys - busy.keys, p.classMethods.Keys - busy.classes, 1
    {
      ghost var cx := CtxOf(mode, scope, guards, busy, self);
      OpenClassWalk(c);
      w := WalkOpenedClass(c, cx);
    }

    /** The walk of a class just put in progress. */
    method WalkOpenedClass(c: ClassId, ghost cx: Ctx) returns (ghost w: Walk)
      requires Valid() && c !in cx.busy.classes
      requires cx.guards == guards && busy == cx.busy.(classes := cx.busy.classes + {c})
      modifies this
      ensures Valid() && busy == cx.busy && c in memo.ivars
      ensures mode == old(mode) && scope == old(scope) && guards == old(guards) && depth == old(depth)
      ensures Extends(old(memo), memo) && log == old(log) && count == old(count) && hovered == old(hovered)
      ensures (!mode.dark ==> darkRecs == old(darkRecs)) && Did(ClassLeak(p, w))
      ensures w.Walk? && w.anew && w.cx == ClassCtx(cx, c) && w.left == Left(depth) && ClassWalk(p, c, w)
      ensures memo.ivars[c] == IvarsOf(c, BodiesFx(p, w.cx, w.bodies).stores)
      decreases p.methods.Keys - busy.keys, p.classMethods.Keys - busy.classes, if c in p.classMethods then 10 else 0, 1
    {
      var collected;
      collected, w := WalkClassIfListed(c, cx);
      CloseClassWalk(c, FoldAll(collected), w);
      assert busy.classes == cx.busy.classes;
    }

    method WalkClassIfListed(c: ClassId, ghost cx: Ctx) returns (collected: map<string, seq<Ty>>, ghost w: Walk)
      requires Valid() && cx.guards == guards && busy == cx.busy.(classes := cx.busy.classes + {c})
      modifies this
      ensures Valid() && Isolated(ClassLeak(p, w))
      ensures w.Walk? && w.anew && w.cx == ClassCtx(cx, c) && w.left == Left(depth) && ClassWalk(p, c, w)
      ensures FoldAll(collected) == IvarsOf(c, BodiesFx(p, w.cx, w.bodies).stores)
      decreases p.methods.Keys - busy.keys, p.classMethods.Keys - busy.classes, if c in p.classMethods then 9 else 0, 0
    {
      ghost var bodies := [];
      collected := map[];
      if c in p.classMethods {
        collected, bodies := WalkClassIvars(c, cx);
      } else {
        RunStill(TrailOf(local, capture, log));
      }
      w := Walk(true, ClassCtx(cx, c), Left(depth), bodies);
    }

    method OpenClassWalk(c: ClassId)
      requires MemoOk(memo, busy, walked) && c !in memo.ivars && c !in busy.classes
      modifies this`busy, this`walked
      ensures MemoOk(memo, busy, walked) && busy == old(busy).(classes := old(busy).classes + {c})
    {
      StartClassWalk(memo, busy, walked, c);
      busy, walked := busy.(classes := busy.classes + {c}), walked.(classes := walked.classes + multiset{c});
    }

    method CloseClassWalk(c: ClassId, found: map<string, Ty>, ghost w: Walk)
      requires MemoOk(memo, busy, walked) && MemoProven(p, memo, proofs) && c in busy.classes
      requires w.Walk? && ClassWalk(p, c, w) && found == IvarsOf(c, BodiesFx(p, w.cx, w.bodies).stores)
      modifies this`busy, this`memo, this`proofs
      ensures MemoOk(memo, busy, walked) && MemoProven(p, memo, proofs)
      ensures busy == old(busy).(classes := old(busy).classes - {c})
      ensures Extends(old(memo), memo) && c in memo.ivars && memo.ivars[c] == found
    {
      BusyClassNotMemoised(memo, busy, walked, c);
      EndClassWalk(memo, busy, walked, c, found);
      ClassRemembered(p, c, w);
      busy := busy.(classes := busy.classes - {c});
      memo := memo.(ivars := memo.ivars[c := found]);
      proofs := proofs.(classes := proofs.classes[c := w.(anew := false)]);
    }

    /** `walk_class_ivars`: every instance method of the class, silently. */
    method WalkClassIvars(c: ClassId, ghost cx: Ctx) returns (collected: map<string, seq<Ty>>, ghost bodies: seq<Body>)
      requires Valid() && c in p.classMethods
      requires cx.guards == guards && busy == cx.busy.(classes := cx.busy.classes + {c})
      modifies this
      ensures Valid() && DerivesBodies(p, ClassCtx(cx, c), Left(depth), p.classMethods[c], bodies)
      ensures Isolated(BodiesFx(p, ClassCtx(cx, c), bodies).(stores := [], diags := []))
      ensures FoldAll(collected) == IvarsOf(c, BodiesFx(p, ClassCtx(cx, c), bodies).stores)
      decreases p.methods.Keys - busy.keys, p.classMethods.Keys - busy.classes, 8
    {
      var saved := mode;
      mode := mode.(silent := true, hover := None, casts := []);
      collected, bodies := CaptureMethods(p.classMethods[c], c, ClassCtx(cx, c));
      mode := saved;
    }

    /** What the methods write to `c` is collected, and the capture in hand set aside meanwhile. */
    method CaptureMethods(ms: seq<MethodSig>, c: ClassId, ghost cx: Ctx)
      returns (collected: map<string, seq<Ty>>, ghost bs: seq<Body>)
      requires Valid() && mode.silent && mode.hover.None?
      requires cx.silent && cx.guards == guards && cx.rebindable == 0 && cx.self == SInstance(c) && cx.busy == busy
      modifies this
      ensures Valid() && TraceKept() && DerivesBodies(p, cx, Left(depth), ms, bs)
      ensures Did(BodiesFx(p, cx, bs).(stores := [], diags := []))
      ensures FoldAll(collected) == IvarsOf(c, BodiesFx(p, cx, bs).stores)
      ensures mode.(casts := []) == old(mode).(casts := [])
      ensures scope == old(scope) && guards == old(guards) && depth == old(depth) && busy == old(busy)
      decreases p.methods.Keys - busy.keys, p.classMethods.Keys - busy.classes, 7, |ms| + 1
    {
      var saved := capture;
      capture := Some(Capture(c, map[]));
      ghost var t := TrailOf(local, capture, log);
      bs := WalkMethods(ms, c, cx);
      RunCapturing(t, c, BodiesFx(p, cx, bs), saved);
      collected := capture.value.writes;
      capture := saved;
    }

    method WalkMethods(ms: seq<MethodSig>, c: ClassId, ghost cx: Ctx) returns (ghost bs: seq<Body>)
      requires Valid() && mode.silent && mode.hover.None?
      requires cx.silent && cx.guards == guards && cx.rebindable == 0 && cx.self == SInstance(c) && cx.busy == busy
      modifies this
      ensures Valid() && TraceKept() && DerivesBodies(p, cx, Left(depth), ms, bs) && Did(BodiesFx(p, cx, bs))
      ensures mode.(casts := []) == old(mode).(casts := [])
      ensures scope == old(scope) && guards == old(guards) && depth == old(depth) && busy == old(busy)
      decreases p.methods.Keys - busy.keys, p.classMethods.Keys - busy.classes, 7, |ms|
    {
      RunStill(TrailOf(local, capture, log));
      if ms == [] { return []; }
      ghost var t := TrailOf(local, capture, log);
      mode := mode.(casts := p.fileCasts(ms[0].file));
      ghost var b, fx := NoBody, STILL;
      if ms[0].def.Some? {
        var ignored;
        ignored, b := CheckMethodBody(ms[0].def.value, Some(c), false);
        fx := BodyFx(p, cx, b);
      }
      ghost var rest := WalkMethods(ms[1..], c, cx);
      bs := [b] + rest;
      assert bs[1..] == rest;
      RunThen(t, fx, BodiesFx(p, cx, rest));
    }

    // ----- a file -----

    /** `walk_scope` and `scope_stmt`: the statements of a file or class body in order. */
    method WalkItems(items: seq<Item>, at: Place, env: Env) returns (env': Env, ghost ds: seq<ItemDeriv>)
      requires Valid()
      modifies this
      ensures Valid() && Kept(ItemsFx(p, ds)) && env' == ItemsEnv(items, env, ds)
      ensures DerivesItems(p, CtxOf(mode, scope, guards, busy, SUnknown), Left(depth), items, at, env, ds)
      decreases p.methods.Keys - busy.keys, p.classMethods.Keys - busy.classes, 9, items, 0
    {
      if items == [] {
        RunStill(TrailOf(local, capture, log));
        return env, [];
      }
      ghost var t := TrailOf(local, capture, log);
      ghost var d, rest;
      env', d := WalkItem(items[0], at, env);
      env', rest := WalkItems(items[1..], at, env');
      ds := [d] + rest;
      assert ds[1..] == rest;
      RunThen(t, ItemFx(p, d), ItemsFx(p, rest));
    }

    method WalkItem(item: Item, at: Place, env: Env) returns (env': Env, ghost d: ItemDeriv)
      requires Valid()
      modifies this
      ensures Valid() && Kept(ItemFx(p, d)) && env' == ItemEnv(item, env, d)
      ensures DerivesItem(p, CtxOf(mode, scope, guards, busy, SUnknown), Left(depth), item, at, env, d)
      decreases p.methods.Keys - busy.keys, p.classMethods.Keys - busy.classes, 9, item, 1
    {
      env' := env;
      match item
      case DefItem(def, ownSelf) =>
        var _, b := CheckMethodBody(def, at.cls, at.inSingleton || ownSelf);
        d := OfDef(BodyCtx(mode, guards, busy, SelfOf(at.cls, at.inSingleton || ownSelf)), b);
      case ClassItem(_, _, _, _) => d := WalkClassItem(item, at, env);
      case SingletonItem(body) =>
        ghost var ds, t := [], TrailOf(local, capture, log);
        env', ds := WalkItems(body, at.(inSingleton := true), env);
        d := OfScope([], ds);
        RunStill(t);
        RunThen(t, STILL, ItemsFx(p, ds));
      case PlainItem(node) =>
        var ignored;
        ghost var v;
        ignored, env', v := InferExpr(node, env, ScopeSelf(at));
        d := OfNode(v);
    }

    /** A class or module body is a scope of its own: fresh locals, its own operand proofs. */
    method WalkClassItem(item: Item, at: Place, ghost env: Env) returns (ghost d: ItemDeriv)
      requires Valid() && item.ClassItem?
      modifies this
      ensures Valid() && Kept(ItemFx(p, d))
      ensures DerivesItem(p, CtxOf(mode, scope, guards, busy, SUnknown), Left(depth), item, at, env, d)
      ensures d.OfScope?
      decreases p.methods.Keys - busy.keys, p.classMethods.Keys - busy.classes, 9, item, 0
    {
      ghost var t, opens := TrailOf(local, capture, log),
        SuperDiags(p, CtxOf(mode, scope, guards, busy, SUnknown), item.superclass);
      RunRaising(t, false, opens);
      CheckSuper(item.superclass);
      ghost var ds := WalkClassBody(item);
      d := OfScope(opens, ds);
      RunThen(t, Raising(false, opens), ItemsFx(p, ds));
    }

    method CheckSuper(superclass: Option<(string, Span)>)
      requires LogOk(census, log, count)
      modifies this`log
      ensures LogOk(census, log, count)
      ensures var ds := SuperDiags(p, CtxOf(mode, scope, guards, busy, SUnknown), superclass);
              log == old(log).(diags := old(log).diags + ds) && (mode.silent ==> log == old(log))
    {
      if superclass.Some? { CheckConstRef(superclass.value.0, superclass.value.1); }
    }

    method WalkClassBody(item: Item) returns (ghost ds: seq<ItemDeriv>)
      requires Valid() && item.ClassItem?
      modifies this
      ensures Valid() && Kept(ItemsFx(p, ds))
      ensures DerivesItems(p, CtxOf(mode, scope, guards, busy, SUnknown), Left(depth), item.body,
                           Place(item.cls, false, true),
                           map[], ds)
      decreases p.methods.Keys - busy.keys, p.classMethods.Keys - busy.classes, 9, item.body, 1
    {
      var saved := scope.operands;
      scope := scope.(operands := if mode.silent then map[] else item.operands);
      var ignored;
      ignored, ds := WalkItems(item.body, Place(item.cls, false, true), map[]);
      scope := scope.(operands := saved);
    }
  }

  /** Will `method_return` open a walk for this key? */
  predicate Opens(key: Key, m: MethodSig, memo: Memo, busy: Busy) {
    m.ret.None? && !m.arityUnknown && key !in memo.methods && key !in busy.keys
  }

  lemma MemoisedIsIdle(memo: Memo, busy: Busy, walked: Walked, key: Key)
    requires MemoOk(memo, busy, walked) && key in memo.methods
    ensures key !in busy.keys
  {
    var n := walked.keys[key];
  }

  lemma MemoisedClassIsIdle(memo: Memo, busy: Busy, walked: Walked, c: ClassId)
    requires MemoOk(memo, busy, walked) && c in memo.ivars
    ensures c !in busy.classes
  {
    var n := walked.classes[c];
  }

  /** How a memoised return came about does not depend on when it is read. */
  lemma MethodRemembered(p: Oracle, key: Key, m: MethodSig, ty: Ty, w: Walk)
    requires w.Walk? && MethodWalk(p, key, m, ty, w)
    ensures MethodWalk(p, key, m, ty, w.(anew := false))
  {}

  lemma ClassRemembered(p: Oracle, c: ClassId, w: Walk)
    requires w.Walk? && ClassWalk(p, c, w)
    ensures ClassWalk(p, c, w.(anew := false))
  {}
}
