/** What a diagnostic about a call claims, in the words of the lookups themselves: a call raises exactly the faults its
    lookups prove, lands in exactly one bucket, and its answer holds every value the call can yield. */
module Faults {
  import opened Types
  import opened Compat
  import opened Census
  import opened Project
  import opened Verdicts

  // ----- what the lookups say -----

  ghost predicate FoundAt(p: Oracle, k: Key, m: MethodSig) { k in p.methods && p.methods[k] == Found(m) }

  ghost predicate NoneAt(p: Oracle, k: Key) { k in p.methods ==> p.methods[k] == NotFound }

  ghost predicate OpenAt(p: Oracle, k: Key) { k in p.methods && p.methods[k] == Open }

  /** No lookup finds the method, and none is inconclusive. */
  ghost predicate Missing(p: Oracle, recv: Ty, name: string) {
    match recv
    case Unknown => false
    case Union(_) => false
    case Instance(c) => NoneAt(p, Key(c, name, false)) && p.core(recv, name) == None
    case Class(c) => name != "new" && NoneAt(p, Key(c, name, true))
    case _ => p.core(recv, name) == None && p.conclusiveMiss(recv, name)
  }

  /** The project method the call ends up in; `.new` prefers an own `self.new` to `initialize`. */
  ghost predicate Reaches(p: Oracle, recv: Ty, name: string, m: MethodSig) {
    match recv
    case Instance(c) => FoundAt(p, Key(c, name, false), m)
    case Class(c) =>
      if name != "new" then FoundAt(p, Key(c, name, true), m)
      else
        !p.anonymous(c) &&
        (p.ownNew(c) == Found(m) || (p.ownNew(c) == NotFound && FoundAt(p, Key(c, "initialize", false), m)))
    case _ => false
  }

  /** The core method the call ends up in. */
  ghost predicate ReachesCore(p: Oracle, recv: Ty, name: string, cm: CoreMethod) {
    p.core(recv, name) == Some(cm) &&
    match recv
    case Unknown => false
    case Union(_) => false
    case Instance(c) => NoneAt(p, Key(c, name, false))
    case Class(_) => false
    case _ => true
  }

  lemma TargetMeans(p: Oracle, recv: Ty, name: string)
    ensures TargetOf(p, recv, name) == Absent <==> Missing(p, recv, name)
    ensures forall m, countable :: TargetOf(p, recv, name) == Method(m, countable) <==>
              Reaches(p, recv, name, m) && countable == (recv.Instance? ==> !m.overridden)
    ensures forall cm :: TargetOf(p, recv, name) == Core(cm) <==> ReachesCore(p, recv, name, cm)
  {}

  // ----- exactly what a call raises -----

  /** Nothing may be said of the call: the subject of an asserted raise, or a send to a `self` that may be another. */
  predicate Spared(call: Node, g: Guards, r: nat) {
    call.kind.CallNode? &&
    (call.span in g.subjects || (r > 0 && (call.kind.recv == None || call.kind.recv.value.kind == SelfRead)))
  }

  /** An enclosing `respond_to?` vouches for the name. */
  predicate Vouched(site: Site, g: Guards) {
    site.call.kind.CallNode? && site.recv.Instance? && site.call.kind.recv == None && site.call.kind.name in g.respond
  }

  /** The arguments as written, none hidden in a splat, are too few or too many for what the call reaches. */
  ghost predicate Miscount(p: Oracle, site: Site) {
    && site.call.kind.CallNode? && (forall i :: 0 <= i < |site.call.kind.args| ==> !site.call.kind.args[i].kind.Spread?)
    && ((exists m :: Reaches(p, site.recv, site.call.kind.name, m) && TooFewOrMany(m, |site.args|)
                     && (site.recv.Instance? ==> !m.overridden))
        || exists cm :: ReachesCore(p, site.recv, site.call.kind.name, cm) && cm.max.Some?
                        && !(cm.min <= |site.args| <= cm.max.value))
  }

  predicate TooFewOrMany(m: MethodSig, given: nat) {
    !m.arityUnknown && !m.rest && !(m.required <= given <= m.required + m.optional)
  }

  /** Argument `i` is rejected by the type the reached signature declares for it. */
  ghost predicate Mismatch(p: Oracle, site: Site, i: nat) {
    site.call.kind.CallNode? && i < |site.args| &&
    exists m :: Reaches(p, site.recv, site.call.kind.name, m) && m.ret.Some? && i < |m.paramTys|
                && !Compatible(site.args[i].ty, m.paramTys[i], p.index)
  }

  /** What diagnostic `d` about a call claims, of the very call and at its place. */
  ghost predicate Claims(p: Oracle, site: Site, d: Diag) {
    site.call.kind.CallNode? &&
    match d.message
    case NoMethod(s) =>
      s == site && d.code == E0101 && d.span == site.call.kind.msg && Missing(p, site.recv, site.call.kind.name) &&
      !Vouched(site, d.guards)
    case WrongCount(s) => s == site && d.code == E0102 && d.span == site.call.kind.msg && Miscount(p, site)
    case BadArgument(s, i) =>
      s == site && d.code == E0103 && Mismatch(p, site, i) && d.span == site.args[i].span
    case _ => false
  }

  lemma MiscountMeans(p: Oracle, site: Site)
    requires site.call.kind.CallNode?
    ensures Miscount(p, site) <==> Miscounted(TargetOf(p, site.recv, site.call.kind.name), site.call, |site.args|)
  {
    var t := TargetOf(p, site.recv, site.call.kind.name);
    TargetMeans(p, site.recv, site.call.kind.name);
    if t.Method? { assert Reaches(p, site.recv, site.call.kind.name, t.m); }
    if t.Core? { assert ReachesCore(p, site.recv, site.call.kind.name, t.cm); }
  }

  lemma MismatchMeans(p: Oracle, site: Site, i: nat)
    requires site.call.kind.CallNode?
    ensures Mismatch(p, site, i) <==> Mistyped(p, TargetOf(p, site.recv, site.call.kind.name), site.args, i)
  {
    var t := TargetOf(p, site.recv, site.call.kind.name);
    TargetMeans(p, site.recv, site.call.kind.name);
    if t.Method? { assert Reaches(p, site.recv, site.call.kind.name, t.m); }
  }

  lemma {:induction false} ArgDiagsMean(p: Oracle, site: Site, n: nat, g: Guards, r: nat, d: Diag)
    requires site.call.kind.CallNode? && n <= |site.args|
    ensures d in ArgDiags(p, site, n, g, r) <==>
            d.message.BadArgument? && d.message.at < n && Claims(p, site, d) && d.guards == g && d.rebindable == r
  {
    if n > 0 {
      ArgDiagsMean(p, site, n - 1, g, r, d);
      MismatchMeans(p, site, n - 1);
    }
  }

  /** Exactly: a call that is not spared raises all the faults its lookups prove, a spared one raises nothing. */
  lemma RaisesExactly(p: Oracle, site: Site, g: Guards, r: nat, d: Diag)
    requires site.call.kind.CallNode?
    ensures d in CallDiags(p, site, g, r) <==>
            !Spared(site.call, g, r) && Claims(p, site, d) && d.guards == g && d.rebindable == r
  {
    var t := TargetOf(p, site.recv, site.call.kind.name);
    TargetMeans(p, site.recv, site.call.kind.name);
    MiscountMeans(p, site);
    ArgDiagsMean(p, site, |site.args|, g, r, d);
    if t.Method? {
      assert d in CallDiags(p, site, g, r) <==>
             !Spared(site.call, g, r) && (d in CountDiags(p, site, g, r) || d in ArgDiags(p, site, |site.args|, g, r));
    }
  }

  // ----- exactly where a call is counted -----

  /** The lookup that decides the call is inconclusive: the class, the name and the side `rbi_escalate` is asked for, if
      it is asked at all. */
  ghost predicate BlockedAt(p: Oracle, recv: Ty, name: string, ask: Option<(ClassId, string, bool)>) {
    match recv
    case Unknown => false
    case Union(_) => false
    case Instance(c) => OpenAt(p, Key(c, name, false)) && ask == Some((c, name, false))
    case Class(c) =>
      if name != "new" then OpenAt(p, Key(c, name, true)) && ask == Some((c, name, true))
      else
        !p.anonymous(c) &&
        ((p.ownNew(c) == Open && ask == None) ||
         (p.ownNew(c) == NotFound && OpenAt(p, Key(c, "initialize", false)) && ask == Some((c, "initialize", false))))
    case _ => p.core(recv, name) == None && !p.conclusiveMiss(recv, name) && ask == None
  }

  ghost predicate RescuedBy(p: Oracle, recv: Ty, name: string, via: Via) {
    exists c, n, on :: BlockedAt(p, recv, name, Some((c, n, on))) && p.escalate(c, n, on).Some? &&
                       p.escalate(c, n, on).value.0 == via
  }

  lemma BlockedMeans(p: Oracle, recv: Ty, name: string)
    ensures TargetOf(p, recv, name) == Blocked <==> exists ask :: BlockedAt(p, recv, name, ask)
    ensures forall via :: TargetOf(p, recv, name) == Blocked ==>
              (BlockedBucket(p, recv, name) == BucketVia(via) <==> RescuedBy(p, recv, name, via))
  {
    if recv.Instance? {
      assert BlockedAt(p, recv, name, Some((recv.cls, name, false))) <==> OpenAt(p, Key(recv.cls, name, false));
    } else if recv.Class? && name != "new" {
      assert BlockedAt(p, recv, name, Some((recv.cls, name, true))) <==> OpenAt(p, Key(recv.cls, name, true));
    } else if recv.Class? {
      NewBlocked(p, recv.cls);
    } else if !recv.Unknown? && !recv.Union? {
      assert BlockedAt(p, recv, name, None) <==> p.core(recv, name) == None && !p.conclusiveMiss(recv, name);
    }
  }

  lemma NewBlocked(p: Oracle, c: ClassId)
    ensures TargetOf(p, Class(c), "new") == Blocked <==> exists ask :: BlockedAt(p, Class(c), "new", ask)
    ensures forall via :: TargetOf(p, Class(c), "new") == Blocked ==>
              (BlockedBucket(p, Class(c), "new") == BucketVia(via) <==> RescuedBy(p, Class(c), "new", via))
  {
    assert BlockedAt(p, Class(c), "new", None) <==> !p.anonymous(c) && p.ownNew(c) == Open;
    assert BlockedAt(p, Class(c), "new", Some((c, "initialize", false))) <==>
           !p.anonymous(c) && p.ownNew(c) == NotFound && OpenAt(p, Key(c, "initialize", false));
  }

  /** Exactly: a call is resolved, core, accused or on an unknown receiver as the lookups say, counts as declared
      elsewhere where an inconclusive lookup is rescued, and is inconclusive otherwise. */
  lemma BucketMeans(p: Oracle, site: Site, g: Guards, r: nat)
    requires site.call.kind.CallNode?
    ensures var b, name, recv := BucketOf(p, site, g, r), site.call.kind.name, site.recv;
            var free := !Spared(site.call, g, r);
            && (b == Resolved <==> free && exists m :: Reaches(p, recv, name, m))
            && (b == CoreCall <==> free && ((exists cm :: ReachesCore(p, recv, name, cm)) ||
                                            (recv.Class? && name == "new" && p.anonymous(recv.cls))))
            && (b == Diagnosed <==> free && Missing(p, recv, name) && !Vouched(site, g))
            && (b == UnknownReceiver <==> free && (recv.Unknown? || recv.Union?))
            && (forall via :: b == BucketVia(via) <==> free && RescuedBy(p, recv, name, via))
  {
    var t := TargetOf(p, site.recv, site.call.kind.name);
    TargetMeans(p, site.recv, site.call.kind.name);
    BlockedMeans(p, site.recv, site.call.kind.name);
    if t.Method? { assert Reaches(p, site.recv, site.call.kind.name, t.m); }
    if t.Core? { assert ReachesCore(p, site.recv, site.call.kind.name, t.cm); }
    forall via | RescuedBy(p, site.recv, site.call.kind.name, via) ensures t == Blocked {
      var c, n, on :| BlockedAt(p, site.recv, site.call.kind.name, Some((c, n, on)));
    }
  }

  // ----- what a call answers -----

  /** Calling the method of that name on the first value can yield the second. */
  type Calling = (Value, string, Value) -> bool

  /** The types a core table describes a receiver by. */
  predicate CoreKind(t: Ty) { !t.Unknown? && !t.Union? && !t.Class? }

  /** What the core tables and the declarations outside the project say of results is true, and `Class#new`
      allocates. */
  ghost predicate HonestTables(p: Oracle, w: World, calls: Calling) {
    && (forall t, name, v, res :: CoreKind(t) && p.core(t, name).Some? && Has(w, v, t) && calls(v, name, res) ==>
          Has(w, res, p.core(t, name).value.ret))
    && (forall c, name, v, res :: p.escalate(c, name, false).Some? && Has(w, v, Instance(c)) && calls(v, name, res) ==>
          Has(w, res, p.escalate(c, name, false).value.1))
    && (forall c, name, res :: name != "new" && p.escalate(c, name, true).Some? && calls(VClass(c), name, res) ==>
          Has(w, res, p.escalate(c, name, true).value.1))
    && (forall c, res :: !p.anonymous(c) && p.ownNew(c) == NotFound && calls(VClass(c), "new", res) ==>
          res.VObj? && res.cls == c)
  }

  /** `.new` on a class known by name whose `self.new` is not the one `Class` has. */
  ghost predicate OwnNew(p: Oracle, recv: Ty, name: string) {
    recv.Class? && name == "new" && !p.anonymous(recv.cls) && p.ownNew(recv.cls) != NotFound
  }

  /** A fixed answer holds every value the call can yield, but where a class has a `self.new` of its own. */
  lemma AnswerHolds(p: Oracle, w: World, calls: Calling, silent: bool, site: Site, g: Guards, r: nat, v: Value,
                    res: Value)
    requires site.call.kind.CallNode? && HonestTables(p, w, calls) && !OwnNew(p, site.recv, site.call.kind.name)
    requires Has(w, v, site.recv) && calls(v, site.call.kind.name, res)
    requires AnswerOf(p, silent, site, g, r).Fixed?
    ensures Has(w, res, AnswerOf(p, silent, site, g, r).ty)
  {}

  /** The type is the return of a method exactly where the call reaches one other than through `.new`. */
  lemma AnswersByReturn(p: Oracle, silent: bool, site: Site, g: Guards, r: nat, m: MethodSig)
    requires site.call.kind.CallNode?
    ensures var a := AnswerOf(p, silent, site, g, r);
            a.ByReturn? && a.m == m <==>
            !Spared(site.call, g, r) && Reaches(p, site.recv, site.call.kind.name, m) &&
            !(site.recv.Class? && site.call.kind.name == "new")
  {}

  /** The answer of `.new` holds exactly the objects of the class, or everything for a class not known by name. */
  lemma NewAnswer(p: Oracle, w: World, silent: bool, site: Site, g: Guards, r: nat, v: Value)
    requires site.call.kind.CallNode? && site.call.kind.name == "new" && site.recv.Class? && !Spared(site.call, g, r)
    ensures var a := AnswerOf(p, silent, site, g, r);
            a.Fixed? &&
            (Has(w, v, a.ty) <==> p.anonymous(site.recv.cls) || (v.VObj? && w.Sub(v.cls, site.recv.cls)))
  {}

  ghost predicate NewAnswerRight(p: Oracle, w: World, silent: bool, site: Site, g: Guards, r: nat)
    requires site.call.kind.CallNode? && site.recv.Class?
  {
    forall calls: Calling, res :: HonestTables(p, w, calls) && calls(VClass(site.recv.cls), "new", res) ==>
      Has(w, res, match AnswerOf(p, silent, site, g, r) case Fixed(t) => t case ByReturn(_, m) => m.sorbet)
  }

  /** `def self.new; nil; end` makes the answer wrong: it is right exactly for classes that leave `new` alone. */
  lemma NewAnswerRightIff(p: Oracle, w: World, silent: bool, site: Site, g: Guards, r: nat)
    requires site.call.kind.CallNode? && site.call.kind.name == "new" && site.recv.Class? && !Spared(site.call, g, r)
    ensures NewAnswerRight(p, w, silent, site, g, r) <==> !OwnNew(p, site.recv, "new")
  {
    var c := site.recv.cls;
    if OwnNew(p, site.recv, "new") {
      var calls: Calling := (v, name, res) => v == VClass(c) && name == "new" && res == VNil;
      assert HonestTables(p, w, calls);
      assert calls(VClass(c), "new", VNil);
      NewAnswer(p, w, silent, site, g, r, VNil);
      assert !NewAnswerRight(p, w, silent, site, g, r);
    }
  }
}
