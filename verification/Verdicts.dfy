/** What the checker says of one call: how the lookups decide it, and which diagnostics it raises. */
module Verdicts {
  import opened Types
  import opened Census
  import opened Constraints
  import opened Project
  import Compat

  /** Pushed and popped along the tree. */
  datatype Guards = Guards(defined: seq<string>, respond: seq<string>, narrowed: seq<(string, Ty)>, subjects: seq<Span>)

  datatype Code = E0101 | E0102 | E0103 | E0104 | E0107

  /** A positional argument. */
  datatype Pos = Pos(ty: Ty, span: Span)

  /** A call with what was inferred of its receiver and positional arguments. */
  datatype Site = Site(call: Node, recv: Ty, args: seq<Pos>)

  /** What a diagnostic's message names. */
  datatype Message =
    | NoMethod(site: Site)
    | WrongCount(site: Site)
    | BadArgument(site: Site, at: nat)
    | NoConstant(path: string)
    | NoCommonType(x: string, calls: seq<Use>)

  /** A diagnostic, with the guards in force where it was raised. */
  datatype Diag = Diag(code: Code, span: Span, message: Message, guards: Guards, rebindable: nat)

  // ----- what a call reaches -----

  /** `countable`: the positional count of an exact call may be held against the signature. */
  datatype Target =
    | Method(m: MethodSig, countable: bool)
    | Core(cm: CoreMethod)
    | Absent                                               // every lookup came back empty-handed, none was inconclusive
    | Bare                                                 // `.new` with neither an own `self.new` nor an `initialize`
    | Blocked
    | Unknowable

  function InstanceTarget(p: Oracle, c: ClassId, name: string): Target {
    match LookupOf(p, Key(c, name, false))
    case Found(m) => Method(m, !m.overridden)
    case NotFound => if p.core(Instance(c), name).Some? then Core(p.core(Instance(c), name).value) else Absent
    case Open => Blocked
  }

  function NewTarget(p: Oracle, c: ClassId): Target {
    if p.anonymous(c) then Unknowable
    else match p.ownNew(c)
      case Found(m) => Method(m, true)
      case Open => Blocked
      case NotFound =>
        match LookupOf(p, Key(c, "initialize", false))
        case Found(m) => Method(m, true)
        case Open => Blocked
        case NotFound => Bare
  }

  function ClassTarget(p: Oracle, c: ClassId, name: string): Target {
    if name == "new" then NewTarget(p, c)
    else match LookupOf(p, Key(c, name, true))
      case Found(m) => Method(m, true)
      case Open => Blocked
      case NotFound => Absent
  }

  function CoreTarget(p: Oracle, t: Ty, name: string): Target {
    if p.core(t, name).Some? then Core(p.core(t, name).value)
    else if p.conclusiveMiss(t, name) then Absent
    else Blocked
  }

  function TargetOf(p: Oracle, recv: Ty, name: string): Target {
    if recv.Unknown? || recv.Union? then Unknowable
    else if recv.Instance? then InstanceTarget(p, recv.cls, name)
    else if recv.Class? then ClassTarget(p, recv.cls, name)
    else CoreTarget(p, recv, name)
  }

  // ----- what spares a call -----

  /** The subject of an asserted raise, or a self-send where `self` may have been rebound. */
  predicate Excused(call: Node, g: Guards, rebindable: nat)
    requires call.kind.CallNode?
  {
    call.span in g.subjects
    || (rebindable > 0 && (call.kind.recv.None? || call.kind.recv.value.kind.SelfRead?))
  }

  /** `self` was proven to answer the name in the branch being walked. */
  predicate Responds(call: Node, recv: Ty, g: Guards)
    requires call.kind.CallNode?
  {
    recv.Instance? && call.kind.recv.None? && call.kind.name in g.respond
  }

  /** No splat, keyword hash or forwarding hides how many arguments are passed. */
  predicate ExactArity(args: seq<Node>) { forall i :: 0 <= i < |args| ==> !args[i].kind.Spread? }

  predicate OutsideSig(m: MethodSig, given: nat) {
    !m.arityUnknown && !m.rest && (given < m.required || m.required + m.optional < given)
  }

  predicate OutsideCore(cm: CoreMethod, given: nat) { cm.max.Some? && (given < cm.min || cm.max.value < given) }

  predicate Miscounted(t: Target, call: Node, given: nat)
    requires call.kind.CallNode?
  {
    ExactArity(call.kind.args) &&
    match t
    case Method(m, countable) => countable && OutsideSig(m, given)
    case Core(cm) => OutsideCore(cm, given)
    case _ => false
  }

  /** Argument `i` is no value of the parameter the reached signature declares for it. */
  predicate Mistyped(p: Oracle, t: Target, args: seq<Pos>, i: nat) {
    && t.Method? && t.m.ret.Some?
    && i < |args| && i < |t.m.paramTys| && !Compat.Compatible(args[i].ty, t.m.paramTys[i], p.index)
  }

  // ----- what a call raises -----

  function CountDiags(p: Oracle, site: Site, g: Guards, r: nat): seq<Diag>
    requires site.call.kind.CallNode?
  {
    if Miscounted(TargetOf(p, site.recv, site.call.kind.name), site.call, |site.args|)
    then [Diag(E0102, site.call.kind.msg, WrongCount(site), g, r)] else []
  }

  function ArgDiag(p: Oracle, site: Site, i: nat, g: Guards, r: nat): seq<Diag>
    requires site.call.kind.CallNode? && i < |site.args|
  {
    if Mistyped(p, TargetOf(p, site.recv, site.call.kind.name), site.args, i)
    then [Diag(E0103, site.args[i].span, BadArgument(site, i), g, r)] else []
  }

  /** The first `n` arguments against the parameters. */
  function ArgDiags(p: Oracle, site: Site, n: nat, g: Guards, r: nat): seq<Diag>
    requires site.call.kind.CallNode? && n <= |site.args|
  {
    if n == 0 then [] else ArgDiags(p, site, n - 1, g, r) + ArgDiag(p, site, n - 1, g, r)
  }

  /** Arguments from `i` on raise nothing when no parameter is declared for them. */
  lemma {:induction false} NoMoreArgs(p: Oracle, site: Site, i: nat, n: nat, g: Guards, r: nat)
    requires site.call.kind.CallNode? && i <= n <= |site.args|
    requires var t := TargetOf(p, site.recv, site.call.kind.name);
             t.Method? && (t.m.ret.None? || |t.m.paramTys| <= i)
    ensures ArgDiags(p, site, n, g, r) == ArgDiags(p, site, i, g, r)
    decreases n
  {
    if i < n { NoMoreArgs(p, site, i, n - 1, g, r); }
  }

  /** Everything one dispatch raises. */
  function CallDiags(p: Oracle, site: Site, g: Guards, r: nat): seq<Diag>
    requires site.call.kind.CallNode?
  {
    if Excused(site.call, g, r) then []
    else match TargetOf(p, site.recv, site.call.kind.name)
      case Absent =>
        if Responds(site.call, site.recv, g) then [] else [Diag(E0101, site.call.kind.msg, NoMethod(site), g, r)]
      case Method(_, _) => CountDiags(p, site, g, r) + ArgDiags(p, site, |site.args|, g, r)
      case Core(_) => CountDiags(p, site, g, r)
      case _ => []
  }

  /** `check_const_ref`: E0104 unless the constant exists somewhere or an enclosing `defined?` proved it. */
  function ConstDiags(p: Oracle, path: string, span: Span, g: Guards, r: nat): seq<Diag> {
    if p.constKnown(span) || path in g.defined then [] else [Diag(E0104, span, NoConstant(path), g, r)]
  }

  /** `classify_binding`, the half that emits: E0107 for a contradictory binding, at its first call. */
  function BindingDiags(p: Oracle, x: string, calls: seq<Use>, g: Guards, r: nat): seq<Diag> {
    if Classify(calls, p.candidates) != Contradiction then []
    else [Diag(E0107, (calls[0].start, calls[0].end), NoCommonType(x, calls), g, r)]
  }

  /** `flush_constraints`, the bindings in the order `xs`. */
  function FlushDiags(p: Oracle, xs: seq<string>, cs: map<string, seq<Use>>, g: Guards, r: nat): seq<Diag> {
    if xs == [] then []
    else
      var n := |xs| - 1;
      FlushDiags(p, xs[..n], cs, g, r) + if xs[n] in cs then BindingDiags(p, xs[n], cs[xs[n]], g, r) else []
  }

  /** Each binding once. */
  ghost predicate Lists(xs: seq<string>, keys: set<string>) {
    (forall x :: x in xs <==> x in keys) && forall i, j :: 0 <= i < j < |xs| ==> xs[i] != xs[j]
  }

  lemma {:induction false} ListsSize(xs: seq<string>, keys: set<string>)
    requires Lists(xs, keys)
    ensures |xs| == |keys|
    decreases |xs|
  {
    if xs == [] {
      assert keys == {};
    } else {
      var n := |xs| - 1;
      forall x ensures x in xs[..n] <==> x in keys - {xs[n]} { assert x in xs[..n] ==> x in xs; }
      ListsSize(xs[..n], keys - {xs[n]});
    }
  }

  // ----- what a call answers -----

  /** Where the type of a call comes from: a fixed answer, or the inferred return of a method. */
  datatype Answer = Fixed(ty: Ty) | ByReturn(key: Key, m: MethodSig)

  function Escalated(p: Oracle, silent: bool, c: ClassId, name: string, on: bool): Ty {
    var hit := p.escalate(c, name, on);
    if !silent && hit.Some? then hit.value.1 else Unknown
  }

  /** What decides the type of a call; `.new` answers an instance unless the class is not known by name. */
  function AnswerOf(p: Oracle, silent: bool, site: Site, g: Guards, r: nat): (a: Answer)
    requires site.call.kind.CallNode?
    ensures a.ByReturn? ==> LookupOf(p, a.key) == Found(a.m)
  {
    var name := site.call.kind.name;
    if Excused(site.call, g, r) || site.recv.Unknown? || site.recv.Union? then Fixed(Unknown)
    else if site.recv.Instance? then
      var key := Key(site.recv.cls, name, false);
      match LookupOf(p, key)
      case Found(m) => ByReturn(key, m)
      case NotFound => Fixed(CoreRet(p, site.recv, name))
      case Open => Fixed(Escalated(p, silent, site.recv.cls, name, false))
    else if site.recv.Class? && name == "new" then
      Fixed(if p.anonymous(site.recv.cls) then Unknown else Instance(site.recv.cls))
    else if site.recv.Class? then
      var key := Key(site.recv.cls, name, true);
      match LookupOf(p, key)
      case Found(m) => ByReturn(key, m)
      case NotFound => Fixed(Unknown)
      case Open => Fixed(Escalated(p, silent, site.recv.cls, name, true))
    else Fixed(CoreRet(p, site.recv, name))
  }

  function CoreRet(p: Oracle, t: Ty, name: string): Ty {
    var cm := p.core(t, name);
    if cm.Some? then cm.value.ret else Unknown
  }

  /** `collect_constraint`: in a closed world, a call on a plain local of unknown type. */
  function UseEvents(p: Oracle, silent: bool, site: Site, g: Guards, r: nat): seq<Event>
    requires site.call.kind.CallNode?
  {
    var recv := site.call.kind.recv;
    if silent || !p.closedWorld || !site.recv.Unknown? || Excused(site.call, g, r) then []
    else if recv.None? || !recv.value.kind.LocalRead? then []
    else
      var msg := site.call.kind.msg;
      [Called(recv.value.kind.x, Use(site.call.kind.name, msg.0, msg.1, site.recv))]
  }

  // ----- where a call is counted -----

  function BucketVia(v: Via): Bucket {
    match v
    case ViaDsl => DslMethod
    case ViaRbi => RbiMethod
    case ViaArApi => ArApiMethod
  }

  /** An inconclusive lookup leaves its bucket when `rbi_escalate` knows the method. */
  function OpenBucket(p: Oracle, c: ClassId, name: string, on: bool): Bucket {
    var hit := p.escalate(c, name, on);
    if hit.Some? then BucketVia(hit.value.0) else InconclusiveCall
  }

  function BlockedBucket(p: Oracle, recv: Ty, name: string): Bucket {
    if recv.Instance? then OpenBucket(p, recv.cls, name, false)
    else if !recv.Class? then InconclusiveCall
    else if name != "new" then OpenBucket(p, recv.cls, name, true)
    else if p.ownNew(recv.cls).Open? then InconclusiveCall
    else OpenBucket(p, recv.cls, "initialize", false)
  }

  /** The bucket one call is counted in. */
  function BucketOf(p: Oracle, site: Site, g: Guards, r: nat): Bucket
    requires site.call.kind.CallNode?
  {
    if Excused(site.call, g, r) then InconclusiveCall
    else match TargetOf(p, site.recv, site.call.kind.name)
      case Method(_, _) => Resolved
      case Core(_) => CoreCall
      case Absent => if Responds(site.call, site.recv, g) then InconclusiveCall else Diagnosed
      case Bare => InconclusiveCall
      case Blocked => BlockedBucket(p, site.recv, site.call.kind.name)
      case Unknowable => if site.recv.Class? then CoreCall else UnknownReceiver
  }
}
