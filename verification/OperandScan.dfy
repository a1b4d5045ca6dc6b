/** E0108's proof about locals: a scan that maps a local to T only when every write in the
    scope is a literal of T and nothing else can rebind it. */
module OperandScan {
  import opened Types

  /** One scope's syntax as the scan sees it. */
  datatype Node =
    | Literal(kind: LiteralKind, kids: seq<Node>)          // a literal operand, interpolations inside
    | LocalWrite(x: string, value: Node)
    | Rebind(bound: Option<string>, kids: seq<Node>)           // op-assign, target, block-local, parameter
    | NumberedParams(kids: seq<Node>)                      // _1 .. _9 bound by the block
    | Call(name: string, kids: seq<Node>)
    | Gate(kids: seq<Node>)                                // def, class, module, class << self
    | Other(kids: seq<Node>)

  datatype LiteralKind = IntegerLit | FloatLit | StringLit | NilLit

  datatype Event = Wrote(x: string, ty: Option<Ty>) | Poisoned(x: string) | Evaled

  const EVALS: set<string> := {"eval", "instance_eval", "class_eval", "module_eval", "binding", "local_variable_set"}

  /** `literal_operand_ty` */
  function LiteralTy(n: Node): Option<Ty> {
    if !n.Literal? then None
    else match n.kind
      case IntegerLit => Some(Int)
      case FloatLit => Some(Float)
      case StringLit => Some(Str)
      case NilLit => Some(Nil)
  }

  function NumberedName(i: nat): string
    requires 1 <= i <= 9
  {
    ['_', "0123456789"[i]]
  }

  function NumberedEvents(upto: nat): seq<Event>
    requires upto <= 9
  {
    if upto == 0 then [] else NumberedEvents(upto - 1) + [Poisoned(NumberedName(upto))]
  }

  /** What the visit of a node does to the scan, in visit order. */
  function Events(n: Node): seq<Event>
    decreases n, 1
  {
    match n
    case Literal(_, kids) => AllEvents(kids)
    case LocalWrite(x, v) => [Wrote(x, LiteralTy(v))] + Events(v)
    case Rebind(x, kids) => (if x.Some? then [Poisoned(x.value)] else []) + AllEvents(kids)
    case NumberedParams(kids) => NumberedEvents(9) + AllEvents(kids)
    case Call(name, kids) => (if name in EVALS then [Evaled] else []) + AllEvents(kids)
    case Gate(_) => []
    case Other(kids) => AllEvents(kids)
  }

  function AllEvents(ns: seq<Node>): seq<Event>
    decreases ns, 0
  {
    if ns == [] then [] else Events(ns[0]) + AllEvents(ns[1..])
  }

  // ----- the scan -----

  /** `None` in `seen` is poison. */
  datatype Seen = Seen(slots: map<string, Option<Ty>>, bail: bool)

  function Step(s: Seen, e: Event): Seen {
    match e
    case Wrote(x, ty) =>
      if x in s.slots then (if s.slots[x] != ty then s.(slots := s.slots[x := None]) else s)
      else s.(slots := s.slots[x := ty])
    case Poisoned(x) => s.(slots := s.slots[x := None])
    case Evaled => s.(bail := true)
  }

  function After(s: Seen, es: seq<Event>): Seen
    decreases |es|
  {
    if es == [] then s else Step(After(s, es[..|es| - 1]), es[|es| - 1])
  }

  lemma {:induction false} AfterConcat(s: Seen, a: seq<Event>, b: seq<Event>)
    ensures After(s, a + b) == After(After(s, a), b)
    decreases |b|
  {
    if b == [] {
      assert a + b == a;
    } else {
      assert (a + b)[..|a + b| - 1] == a + b[..|b| - 1];
      AfterConcat(s, a, b[..|b| - 1]);
    }
  }

  class OperandLocalScan {
    var seen: Seen

    constructor ()
      ensures seen == Seen(map[], false)
    {
      seen := Seen(map[], false);
    }

    method Write(x: string, ty: Option<Ty>)
      modifies this
      ensures seen == Step(old(seen), Wrote(x, ty))
    {
      if x in seen.slots {
        if seen.slots[x] != ty { seen := seen.(slots := seen.slots[x := None]); }
        return;
      }
      seen := seen.(slots := seen.slots[x := ty]);
    }

    method Poison(x: string)
      modifies this
      ensures seen == Step(old(seen), Poisoned(x))
    {
      seen := seen.(slots := seen.slots[x := None]);
    }

    /** The visitor: a node's own effect, then its children; gates are not entered. */
    method Visit(n: Node)
      modifies this
      ensures seen == After(old(seen), Events(n))
      decreases n, 1
    {
      match n
      case Literal(_, kids) => VisitAll(kids);
      case LocalWrite(x, v) =>
        Write(x, LiteralTy(v));
        Visit(v);
        AfterOne(old(seen), Wrote(x, LiteralTy(v)), Events(v));
      case Rebind(x, kids) =>
        if x.Some? { Poison(x.value); }
        VisitAll(kids);
        assert [] + AllEvents(kids) == AllEvents(kids);
        if x.Some? { AfterOne(old(seen), Poisoned(x.value), AllEvents(kids)); }
      case NumberedParams(kids) =>
        for i := 1 to 10
          invariant seen == After(old(seen), NumberedEvents(i - 1))
        {
          Poison(NumberedName(i));
          AfterLast(old(seen), NumberedEvents(i - 1), Poisoned(NumberedName(i)));
        }
        VisitAll(kids);
        AfterConcat(old(seen), NumberedEvents(9), AllEvents(kids));
      case Call(name, kids) =>
        if name in EVALS { seen := seen.(bail := true); }
        VisitAll(kids);
        assert [] + AllEvents(kids) == AllEvents(kids);
        if name in EVALS { AfterOne(old(seen), Evaled, AllEvents(kids)); }
      case Gate(_) =>
      case Other(kids) => VisitAll(kids);
    }

    method VisitAll(ns: seq<Node>)
      modifies this
      ensures seen == After(old(seen), AllEvents(ns))
      decreases ns, 0
    {
      if ns != [] {
        Visit(ns[0]);
        VisitAll(ns[1..]);
        AfterConcat(old(seen), Events(ns[0]), AllEvents(ns[1..]));
      }
    }
  }

  lemma AfterOne(s: Seen, e: Event, es: seq<Event>)
    ensures After(s, [e] + es) == After(Step(s, e), es)
  {
    AfterConcat(s, [e], es);
    assert [e][..0] == [];
  }

  lemma AfterLast(s: Seen, es: seq<Event>, e: Event)
    ensures After(s, es + [e]) == Step(After(s, es), e)
  {
    assert (es + [e])[..|es|] == es;
  }

  // ----- what the result means -----

  /** `prove_operand_locals`: nothing after an eval, else the unpoisoned slots. */
  function Proven(s: Seen): map<string, Ty> {
    if s.bail then map[] else map x | x in s.slots && s.slots[x].Some? :: s.slots[x].value
  }

  function ScopeEvents(params: Option<Node>, body: Option<Node>): seq<Event> {
    (if params.Some? then Events(params.value) else []) + (if body.Some? then Events(body.value) else [])
  }

  predicate About(e: Event, x: string) {
    (e.Wrote? || e.Poisoned?) && e.x == x
  }

  /** At least one write, every event about `x` is a literal write of `t`, and no eval. */
  ghost predicate LiteralOnly(es: seq<Event>, x: string, t: Ty) {
    Evaled !in es && Wrote(x, Some(t)) in es && forall e :: e in es && About(e, x) ==> e == Wrote(x, Some(t))
  }

  /** One slot's story: absent without events, `Some(t)` exactly when all events agree on
      the literal `t`, poison otherwise. */
  lemma {:induction false} SlotMeaning(es: seq<Event>, x: string)
    ensures var s := After(Seen(map[], false), es);
            && (s.bail <==> Evaled in es)
            && (x in s.slots <==> exists e :: e in es && About(e, x))
            && (forall t :: x in s.slots && s.slots[x] == Some(t) <==>
                  Wrote(x, Some(t)) in es && forall e :: e in es && About(e, x) ==> e == Wrote(x, Some(t)))
    decreases |es|
  {
    if es != [] {
      var front, last := es[..|es| - 1], es[|es| - 1];
      SlotMeaning(front, x);
      assert es == front + [last];
      assert last in es;
    }
  }

  /** The map holds `x: t` exactly when the scope's events on `x` are literal writes of `t`
      only, whatever their order. */
  lemma ProvenIff(es: seq<Event>, x: string, t: Ty)
    ensures var m := Proven(After(Seen(map[], false), es)); (x in m && m[x] == t) <==> LiteralOnly(es, x, t)
  {
    SlotMeaning(es, x);
  }

  /** Visit order and repetition do not matter. */
  lemma ProvenByEventSet(a: seq<Event>, b: seq<Event>)
    requires forall e :: e in a <==> e in b
    ensures Proven(After(Seen(map[], false), a)) == Proven(After(Seen(map[], false), b))
  {
    var ma, mb := Proven(After(Seen(map[], false), a)), Proven(After(Seen(map[], false), b));
    forall x ensures (x in ma <==> x in mb) && (x in ma ==> ma[x] == mb[x]) {
      if x in ma {
        ProvenIff(a, x, ma[x]);
        ProvenIff(b, x, ma[x]);
      }
      if x in mb {
        ProvenIff(a, x, mb[x]);
        ProvenIff(b, x, mb[x]);
      }
    }
  }

  // ----- what it means at run time -----

  type Locals = map<string, Value>

  /** What the literal evaluates to. */
  predicate Evaluates(kind: LiteralKind, v: Value) {
    match kind
    case IntegerLit => v.VInt?
    case FloatLit => v.VFloat?
    case StringLit => v.VStr?
    case NilLit => v.VNil?
  }

  /** `x` is stored to, and nothing else. */
  predicate Sets(s: Locals, x: string, s': Locals) { x in s' && s' == s[x := s'[x]] }

  /** The calls that can run code no scan of the syntax sees. */
  predicate RunsUnseenCode(name: string) {
    || name == "eval" || name == "instance_eval" || name == "class_eval" || name == "module_eval"
    || name == "binding" || name == "local_variable_set"
  }

  /** One thing that running `n` may do to the locals of its scope: a write stores what its literal evaluates to, else
      anything, and so does every other binding; unseen code leaves any store behind; a gate is a scope of its own. */
  ghost predicate Does(n: Node, s: Locals, s': Locals)
    decreases n, 1
  {
    match n
    case Literal(_, kids) => OneDoes(kids, s, s')
    case LocalWrite(x, value) =>
      (Sets(s, x, s') && (value.Literal? ==> Evaluates(value.kind, s'[x]))) || Does(value, s, s')
    case Rebind(bound, kids) => (bound.Some? && Sets(s, bound.value, s')) || OneDoes(kids, s, s')
    case NumberedParams(kids) => (exists c: char :: '1' <= c <= '9' && Sets(s, ['_', c], s')) || OneDoes(kids, s, s')
    case Call(name, kids) => RunsUnseenCode(name) || OneDoes(kids, s, s')
    case Gate(_) => false
    case Other(kids) => OneDoes(kids, s, s')
  }

  ghost predicate OneDoes(ns: seq<Node>, s: Locals, s': Locals)
    decreases ns, 0
  {
    ns != [] && (Does(ns[0], s, s') || OneDoes(ns[1..], s, s'))
  }

  ghost predicate ScopeDoes(params: Option<Node>, body: Option<Node>, s: Locals, s': Locals) {
    (params.Some? && Does(params.value, s, s')) || (body.Some? && Does(body.value, s, s'))
  }

  /** A run of the scope, from no locals set: what its nodes do, in any order and number. */
  ghost predicate Run(params: Option<Node>, body: Option<Node>, run: seq<Locals>) {
    && run != [] && run[0] == map[]
    && forall i :: 0 <= i < |run| - 1 ==> ScopeDoes(params, body, run[i], run[i + 1])
  }

  /** `e`, as an effect, takes `s` to `s'`. */
  ghost predicate Happens(e: Event, s: Locals, s': Locals) {
    e.Evaled? || (Sets(s, e.x, s') && (e.Wrote? && e.ty.Some? ==> Has(World(map[]), s'[e.x], e.ty.value)))
  }

  ghost predicate SomeHappens(es: seq<Event>, s: Locals, s': Locals) { exists e :: e in es && Happens(e, s, s') }

  lemma EitherHappens(a: seq<Event>, b: seq<Event>, s: Locals, s': Locals)
    ensures SomeHappens(a + b, s, s') <==> SomeHappens(a, s, s') || SomeHappens(b, s, s')
  {}

  lemma OneHappens(e: Event, s: Locals, s': Locals)
    ensures SomeHappens([e], s, s') <==> Happens(e, s, s')
  {
    assert e in [e];
  }

  lemma {:induction false} NumberedHappens(upto: nat, s: Locals, s': Locals)
    requires upto <= 9
    ensures SomeHappens(NumberedEvents(upto), s, s') <==> exists i :: 1 <= i <= upto && Sets(s, NumberedName(i), s')
  {
    if upto > 0 {
      NumberedHappens(upto - 1, s, s');
      EitherHappens(NumberedEvents(upto - 1), [Poisoned(NumberedName(upto))], s, s');
      OneHappens(Poisoned(NumberedName(upto)), s, s');
    }
  }

  lemma DigitNames(s: Locals, s': Locals)
    ensures (exists i :: 1 <= i <= 9 && Sets(s, NumberedName(i), s')) <==>
            exists c: char :: '1' <= c <= '9' && Sets(s, ['_', c], s')
  {
    if c: char :| '1' <= c <= '9' && Sets(s, ['_', c], s') {
      var i := c as int - '0' as int;
      assert NumberedName(i) == ['_', c];
    }
    if i :| 1 <= i <= 9 && Sets(s, NumberedName(i), s') {
      var c := "0123456789"[i];
      assert NumberedName(i) == ['_', c];
    }
  }

  /** Whatever a node does is an event of it, and whatever its events allow it may do. */
  lemma {:induction false} DoesIsEvent(n: Node, s: Locals, s': Locals)
    ensures Does(n, s, s') <==> SomeHappens(Events(n), s, s')
    decreases n, 1
  {
    match n
    case Literal(_, kids) => OneIsEvent(kids, s, s');
    case LocalWrite(x, value) =>
      DoesIsEvent(value, s, s');
      EitherHappens([Wrote(x, LiteralTy(value))], Events(value), s, s');
      OneHappens(Wrote(x, LiteralTy(value)), s, s');
    case Rebind(bound, kids) =>
      OneIsEvent(kids, s, s');
      if bound.Some? {
        EitherHappens([Poisoned(bound.value)], AllEvents(kids), s, s');
        OneHappens(Poisoned(bound.value), s, s');
      }
    case NumberedParams(kids) =>
      OneIsEvent(kids, s, s');
      EitherHappens(NumberedEvents(9), AllEvents(kids), s, s');
      NumberedHappens(9, s, s');
      DigitNames(s, s');
    case Call(name, kids) =>
      OneIsEvent(kids, s, s');
      if RunsUnseenCode(name) {
        EitherHappens([Evaled], AllEvents(kids), s, s');
        OneHappens(Evaled, s, s');
      }
    case Gate(_) =>
    case Other(kids) => OneIsEvent(kids, s, s');
  }

  lemma {:induction false} OneIsEvent(ns: seq<Node>, s: Locals, s': Locals)
    ensures OneDoes(ns, s, s') <==> SomeHappens(AllEvents(ns), s, s')
    decreases ns, 0
  {
    if ns != [] {
      DoesIsEvent(ns[0], s, s');
      OneIsEvent(ns[1..], s, s');
      EitherHappens(Events(ns[0]), AllEvents(ns[1..]), s, s');
    }
  }

  lemma ScopeIsEvent(params: Option<Node>, body: Option<Node>, s: Locals, s': Locals)
    ensures ScopeDoes(params, body, s, s') <==> SomeHappens(ScopeEvents(params, body), s, s')
  {
    var a, b := if params.Some? then Events(params.value) else [], if body.Some? then Events(body.value) else [];
    EitherHappens(a, b, s, s');
    if params.Some? { DoesIsEvent(params.value, s, s'); }
    if body.Some? { DoesIsEvent(body.value, s, s'); }
  }

  /** In `run`, `x` ends up unset or with a value of type `t`. */
  ghost predicate Keeps(run: seq<Locals>, x: string, t: Ty) {
    run != [] && (x in run[|run| - 1] ==> Has(World(map[]), run[|run| - 1][x], t))
  }

  predicate LiteralType(t: Ty) { t.Int? || t.Float? || t.Str? || t.Nil? }

  /** In every run of the scope a proven local is unset or holds a value of its type. */
  lemma {:induction false} ProvenHoldsInEveryRun(params: Option<Node>, body: Option<Node>, run: seq<Locals>, x: string)
    requires Run(params, body, run)
    requires x in Proven(After(Seen(map[], false), ScopeEvents(params, body)))
    ensures Keeps(run, x, Proven(After(Seen(map[], false), ScopeEvents(params, body)))[x])
    decreases |run|
  {
    var es := ScopeEvents(params, body);
    var t, n := Proven(After(Seen(map[], false), es))[x], |run| - 1;
    if n > 0 {
      assert run[..n][n - 1] == run[n - 1];
      ProvenHoldsInEveryRun(params, body, run[..n], x);
      assert ScopeDoes(params, body, run[n - 1], run[n - 1 + 1]);
      ScopeIsEvent(params, body, run[n - 1], run[n]);
      var e :| e in es && Happens(e, run[n - 1], run[n]);
      ProvenIff(es, x, t);
      if !e.Evaled? && e.x == x { assert About(e, x); }
    }
  }

  function Sample(t: Ty): Value {
    match t
    case Int => VInt(0)
    case Float => VFloat(0.0)
    case Str => VStr("")
    case _ => VNil
  }

  /** Any event can be the first thing a run does. */
  lemma FirstStep(params: Option<Node>, body: Option<Node>, e: Event, s: Locals) returns (run: seq<Locals>)
    requires e in ScopeEvents(params, body) && Happens(e, map[], s)
    ensures Run(params, body, run) && run[|run| - 1] == s
  {
    run := [map[], s];
    ScopeIsEvent(params, body, map[], s);
  }

  lemma {:induction false} WroteLiteralTypes(n: Node)
    ensures forall e :: e in Events(n) && e.Wrote? && e.ty.Some? ==> LiteralType(e.ty.value)
    decreases n, 1
  {
    match n
    case Literal(_, kids) => AllWroteLiteralTypes(kids);
    case LocalWrite(x, value) => WroteLiteralTypes(value);
    case Rebind(_, kids) => AllWroteLiteralTypes(kids);
    case NumberedParams(kids) => AllWroteLiteralTypes(kids); NumberedPoison(9);
    case Call(_, kids) => AllWroteLiteralTypes(kids);
    case Gate(_) =>
    case Other(kids) => AllWroteLiteralTypes(kids);
  }

  lemma {:induction false} AllWroteLiteralTypes(ns: seq<Node>)
    ensures forall e :: e in AllEvents(ns) && e.Wrote? && e.ty.Some? ==> LiteralType(e.ty.value)
    decreases ns, 0
  {
    if ns != [] {
      WroteLiteralTypes(ns[0]);
      AllWroteLiteralTypes(ns[1..]);
    }
  }

  lemma {:induction false} NumberedPoison(upto: nat)
    requires upto <= 9
    ensures forall e :: e in NumberedEvents(upto) ==> e.Poisoned?
  {
    if upto > 0 { NumberedPoison(upto - 1); }
  }

  ghost predicate Settable(params: Option<Node>, body: Option<Node>, x: string) {
    exists run :: Run(params, body, run) && x in run[|run| - 1]
  }

  ghost predicate AlwaysKept(params: Option<Node>, body: Option<Node>, x: string, t: Ty) {
    forall run :: Run(params, body, run) ==> Keeps(run, x, t)
  }

  /** Exactly: a local is proven of a literal type when some run sets it and every run keeps it unset or of that
      type. */
  lemma ProvenExactly(params: Option<Node>, body: Option<Node>, x: string, t: Ty)
    requires LiteralType(t)
    ensures var m := Proven(After(Seen(map[], false), ScopeEvents(params, body)));
            (x in m && m[x] == t) <==> Settable(params, body, x) && AlwaysKept(params, body, x, t)
  {
    var es := ScopeEvents(params, body);
    ProvenIff(es, x, t);
    if LiteralOnly(es, x, t) {
      var run := FirstStep(params, body, Wrote(x, Some(t)), map[x := Sample(t)]);
      forall r | Run(params, body, r) ensures Keeps(r, x, t) { ProvenHoldsInEveryRun(params, body, r, x); }
    } else if AlwaysKept(params, body, x, t) {
      OnlyKept(params, body, x, t);
      forall run | Run(params, body, run) ensures x !in run[|run| - 1] { NeverSet(params, body, run, x, t); }
    }
  }

  /** If every run keeps `x`, then no event but literal writes of `t` can touch it. */
  lemma OnlyKept(params: Option<Node>, body: Option<Node>, x: string, t: Ty)
    requires LiteralType(t) && AlwaysKept(params, body, x, t)
    ensures var es := ScopeEvents(params, body);
            Evaled !in es && forall e :: e in es && About(e, x) ==> e == Wrote(x, Some(t))
  {
    var es := ScopeEvents(params, body);
    if Evaled in es {
      var run := FirstStep(params, body, Evaled, map[x := VOther(0)]);
      assert false;
    }
    forall e | e in es && About(e, x) ensures e == Wrote(x, Some(t)) {
      if params.Some? { WroteLiteralTypes(params.value); }
      if body.Some? { WroteLiteralTypes(body.value); }
      var v := if e.Wrote? && e.ty.Some? then Sample(e.ty.value) else VOther(0);
      var run := FirstStep(params, body, e, map[x := v]);
      assert Keeps(run, x, t);
    }
  }

  /** Without an event that touches `x`, no run sets it. */
  lemma {:induction false} NeverSet(params: Option<Node>, body: Option<Node>, run: seq<Locals>, x: string, t: Ty)
    requires Run(params, body, run) && !LiteralOnly(ScopeEvents(params, body), x, t)
    requires var es := ScopeEvents(params, body);
             Evaled !in es && forall e :: e in es && About(e, x) ==> e == Wrote(x, Some(t))
    ensures x !in run[|run| - 1]
    decreases |run|
  {
    var n := |run| - 1;
    if n > 0 {
      assert run[..n][n - 1] == run[n - 1];
      NeverSet(params, body, run[..n], x, t);
      assert ScopeDoes(params, body, run[n - 1], run[n - 1 + 1]);
      ScopeIsEvent(params, body, run[n - 1], run[n]);
      var e :| e in ScopeEvents(params, body) && Happens(e, run[n - 1], run[n]);
      assert e.x != x;
    }
  }

  lemma ProvenLiteral(params: Option<Node>, body: Option<Node>, x: string)
    requires x in Proven(After(Seen(map[], false), ScopeEvents(params, body)))
    ensures LiteralType(Proven(After(Seen(map[], false), ScopeEvents(params, body)))[x])
  {
    ProvenIff(ScopeEvents(params, body), x, Proven(After(Seen(map[], false), ScopeEvents(params, body)))[x]);
    if params.Some? { WroteLiteralTypes(params.value); }
    if body.Some? { WroteLiteralTypes(body.value); }
  }

  /** The scan of a whole scope: parameters first, then the body. What it proves is exactly what every run of the scope
      keeps. */
  method ProveOperandLocals(params: Option<Node>, body: Option<Node>) returns (proven: map<string, Ty>)
    ensures proven == Proven(After(Seen(map[], false), ScopeEvents(params, body)))
    ensures forall x :: x in proven ==> LiteralType(proven[x])
    ensures forall x, t :: LiteralType(t) ==>
      ((x in proven && proven[x] == t) <==> Settable(params, body, x) && AlwaysKept(params, body, x, t))
  {
    var scan := new OperandLocalScan();
    if params.Some? { scan.Visit(params.value); }
    ghost var pe := if params.Some? then Events(params.value) else [];
    ghost var be := if body.Some? then Events(body.value) else [];
    if body.Some? { scan.Visit(body.value); }
    AfterConcat(Seen(map[], false), pe, be);
    proven := Proven(scan.seen);
    forall x | x in proven ensures LiteralType(proven[x]) { ProvenLiteral(params, body, x); }
    forall x, t | LiteralType(t)
      ensures (x in proven && proven[x] == t) <==> Settable(params, body, x) && AlwaysKept(params, body, x, t)
    {
      ProvenExactly(params, body, x, t);
    }
  }
}
