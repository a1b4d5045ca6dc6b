/** The loop-free Ruby the flow analysis is about: its syntax as the checker sees it
    and what a run of it does. */
module Ruby {
  import opened Types

  /** A constant reference after name resolution: a project class, or a name the index
      does not hold (a core class, a gem's constant, a typo). */
  datatype Const = Project(cls: ClassId) | Named(name: string)

  datatype Expr =
    | IntLit(i: int)
    | FloatLit(f: real)
    | StrLit(s: string)
    | SymLit(s: string)
    | BoolLit(b: bool)
    | NilLit
    | SelfRef
    | ConstRef(c: Const)
    | ArrayLit(items: seq<Expr>, splat: bool, id: nat)     // splat: some item is `*e`
    | HashLit(items: seq<Expr>, splat: bool, id: nat)      // keys and values alternate
    | Read(x: string)
    | Write(x: string, e: Expr)
    | OrWrite(x: string, e: Expr)                          // x ||= e
    | AndWrite(x: string, e: Expr)                         // x &&= e
    | OpWrite(x: string, e: Expr, id: nat)                 // x += e and the like
    | If(pred: Expr, thn: seq<Expr>, els: Option<Expr>)
    | Unless(pred: Expr, thn: seq<Expr>, els: Option<Expr>)
    | Case(subject: Option<Expr>, whens: seq<When>, els: Option<Expr>)
    | And(l: Expr, r: Expr)
    | Or(l: Expr, r: Expr)
    | Stmts(body: seq<Expr>)
    | Return(args: seq<Expr>)
    | DefinedP(id: nat)
    | NilP(x: string)                                      // x.nil?
    | IsAP(x: string, c: Const)                            // x.is_a?(C)
    | Raise(args: seq<Expr>)                               // bare `raise` / `fail`
    | Jump                                                 // break, next, redo, retry
    | Call(recv: Option<Expr>, args: seq<Expr>, id: nat)

  datatype When = When(conds: seq<Expr>, body: seq<Expr>)

  /** A local that was never assigned reads as nil. */
  type Store = map<string, Value>

  function Get(s: Store, x: string): Value {
    if x in s then s[x] else VNil
  }

  /** Everything a run takes from outside the fragment. Each call site runs at most once
      in loop-free code, so one answer per site covers every possible behaviour. */
  datatype Runtime = Runtime(
    w: World,
    self: Value,
    call: nat -> Option<Value>,                            // None: the call raises
    made: nat -> Value,                                    // result of a splatted literal
    caseEq: (Value, Value) -> bool,                        // `===` on anything but a constant
    constant: string -> Option<Value>,
    otherIsA: (string, Value) -> bool)                     // is_a? and `===` on any other constant

  datatype Outcome = Normal(v: Value, s: Store) | Returned(v: Value) | Raised

  datatype ListOutcome = Vals(vs: seq<Value>, s: Store) | Stop(out: Outcome)

  datatype CondOutcome = Matched(s: Store) | NoMatch(s: Store) | Abort(out: Outcome)

  datatype CaseOutcome = Took(branch: nat, out: Outcome) | Fell(s: Store) | Broke(out: Outcome)

  predicate Truthy(v: Value) {
    v != VNil && v != VBool(false)
  }

  /** `trim_start_matches("::")` */
  function TrimCbase(name: string): string {
    if |name| >= 2 && name[..2] == "::" then TrimCbase(name[2..]) else name
  }

  predicate IsA(rt: Runtime, v: Value, c: Const) {
    match c
    case Project(cls) => v.VObj? && rt.w.Sub(v.cls, cls)
    case Named(name) =>
      var n := TrimCbase(name);
      if n == "Integer" then v.VInt?
      else if n == "Float" then v.VFloat?
      else if n == "String" then v.VStr?
      else if n == "Symbol" then v.VSym?
      else if n == "NilClass" then v == VNil
      else if n == "TrueClass" then v == VBool(true)
      else if n == "FalseClass" then v == VBool(false)
      else if n == "Array" then v.VArray?
      else if n == "Hash" then v.VHash?
      else rt.otherIsA(n, v)
  }

  function ConstValue(rt: Runtime, c: Const): Option<Value> {
    if c.Project? then Some(VClass(c.cls)) else rt.constant(c.name)
  }

  /** `{k1 => v1, ...}` from alternating keys and values; a later key overwrites. */
  function HashOf(items: seq<Value>): map<Value, Value> {
    if |items| < 2 then map[]
    else HashOf(items[..|items| - 2])[items[|items| - 2] := items[|items| - 1]]
  }

  function LastOr(vs: seq<Value>): Value {
    if vs == [] then VNil else vs[|vs| - 1]
  }

  function FromCall(o: Option<Value>, s: Store): Outcome {
    if o.Some? then Normal(o.value, s) else Raised
  }

  function Eval(rt: Runtime, e: Expr, s: Store): Outcome
    decreases e, 1
  {
    match e
    case IntLit(i) => Normal(VInt(i), s)
    case FloatLit(r) => Normal(VFloat(r), s)
    case StrLit(x) => Normal(VStr(x), s)
    case SymLit(x) => Normal(VSym(x), s)
    case BoolLit(b) => Normal(VBool(b), s)
    case NilLit => Normal(VNil, s)
    case SelfRef => Normal(rt.self, s)
    case ConstRef(c) => FromCall(ConstValue(rt, c), s)
    case ArrayLit(items, splat, id) =>
      (match EvalList(rt, items, s)
       case Stop(o) => o
       case Vals(vs, s') =>
         Normal(if !splat then VArray(vs) else if rt.made(id).VArray? then rt.made(id) else VArray([]), s'))
    case HashLit(items, splat, id) =>
      (match EvalList(rt, items, s)
       case Stop(o) => o
       case Vals(vs, s') =>
         Normal(if !splat then VHash(HashOf(vs)) else if rt.made(id).VHash? then rt.made(id) else VHash(map[]), s'))
    case Read(x) => Normal(Get(s, x), s)
    case Write(x, e1) =>
      (match Eval(rt, e1, s)
       case Normal(v, s') => Normal(v, s'[x := v])
       case o => o)
    case OrWrite(x, e1) =>
      if Truthy(Get(s, x)) then Normal(Get(s, x), s)
      else (match Eval(rt, e1, s)
            case Normal(v, s') => Normal(v, s'[x := v])
            case o => o)
    case AndWrite(x, e1) =>
      if !Truthy(Get(s, x)) then Normal(Get(s, x), s)
      else (match Eval(rt, e1, s)
            case Normal(v, s') => Normal(v, s'[x := v])
            case o => o)
    case OpWrite(x, e1, id) =>
      (match Eval(rt, e1, s)
       case Normal(_, s') => if rt.call(id).Some? then Normal(rt.call(id).value, s'[x := rt.call(id).value]) else Raised
       case o => o)
    case If(p, thn, els) =>
      (match Eval(rt, p, s)
       case Normal(v, s') => if Truthy(v) then EvalBody(rt, thn, s') else EvalOpt(rt, els, s')
       case o => o)
    case Unless(p, thn, els) =>
      (match Eval(rt, p, s)
       case Normal(v, s') => if Truthy(v) then EvalOpt(rt, els, s') else EvalBody(rt, thn, s')
       case o => o)
    case Case(subject, whens, els) =>
      (match EvalOpt(rt, subject, s)
       case Normal(v, s') =>
         (match EvalWhens(rt, whens, if subject.Some? then Some(v) else None, s')
          case Took(_, o) => o
          case Broke(o) => o
          case Fell(s'') => EvalOpt(rt, els, s''))
       case o => o)
    case And(l, r) =>
      (match Eval(rt, l, s)
       case Normal(v, s') => if Truthy(v) then Eval(rt, r, s') else Normal(v, s')
       case o => o)
    case Or(l, r) =>
      (match Eval(rt, l, s)
       case Normal(v, s') => if Truthy(v) then Normal(v, s') else Eval(rt, r, s')
       case o => o)
    case Stmts(body) => EvalBody(rt, body, s)
    case Return(args) =>
      (match EvalList(rt, args, s)
       case Stop(o) => o
       case Vals(vs, _) => Returned(if vs == [] then VNil else if |vs| == 1 then vs[0] else VArray(vs)))
    case DefinedP(id) => Normal(if rt.made(id).VStr? then rt.made(id) else VNil, s)
    case NilP(x) => Normal(VBool(Get(s, x) == VNil), s)
    case IsAP(x, c) => Normal(VBool(IsA(rt, Get(s, x), c)), s)
    case Jump => Raised                                    // no loop or block is left to catch it
    case Raise(args) =>
      (match EvalList(rt, args, s)
       case Stop(o) => o
       case Vals(_, _) => Raised)
    case Call(recv, args, id) =>
      (match EvalOpt(rt, recv, s)
       case Normal(_, s') =>
         (match EvalList(rt, args, s')
          case Stop(o) => o
          case Vals(_, s'') => FromCall(rt.call(id), s''))
       case o => o)
  }

  function EvalOpt(rt: Runtime, e: Option<Expr>, s: Store): Outcome
    decreases e, 1
  {
    if e.Some? then Eval(rt, e.value, s) else Normal(VNil, s)
  }

  function EvalList(rt: Runtime, es: seq<Expr>, s: Store): (r: ListOutcome)
    ensures r.Stop? ==> !r.out.Normal?
    ensures r.Vals? ==> |r.vs| == |es|
    decreases es, 0
  {
    if es == [] then Vals([], s)
    else match Eval(rt, es[0], s)
      case Normal(v, s') =>
        (match EvalList(rt, es[1..], s')
         case Vals(vs, s'') => Vals([v] + vs, s'')
         case stop => stop)
      case o => Stop(o)
  }

  /** A statement list yields its last value, nil when empty. */
  function EvalBody(rt: Runtime, es: seq<Expr>, s: Store): Outcome
    decreases es, 1
  {
    match EvalList(rt, es, s)
    case Vals(vs, s') => Normal(LastOr(vs), s')
    case Stop(o) => o
  }

  /** Does a `when` condition accept the subject? Classes use `Module#===`. */
  predicate CondHolds(rt: Runtime, cond: Expr, v: Value, subject: Option<Value>) {
    if subject.None? then Truthy(v)
    else if cond.ConstRef? then IsA(rt, subject.value, cond.c)
    else rt.caseEq(v, subject.value)
  }

  function EvalConds(rt: Runtime, conds: seq<Expr>, subject: Option<Value>, s: Store): (r: CondOutcome)
    ensures r.Abort? ==> !r.out.Normal?
    decreases conds, 0
  {
    if conds == [] then NoMatch(s)
    else match Eval(rt, conds[0], s)
      case Normal(v, s') =>
        if CondHolds(rt, conds[0], v, subject) then Matched(s') else EvalConds(rt, conds[1..], subject, s')
      case o => Abort(o)
  }

  function EvalWhens(rt: Runtime, whens: seq<When>, subject: Option<Value>, s: Store): (r: CaseOutcome)
    ensures r.Broke? ==> !r.out.Normal?
    decreases whens, 0
  {
    if whens == [] then Fell(s)
    else match EvalConds(rt, whens[0].conds, subject, s)
      case Matched(s') => Took(0, EvalBody(rt, whens[0].body, s'))
      case NoMatch(s') =>
        (match EvalWhens(rt, whens[1..], subject, s')
         case Took(i, o) => Took(i + 1, o)
         case other => other)
      case Abort(o) => Broke(o)
  }
}
