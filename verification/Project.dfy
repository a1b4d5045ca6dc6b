/** What the walker reads and never changes: the syntax trees of the project's methods and
    the answers of the project index. */
module Project {
  import opened Types
  import opened Census
  import Flow
  import Compat

  type Span = (nat, nat)

  datatype Node = Node(span: Span, kind: Kind)

  datatype Kind =
    | Plain(ty: Ty)                                        // literals and other leaves
    | Parts(parts: seq<Node>, ty: Ty)                      // any form that only walks its parts in order
    | Spread(parts: seq<Node>)                             // a splat, keyword-hash or forwarding argument
    | SelfRead
    | ConstRead(path: string, ty: Ty)
    | LocalRead(x: string)
    | LocalWrite(x: string, value: Node)
    | LocalOrWrite(x: string, value: Node)
    | LocalOpWrite(x: string, value: Node)                 // `&&=` and operator writes
    | MultiWrite(names: seq<string>, value: Node)
    | IvarRead(x: string)
    | IvarWrite(x: string, value: Node)
    | Stmts(body: seq<Node>)
    | IfNode(negated: bool, pred: Node, thn: seq<Node>, hasElse: bool, els: seq<Node>,
             narrow: Option<Flow.Narrow>, leaves: bool, definedGuard: Option<string>, respondGuard: Option<string>)
    | AndNode(l: Node, r: Node, classGuard: Option<string>)
    | OrNode(l: Node, r: Node)
    | ReturnNode(args: seq<Node>)
    | LambdaNode(params: seq<string>, block: Option<Node>)
    | CallNode(recv: Option<Node>, name: string, args: seq<Node>, blk: Option<Block>, msg: Span, rspec: seq<Span>)

  /** A literal block: parameters, body, and the calls it asserts to raise. */
  datatype Block = Block(params: seq<string>, body: Option<Node>, subjects: seq<Span>)

  datatype CastTarget = NotNil | Untyped | NamedTy(ty: Ty)

  datatype Cast = Cast(lo: nat, hi: nat, target: CastTarget)

  /** `ty` is the declared type, if any; a keyword parameter may have a default value. */
  datatype Param = Param(name: string, ty: Option<Ty>, default: Option<Node>)

  datatype Def = Def(name: string, params: seq<Param>, body: Option<Node>, operands: map<string, Ty>)

  /** `ret`: the inline signature's return type. `sorbet`: what the sorbet signature
      resolves to. `def`: the definition found at the recorded span. */
  datatype MethodSig = MethodSig(
    file: nat, ret: Option<Ty>, paramTys: seq<Ty>, arityUnknown: bool, rest: bool, required: nat, optional: nat,
    overridden: bool, sorbet: Ty, def: Option<Def>)

  /** A statement of a file or class body, as `scope_stmt` tells them apart. `cls` is the class the index gives the
      path, `operands` the literals proven for the body's scope. */
  datatype Item =
    | DefItem(def: Def, ownSelf: bool)
    | ClassItem(cls: Option<ClassId>, superclass: Option<(string, Span)>, body: seq<Item>, operands: map<string, Ty>)
    | SingletonItem(body: seq<Item>)
    | PlainItem(node: Node)

  datatype Lookup = Found(m: MethodSig) | NotFound | Open

  datatype CoreMethod = CoreMethod(min: nat, max: Option<nat>, ret: Ty)

  datatype Key = Key(cls: ClassId, name: string, singleton: bool)

  datatype SelfTy = SInstance(cls: ClassId) | SClass(cls: ClassId) | SUnknown

  datatype Via = ViaDsl | ViaRbi | ViaArApi

  datatype Oracle = Oracle(
    methods: map<Key, Lookup>,                             // lookup_method_rbi / lookup_singleton_rbi
    ownNew: ClassId -> Lookup,                             // lookup_singleton_own(c, "new")
    classMethods: map<ClassId, seq<MethodSig>>,            // a class's own instance methods
    fileCasts: nat -> seq<Cast>,
    blocker: (ClassId, bool) -> Option<Blocker>,           // inconclusive_reason
    arBase: ClassId -> bool,                               // declared_by(c, "ActiveRecord::Base")
    escalate: (ClassId, string, bool) -> Option<(Via, Ty)>, // rbi_escalate's three populations
    anonymous: ClassId -> bool,                            // the path is "Class" or "Struct"
    core: (Ty, string) -> Option<CoreMethod>,
    conclusiveMiss: (Ty, string) -> bool,
    constKnown: Span -> bool,                              // check_const_ref: the constant read there exists somewhere
    keepsSelf: (Ty, string) -> bool,                       // block_keeps_lexical_self
    closedWorld: bool,
    candidates: string -> seq<string>,
    index: Compat.Index)

  function LookupOf(p: Oracle, k: Key): Lookup {
    if k in p.methods then p.methods[k] else NotFound
  }

  function SelfAsTy(s: SelfTy): Ty {
    match s
    case SInstance(c) => Instance(c)
    case SClass(c) => Class(c)
    case SUnknown => Unknown
  }

  /** `expr_name`: the expressions a name can stand for. */
  function ExprName(n: Node): Option<string> {
    match n.kind
    case LocalRead(x) => Some(x)
    case CallNode(recv, name, args, blk, _, _) =>
      if recv.None? && args == [] && blk.None? then Some(name) else None
    case _ => None
  }

  function Tail(body: Node): Option<Node> {
    if !body.kind.Stmts? then Some(body)
    else if body.kind.body == [] then None
    else Some(body.kind.body[|body.kind.body| - 1])
  }

  predicate NumberedParam(x: string) {
    |x| == 2 && x[0] == '_' && '1' <= x[1] <= '9'
  }
}
