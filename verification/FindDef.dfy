/** `find_def_at`: the span-pruned search for a `def` that a return walk re-opens. */
module FindDef {
  import opened Types

  datatype Span = Span(start: nat, end: nat)

  datatype Node = Node(span: Span, shape: Shape)

  /** The container shapes the search enters; it never looks inside a `def` or anything else. */
  datatype Shape =
    | Def(id: nat)
    | Program(statements: Node)
    | Statements(nodes: seq<Node>)
    | Begin(block: Option<Node>)
    | Class(body: Option<Node>)
    | Module(body: Option<Node>)
    | Singleton(body: Option<Node>)
    | If(block: Option<Node>, subsequent: Option<Node>)
    | Unless(block: Option<Node>, subsequent: Option<Node>)
    | Else(block: Option<Node>)
    | Other

  datatype Found = Found(id: nat, span: Span)

  function Maybe(n: Option<Node>): seq<Node> { if n.Some? then [n.value] else [] }

  function Children(n: Node): (cs: seq<Node>)
    ensures forall i :: 0 <= i < |cs| ==> cs[i] < n
  {
    match n.shape
    case Program(s) => [s]
    case Statements(nodes) => nodes
    case Begin(b) => Maybe(b)
    case Class(b) => Maybe(b)
    case Module(b) => Maybe(b)
    case Singleton(b) => Maybe(b)
    case If(b, next) => Maybe(b) + Maybe(next)
    case Unless(b, next) => Maybe(b) + Maybe(next)
    case Else(b) => Maybe(b)
    case _ => []
  }

  predicate Within(inner: Span, outer: Span) { outer.start <= inner.start && inner.end <= outer.end }

  function FindAt(n: Node, span: Span): Option<Found>
    decreases n, 1, 0
  {
    if n.shape.Def? then (if n.span == span then Some(Found(n.shape.id, n.span)) else None)
    else FindIn(n, Children(n), span)
  }

  /** The loop over the children, skipping those whose span cannot hold the target. */
  function FindIn(n: Node, cs: seq<Node>, span: Span): Option<Found>
    requires forall i :: 0 <= i < |cs| ==> cs[i] < n
    decreases n, 0, |cs|
  {
    if cs == [] then None
    else if Within(span, cs[0].span) && FindAt(cs[0], span).Some? then FindAt(cs[0], span)
    else FindIn(n, cs[1..], span)
  }

  // ----- the reference: every reachable def in document order -----

  function Defs(n: Node): seq<Found>
    decreases n, 1, 0
  {
    if n.shape.Def? then [Found(n.shape.id, n.span)] else DefsIn(n, Children(n))
  }

  function DefsIn(n: Node, cs: seq<Node>): seq<Found>
    requires forall i :: 0 <= i < |cs| ==> cs[i] < n
    decreases n, 0, |cs|
  {
    if cs == [] then [] else Defs(cs[0]) + DefsIn(n, cs[1..])
  }

  function FirstWith(defs: seq<Found>, span: Span): Option<Found> {
    if defs == [] then None else if defs[0].span == span then Some(defs[0]) else FirstWith(defs[1..], span)
  }

  /** Every node lies inside its container. */
  ghost predicate Nested(n: Node)
    decreases n, 1, 0
  {
    NestedIn(n, Children(n))
  }

  ghost predicate NestedIn(n: Node, cs: seq<Node>)
    requires forall i :: 0 <= i < |cs| ==> cs[i] < n
    decreases n, 0, |cs|
  {
    cs == [] || (Within(cs[0].span, n.span) && Nested(cs[0]) && NestedIn(n, cs[1..]))
  }

  lemma {:induction false} FirstWithConcat(a: seq<Found>, b: seq<Found>, span: Span)
    ensures FirstWith(a + b, span) == if FirstWith(a, span).Some? then FirstWith(a, span) else FirstWith(b, span)
    decreases |a|
  {
    if a == [] {
      assert a + b == b;
    } else {
      assert (a + b)[1..] == a[1..] + b;
      FirstWithConcat(a[1..], b, span);
    }
  }

  lemma {:induction false} FirstWithMeaning(defs: seq<Found>, span: Span)
    ensures FirstWith(defs, span).Some? <==> exists d :: d in defs && d.span == span
    ensures FirstWith(defs, span).Some? ==>
      FirstWith(defs, span).value in defs && FirstWith(defs, span).value.span == span
    decreases |defs|
  {
    if defs != [] { FirstWithMeaning(defs[1..], span); }
  }

  // ----- pruning is sound -----

  /** All defs below a node lie inside its span. */
  lemma {:induction false} DefsWithin(n: Node)
    requires Nested(n)
    ensures forall d :: d in Defs(n) ==> Within(d.span, n.span)
    decreases n, 1, 0
  {
    if !n.shape.Def? { DefsInWithin(n, Children(n)); }
  }

  lemma {:induction false} DefsInWithin(n: Node, cs: seq<Node>)
    requires forall i :: 0 <= i < |cs| ==> cs[i] < n
    requires NestedIn(n, cs)
    ensures forall d :: d in DefsIn(n, cs) ==> Within(d.span, n.span)
    decreases n, 0, |cs|
  {
    if cs != [] {
      DefsWithin(cs[0]);
      DefsInWithin(n, cs[1..]);
    }
  }

  /** On well-nested spans the pruned search is the unpruned one: the first def of that span, in document order. */
  lemma {:induction false} PrunedIsFirst(n: Node, span: Span)
    requires Nested(n)
    ensures FindAt(n, span) == FirstWith(Defs(n), span)
    decreases n, 1, 0
  {
    if !n.shape.Def? { PrunedInIsFirst(n, Children(n), span); }
  }

  lemma {:induction false} PrunedInIsFirst(n: Node, cs: seq<Node>, span: Span)
    requires forall i :: 0 <= i < |cs| ==> cs[i] < n
    requires NestedIn(n, cs)
    ensures FindIn(n, cs, span) == FirstWith(DefsIn(n, cs), span)
    decreases n, 0, |cs|
  {
    if cs != [] {
      PrunedIsFirst(cs[0], span);
      PrunedInIsFirst(n, cs[1..], span);
      FirstWithConcat(Defs(cs[0]), DefsIn(n, cs[1..]), span);
      if !Within(span, cs[0].span) {
        DefsWithin(cs[0]);
        FirstWithMeaning(Defs(cs[0]), span);
      }
    }
  }

  // ----- what is reachable -----

  /** The containers the index walks too: a program's and a class-like body's statements, `begin`, and the branches of
      `if`, `unless` and `else`. */
  predicate Enters(n: Node, m: Node) {
    match n.shape
    case Program(s) => m == s
    case Statements(nodes) => m in nodes
    case Begin(b) => b == Some(m)
    case Class(b) => b == Some(m)
    case Module(b) => b == Some(m)
    case Singleton(b) => b == Some(m)
    case If(b, next) => b == Some(m) || next == Some(m)
    case Unless(b, next) => b == Some(m) || next == Some(m)
    case Else(b) => b == Some(m)
    case Def(_) => false
    case Other => false
  }

  /** `d` is reached from `n` through such containers, and not through another def. */
  ghost predicate Reaches(n: Node, d: Found)
    decreases n
  {
    if n.shape.Def? then d == Found(n.shape.id, n.span) else exists m :: Enters(n, m) && Reaches(m, d)
  }

  lemma EntersChildren(n: Node, m: Node)
    ensures Enters(n, m) <==> m in Children(n)
  {}

  /** The reference lists exactly what is reached. */
  lemma {:induction false} DefsReached(n: Node, d: Found)
    ensures d in Defs(n) <==> Reaches(n, d)
    decreases n, 1, 0
  {
    if !n.shape.Def? {
      DefsInReached(n, Children(n), d);
      if m :| m in Children(n) && Reaches(m, d) { EntersChildren(n, m); }
      if m :| Enters(n, m) && Reaches(m, d) { EntersChildren(n, m); }
    }
  }

  lemma {:induction false} DefsInReached(n: Node, cs: seq<Node>, d: Found)
    requires forall i :: 0 <= i < |cs| ==> cs[i] < n
    ensures d in DefsIn(n, cs) <==> exists m :: m in cs && Reaches(m, d)
    decreases n, 0, |cs|
  {
    if cs != [] {
      DefsReached(cs[0], d);
      DefsInReached(n, cs[1..], d);
      assert forall m :: m in cs <==> m == cs[0] || m in cs[1..];
    }
  }

  /** The search fails exactly when no reachable def has that span, and what it finds is one. */
  lemma FailsIff(n: Node, span: Span)
    requires Nested(n)
    ensures FindAt(n, span).None? <==> forall d :: Reaches(n, d) ==> d.span != span
    ensures FindAt(n, span).Some? ==> Reaches(n, FindAt(n, span).value) && FindAt(n, span).value.span == span
  {
    PrunedIsFirst(n, span);
    FirstWithMeaning(Defs(n), span);
    forall d ensures d in Defs(n) <==> Reaches(n, d) { DefsReached(n, d); }
  }
}
