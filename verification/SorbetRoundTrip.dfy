/** Type terms of any depth, every way to lay them out as text, and the proof that the
    scanner reads back what was written. */
module SorbetRoundTrip {
  import opened Types
  import opened SorbetSig

  /** Free spacing around a term, and an optional leading `::`. */
  datatype Layout = Layout(before: string, cbase: bool, mid: string, after: string)

  /** A type expression with its layout; `gap` is the space before the bracket. */
  datatype Term =
    | Name(lay: Layout, name: string)
    | Nilable(lay: Layout, gap: string, arg: Term)
    | ListOf(lay: Layout, gap: string, arg: Term)
    | HashOf(lay: Layout, gap: string, key: Term, val: Term)
    | AnyOf(lay: Layout, gap: string, args: seq<Term>)

  predicate Blank(s: string) {
    forall i :: 0 <= i < |s| ==> Space(s[i])
  }

  predicate Flat(s: string) {
    forall i :: 0 <= i < |s| ==> !Opening(s[i]) && !Closing(s[i]) && s[i] != ','
  }

  /** A name the scanner can meet as a leaf. */
  predicate NameText(s: string) {
    s != [] && Flat(s) && !("::" <= s) && forall i :: 0 <= i < |s| ==> !Space(s[i])
  }

  predicate LaidOut(l: Layout) {
    Blank(l.before) && Blank(l.mid) && Blank(l.after)
  }

  predicate WellFormed(t: Term) {
    && LaidOut(t.lay)
    && match t
       case Name(_, n) => NameText(n)
       case Nilable(_, gap, a) => Blank(gap) && WellFormed(a)
       case ListOf(_, gap, a) => Blank(gap) && WellFormed(a)
       case HashOf(_, gap, k, v) => Blank(gap) && WellFormed(k) && WellFormed(v)
       case AnyOf(_, gap, args) => Blank(gap) && args != [] && forall i :: 0 <= i < |args| ==> WellFormed(args[i])
  }

  function Body(t: Term): string
    decreases t, 0
  {
    match t
    case Name(_, n) => n
    case Nilable(_, gap, a) => "T.nilable" + gap + "(" + Print(a) + ")"
    case ListOf(_, gap, a) => "T::Array" + gap + "[" + Print(a) + "]"
    case HashOf(_, gap, k, v) => "T::Hash" + gap + "[" + (Print(k) + "," + Print(v)) + "]"
    case AnyOf(_, gap, args) => "T.any" + gap + "(" + PrintAll(args) + ")"
  }

  function Solid(t: Term): string
    decreases t, 1
  {
    (if t.lay.cbase then "::" + t.lay.mid else "") + Body(t)
  }

  function Print(t: Term): string
    decreases t, 2
  {
    t.lay.before + Solid(t) + t.lay.after
  }

  function PrintAll(ts: seq<Term>): string
    decreases ts, 0
  {
    if ts == [] then "" else if |ts| == 1 then Print(ts[0]) else Print(ts[0]) + "," + PrintAll(ts[1..])
  }

  /** The meaning of a term, independent of any text. */
  function Denote(t: Term, resolve: Resolver): Ty {
    match t
    case Name(_, n) =>
      if ScalarTy(n).Some? then ScalarTy(n).value else if resolve(n).Some? then resolve(n).value else Unknown
    case Nilable(_, _, a) => Join(Denote(a, resolve), Nil)
    case ListOf(_, _, a) => Array(Denote(a, resolve))
    case HashOf(_, _, k, v) => Hash(Denote(k, resolve), Denote(v, resolve))
    case AnyOf(_, _, args) =>
      var tys := DenoteAll(args, resolve);
      if tys == [] then Unknown else JoinAll(tys[0], tys[1..])
  }

  function DenoteAll(ts: seq<Term>, resolve: Resolver): (r: seq<Ty>)
    ensures |r| == |ts|
  {
    if ts == [] then [] else [Denote(ts[0], resolve)] + DenoteAll(ts[1..], resolve)
  }

  // ----- trimming -----

  predicate Tight(s: string) {
    s != [] && !Space(s[0]) && !Space(s[|s| - 1])
  }

  lemma {:induction false} TrimStartPad(a: string, y: string)
    requires Blank(a) && (y == [] || !Space(y[0]))
    ensures TrimStart(a + y) == y
    decreases |a|
  {
    if a == [] {
      assert a + y == y;
    } else {
      assert (a + y)[1..] == a[1..] + y;
      TrimStartPad(a[1..], y);
    }
  }

  lemma {:induction false} TrimEndPad(y: string, b: string)
    requires Blank(b) && (y == [] || !Space(y[|y| - 1]))
    ensures TrimEnd(y + b) == y
    decreases |b|
  {
    if b == [] {
      assert y + b == y;
    } else {
      assert (y + b)[..|y + b| - 1] == y + b[..|b| - 1];
      TrimEndPad(y, b[..|b| - 1]);
    }
  }

  lemma TrimPad(a: string, x: string, b: string)
    requires Blank(a) && Blank(b) && Tight(x)
    ensures Trim(a + x + b) == x
  {
    assert a + x + b == a + (x + b);
    TrimStartPad(a, x + b);
    TrimEndPad(x, b);
  }

  lemma TrimTight(x: string)
    requires Tight(x)
    ensures Trim(x) == x
  {
    TrimPad([], x, []);
    assert [] + x + [] == x;
  }

  lemma {:induction false} BodyTight(t: Term)
    requires WellFormed(t)
    ensures Tight(Body(t)) && !("::" <= Body(t))
    ensures !t.Name? ==> Closing(Body(t)[|Body(t)| - 1])
  {}

  lemma SolidTight(t: Term)
    requires WellFormed(t)
    ensures Tight(Solid(t))
  {
    BodyTight(t);
    var s := Solid(t);
    assert s[|s| - 1] == Body(t)[|Body(t)| - 1];
    if t.lay.cbase { assert s[0] == ':'; } else { assert s == Body(t); }
  }

  lemma CbaseDropped(mid: string, body: string)
    requires Blank(mid) && Tight(body)
    ensures Trim(DropCbase("::" + mid + body)) == body
  {
    var s := "::" + mid + body;
    assert "::" <= s && s[2..] == mid + body;
    TrimPad(mid, body, []);
    assert mid + body + [] == mid + body;
  }

  /** After trimming and dropping `::`, the scanner looks at the body. */
  lemma HeadIsBody(t: Term)
    requires WellFormed(t)
    ensures Trim(Print(t)) == Solid(t) && Trim(Solid(t)) == Solid(t)
    ensures Trim(DropCbase(Solid(t))) == Body(t)
  {
    SolidTight(t);
    TrimPad(t.lay.before, Solid(t), t.lay.after);
    TrimTight(Solid(t));
    SolidIsBody(t);
  }

  lemma SolidIsBody(t: Term)
    requires WellFormed(t)
    ensures Trim(DropCbase(Solid(t))) == Body(t)
  {
    BodyTight(t);
    if t.lay.cbase {
      CbaseDropped(t.lay.mid, Body(t));
    } else {
      assert Solid(t) == Body(t);
      TrimTight(Body(t));
    }
  }

  // ----- depth scanning -----

  /** The bracket depth after `s`, or None when a comma is met at depth 0. */
  function Scan(s: string, depth: int): Option<int>
    decreases |s|
  {
    if s == [] then Some(depth)
    else if Opening(s[0]) then Scan(s[1..], depth + 1)
    else if Closing(s[0]) then Scan(s[1..], depth - 1)
    else if s[0] == ',' && depth == 0 then None
    else Scan(s[1..], depth)
  }

  lemma {:induction false} ScanConcat(a: string, b: string, depth: int)
    requires Scan(a, depth).Some?
    ensures Scan(a + b, depth) == Scan(b, Scan(a, depth).value)
    decreases |a|
  {
    if a == [] {
      assert a + b == b;
    } else {
      assert (a + b)[1..] == a[1..] + b;
      var next := if Opening(a[0]) then depth + 1 else if Closing(a[0]) then depth - 1 else depth;
      ScanConcat(a[1..], b, next);
    }
  }

  lemma {:induction false} ScanFlat(s: string, depth: int)
    requires Flat(s)
    ensures Scan(s, depth) == Some(depth)
    decreases |s|
  {
    if s != [] { ScanFlat(s[1..], depth); }
  }

  lemma BlankIsFlat(s: string)
    requires Blank(s)
    ensures Flat(s)
  {
    assert forall c: char :: Space(c) ==> !Opening(c) && !Closing(c) && c != ',';
  }

  lemma FormHead(name: string, gap: string)
    requires Flat(name) && Blank(gap)
    ensures Flat(name + gap)
  {
    BlankIsFlat(gap);
  }

  lemma FormNamesFlat()
    ensures Flat("T.nilable") && Flat("T::Array") && Flat("T::Hash") && Flat("T.any")
  {}

  /** `head open inner close` returns to the depth it started from. */
  lemma ScanForm(head: string, open: char, inner: string, close: char, depth: nat)
    requires Flat(head) && Opening(open) && Closing(close) && Scan(inner, depth + 1) == Some(depth + 1)
    ensures Scan(head + [open] + inner + [close], depth) == Some(depth)
  {
    ScanFlat(head, depth);
    ScanConcat(head, [open], depth);
    assert Scan([open], depth) == Scan([], depth + 1) by { assert [open][1..] == []; }
    ScanConcat(head + [open], inner, depth);
    ScanConcat(head + [open] + inner, [close], depth);
    assert Scan([close], depth + 1) == Scan([], depth) by { assert [close][1..] == []; }
  }

  lemma ScanComma(depth: int)
    requires depth != 0
    ensures Scan(",", depth) == Some(depth)
  {
    assert ","[1..] == [];
  }

  /** A printed term keeps the depth and shows no comma at it. */
  lemma {:induction false} PrintScans(t: Term, depth: nat)
    requires WellFormed(t)
    ensures Scan(Print(t), depth) == Some(depth)
    decreases t, 1
  {
    BodyScans(t, depth);
    BlankIsFlat(t.lay.before);
    BlankIsFlat(t.lay.mid);
    BlankIsFlat(t.lay.after);
    var lead := if t.lay.cbase then "::" + t.lay.mid else "";
    ScanFlat(lead, depth);
    ScanConcat(lead, Body(t), depth);
    ScanFlat(t.lay.before, depth);
    ScanConcat(t.lay.before, Solid(t), depth);
    ScanConcat(t.lay.before + Solid(t), t.lay.after, depth);
    ScanFlat(t.lay.after, depth);
  }

  lemma {:induction false} BodyScans(t: Term, depth: nat)
    requires WellFormed(t)
    ensures Scan(Body(t), depth) == Some(depth)
    decreases t, 0
  {
    if t.Name? {
      ScanFlat(t.name, depth);
    } else {
      FormNamesFlat();
      match t
      case Nilable(_, gap, a) =>
        FormHead("T.nilable", gap);
        PrintScans(a, depth + 1);
        ScanForm("T.nilable" + gap, '(', Print(a), ')', depth);
      case ListOf(_, gap, a) =>
        FormHead("T::Array", gap);
        PrintScans(a, depth + 1);
        ScanForm("T::Array" + gap, '[', Print(a), ']', depth);
      case HashOf(_, gap, k, v) =>
        FormHead("T::Hash", gap);
        PrintScans(k, depth + 1);
        PrintScans(v, depth + 1);
        TwoScan(Print(k), Print(v), depth + 1);
        ScanForm("T::Hash" + gap, '[', Print(k) + "," + Print(v), ']', depth);
      case AnyOf(_, gap, args) =>
        FormHead("T.any", gap);
        AllScan(args, depth + 1);
        ScanForm("T.any" + gap, '(', PrintAll(args), ')', depth);
    }
  }

  lemma TwoScan(a: string, b: string, depth: int)
    requires depth != 0 && Scan(a, depth) == Some(depth) && Scan(b, depth) == Some(depth)
    ensures Scan(a + "," + b, depth) == Some(depth)
  {
    ScanComma(depth);
    ScanConcat(a, ",", depth);
    ScanConcat(a + ",", b, depth);
  }

  lemma {:induction false} AllScan(ts: seq<Term>, depth: nat)
    requires depth > 0 && forall i :: 0 <= i < |ts| ==> WellFormed(ts[i])
    ensures Scan(PrintAll(ts), depth) == Some(depth)
    decreases ts, 0
  {
    if ts != [] {
      PrintScans(ts[0], depth);
      if |ts| > 1 {
        AllScan(ts[1..], depth);
        TwoScan(Print(ts[0]), PrintAll(ts[1..]), depth);
      }
    }
  }

  // ----- splitting -----

  lemma {:induction false} SplitSkips(a: string, b: string, depth: int, cur: string)
    requires Scan(a, depth).Some?
    ensures SplitRest(a + b, depth, cur) == SplitRest(b, Scan(a, depth).value, cur + a)
    decreases |a|
  {
    if a == [] {
      assert a + b == b && cur + a == cur;
    } else {
      assert (a + b)[1..] == a[1..] + b;
      assert cur + [a[0]] + a[1..] == cur + a;
      var next := if Opening(a[0]) then depth + 1 else if Closing(a[0]) then depth - 1 else depth;
      SplitSkips(a[1..], b, next, cur + [a[0]]);
    }
  }

  lemma SplitOne(a: string)
    requires Scan(a, 0) == Some(0)
    ensures SplitRest(a, 0, []) == [Trim(a)]
  {
    SplitSkips(a, [], 0, []);
    assert a + [] == a && [] + a == a;
  }

  lemma SplitComma(a: string, b: string)
    requires Scan(a, 0) == Some(0)
    ensures SplitRest(a + "," + b, 0, []) == [Trim(a)] + SplitRest(b, 0, [])
  {
    assert a + "," + b == a + ("," + b);
    SplitSkips(a, "," + b, 0, []);
    assert [] + a == a && ("," + b)[1..] == b;
  }

  function SolidAll(ts: seq<Term>): (r: seq<string>)
    ensures |r| == |ts|
  {
    if ts == [] then [] else [Solid(ts[0])] + SolidAll(ts[1..])
  }

  /** A printed argument list splits into its arguments, trimmed. */
  lemma {:induction false} SplitPrinted(ts: seq<Term>)
    requires ts != [] && forall i :: 0 <= i < |ts| ==> WellFormed(ts[i])
    ensures SplitTopLevel(PrintAll(ts)) == SolidAll(ts)
    decreases |ts|
  {
    PrintScans(ts[0], 0);
    HeadIsBody(ts[0]);
    SolidTight(ts[0]);
    if |ts| == 1 {
      SplitOne(Print(ts[0]));
      assert NonEmpty([Solid(ts[0])]) == [Solid(ts[0])];
    } else {
      SplitPrinted(ts[1..]);
      SplitComma(Print(ts[0]), PrintAll(ts[1..]));
      var rest := SplitRest(PrintAll(ts[1..]), 0, []);
      assert ([Solid(ts[0])] + rest)[1..] == rest;
    }
  }

  // ----- the round trip -----

  lemma StripHit(name: string, gap: string, open: char, inner: string, close: char)
    requires Blank(gap) && Opening(open)
    ensures StripForm(name + gap + [open] + inner + [close], name, open, close) == Some(inner)
  {
    var rest := [open] + inner + [close];
    var s := name + gap + [open] + inner + [close];
    assert s == name + (gap + rest) && name <= s && s[|name|..] == gap + rest;
    assert !Space(open);
    TrimStartPad(gap, rest);
    assert rest[1..|rest| - 1] == inner;
  }

  lemma StripMiss(s: string, name: string, open: char, close: char, i: nat)
    requires i < |name| && (i >= |s| || s[i] != name[i])
    ensures StripForm(s, name, open, close) == None
  {}

  lemma NotScalar(s: string)
    requires s != [] && Closing(s[|s| - 1])
    ensures ScalarTy(s) == None
  {}

  /** A name has no bracket, so no compound form matches it. */
  lemma NameNotCompound(s: string, resolve: Resolver)
    requires NameText(s)
    ensures Compound(s, resolve) == None
  {
    NoForm(s, "T.nilable", '(', ')');
    NoForm(s, "T::Array", '[', ']');
    NoForm(s, "T::Hash", '[', ']');
    NoForm(s, "T.any", '(', ')');
  }

  lemma NoForm(s: string, name: string, open: char, close: char)
    requires Flat(s) && Opening(open)
    ensures StripForm(s, name, open, close) == None
  {
    if name <= s {
      var after := s[|name|..];
      TrimStartSuffix(after);
      assert forall i :: 0 <= i < |after| ==> after[i] == s[|name| + i];
    }
  }

  lemma {:induction false} TrimStartSuffix(s: string)
    ensures exists k :: 0 <= k <= |s| && TrimStart(s) == s[k..]
  {
    if s != [] && Space(s[0]) {
      TrimStartSuffix(s[1..]);
      var k :| 0 <= k <= |s[1..]| && TrimStart(s[1..]) == s[1..][k..];
      assert s[1..][k..] == s[k + 1..];
    } else {
      assert s[0..] == s;
    }
  }

  ghost function Reading(s: string, resolve: Resolver): Ty {
    if ScalarTy(s).Some? then ScalarTy(s).value
    else if Compound(s, resolve).Some? then Compound(s, resolve).value
    else if resolve(s).Some? then resolve(s).value else Unknown
  }

  lemma ParseIsReading(expr: string, head: string, resolve: Resolver)
    requires Trim(DropCbase(Trim(expr))) == head
    ensures Parse(expr, resolve) == Reading(head, resolve)
  {}

  /** Writing a term and scanning the text gives the term's meaning, at any depth, with or
      without `::`, with any spacing, for any resolver. */
  lemma {:induction false} RoundTrip(t: Term, resolve: Resolver)
    requires WellFormed(t)
    ensures Parse(Print(t), resolve) == Denote(t, resolve)
    decreases t, 1
  {
    HeadIsBody(t);
    ParseIsReading(Print(t), Body(t), resolve);
    BodyReads(t, resolve);
  }

  /** The same for the trimmed text, as the splitter hands it on. */
  lemma {:induction false} SolidRoundTrip(t: Term, resolve: Resolver)
    requires WellFormed(t)
    ensures Parse(Solid(t), resolve) == Denote(t, resolve)
    decreases t, 1
  {
    HeadIsBody(t);
    ParseIsReading(Solid(t), Body(t), resolve);
    BodyReads(t, resolve);
  }

  lemma {:induction false} BodyReads(t: Term, resolve: Resolver)
    requires WellFormed(t)
    ensures Reading(Body(t), resolve) == Denote(t, resolve)
    decreases t, 0
  {
    var s := Body(t);
    BodyTight(t);
    match t
    case Name(_, n) => NameNotCompound(n, resolve);
    case Nilable(_, gap, a) =>
      NotScalar(s);
      StripHit("T.nilable", gap, '(', Print(a), ')');
      RoundTrip(a, resolve);
    case ListOf(_, gap, a) =>
      NotScalar(s);
      StripMiss(s, "T.nilable", '(', ')', 1);
      StripHit("T::Array", gap, '[', Print(a), ']');
      RoundTrip(a, resolve);
    case HashOf(_, gap, k, v) =>
      NotScalar(s);
      HashReads(t, resolve);
    case AnyOf(_, gap, args) =>
      NotScalar(s);
      AnyReads(t, resolve);
  }

  lemma {:induction false} HashReads(t: Term, resolve: Resolver)
    requires t.HashOf? && WellFormed(t)
    ensures Compound(Body(t), resolve) == Some(Denote(t, resolve))
    decreases t, 0, 0
  {
    var s := Body(t);
    StripMiss(s, "T.nilable", '(', ')', 1);
    StripMiss(s, "T::Array", '[', ']', 3);
    StripHit("T::Hash", t.gap, '[', Print(t.key) + "," + Print(t.val), ']');
    SolidRoundTrip(t.key, resolve);
    SolidRoundTrip(t.val, resolve);
    TwoPartsRead(t.key, t.val, resolve);
  }

  lemma ParseTwo(a: string, b: string, bound: nat, resolve: Resolver)
    requires |a| <= bound && |b| <= bound
    ensures ParseAll([a, b], bound, resolve) == [Parse(a, resolve), Parse(b, resolve)]
  {
    assert [a, b][1..] == [b];
    assert ParseAll([b], bound, resolve) == [Parse(b, resolve)];
  }

  lemma SplitTwo(k: Term, v: Term)
    requires WellFormed(k) && WellFormed(v)
    ensures SplitTopLevel(Print(k) + "," + Print(v)) == [Solid(k), Solid(v)]
  {
    assert [k, v][1..] == [v] && PrintAll([k, v]) == Print(k) + "," + Print(v);
    assert SolidAll([k, v]) == [Solid(k), Solid(v)];
    SplitPrinted([k, v]);
  }

  lemma TwoPartsRead(k: Term, v: Term, resolve: Resolver)
    requires WellFormed(k) && WellFormed(v)
    ensures ParseParts(Print(k) + "," + Print(v), resolve) == [Parse(Solid(k), resolve), Parse(Solid(v), resolve)]
  {
    var inner := Print(k) + "," + Print(v);
    SplitTwo(k, v);
    SplitFits(inner, 0, [], |inner|);
    NonEmptyIn(SplitRest(inner, 0, []));
    assert Solid(k) in SplitTopLevel(inner) && Solid(v) in SplitTopLevel(inner);
    ParseTwo(Solid(k), Solid(v), |inner|, resolve);
  }

  lemma {:induction false} AnyReads(t: Term, resolve: Resolver)
    requires t.AnyOf? && WellFormed(t)
    ensures Compound(Body(t), resolve) == Some(Denote(t, resolve))
    decreases t, 0, 0
  {
    var s := Body(t);
    StripMiss(s, "T.nilable", '(', ')', 2);
    StripMiss(s, "T::Array", '[', ']', 1);
    StripMiss(s, "T::Hash", '[', ']', 1);
    StripHit("T.any", t.gap, '(', PrintAll(t.args), ')');
    PartsRead(t.args, resolve);
  }

  lemma {:induction false} PartsRead(ts: seq<Term>, resolve: Resolver)
    requires ts != [] && forall i :: 0 <= i < |ts| ==> WellFormed(ts[i])
    ensures ParseParts(PrintAll(ts), resolve) == DenoteAll(ts, resolve)
    decreases ts, 1
  {
    var inner := PrintAll(ts);
    SplitPrinted(ts);
    SplitFits(inner, 0, [], |inner|);
    NonEmptyIn(SplitRest(inner, 0, []));
    AllRead(ts, |inner|, resolve);
  }

  lemma {:induction false} AllRead(ts: seq<Term>, bound: nat, resolve: Resolver)
    requires forall i :: 0 <= i < |ts| ==> WellFormed(ts[i])
    requires forall p :: p in SolidAll(ts) ==> |p| <= bound
    ensures ParseAll(SolidAll(ts), bound, resolve) == DenoteAll(ts, resolve)
    decreases ts, 0
  {
    if ts != [] {
      SolidRoundTrip(ts[0], resolve);
      assert SolidAll(ts)[1..] == SolidAll(ts[1..]);
      AllRead(ts[1..], bound, resolve);
    }
  }

  // ----- what was read, in values -----

  /** What a type term says of a value. */
  ghost predicate Means(w: World, v: Value, t: Term, resolve: Resolver)
    decreases t
  {
    match t
    case Name(_, n) =>
      if n == "Integer" then v.VInt?
      else if n == "Float" then v.VFloat?
      else if n == "String" then v.VStr?
      else if n == "Symbol" then v.VSym?
      else if n == "T::Boolean" || n == "TrueClass" || n == "FalseClass" then v.VBool?
      else if n == "NilClass" then v.VNil?
      else resolve(n).Some? ==> Has(w, v, resolve(n).value)
    case Nilable(_, _, a) => v.VNil? || Means(w, v, a, resolve)
    case ListOf(_, _, a) => v.VArray? && forall i :: 0 <= i < |v.elems| ==> Means(w, v.elems[i], a, resolve)
    case HashOf(_, _, k, x) =>
      v.VHash? && forall e :: e in v.entries ==> Means(w, e, k, resolve) && Means(w, v.entries[e], x, resolve)
    case AnyOf(_, _, args) => exists i :: 0 <= i < |args| && Means(w, v, args[i], resolve)
  }

  lemma {:induction false} DenoteMeans(w: World, v: Value, t: Term, resolve: Resolver)
    requires WellFormed(t)
    ensures Has(w, v, Denote(t, resolve)) <==> Means(w, v, t, resolve)
    decreases t, 1
  {
    match t
    case Name(_, _) =>
    case Nilable(_, _, a) =>
      JoinMeaning(w, v, Denote(a, resolve), Nil);
      DenoteMeans(w, v, a, resolve);
    case ListOf(_, _, _) => ElementsMean(w, v, t, resolve);
    case HashOf(_, _, _, _) => EntriesMean(w, v, t, resolve);
    case AnyOf(_, _, args) => AnyMeans(w, v, args, resolve);
  }

  lemma {:induction false} ElementsMean(w: World, v: Value, t: Term, resolve: Resolver)
    requires t.ListOf? && WellFormed(t)
    ensures Has(w, v, Denote(t, resolve)) <==> Means(w, v, t, resolve)
    decreases t, 0
  {
    if v.VArray? {
      forall i | 0 <= i < |v.elems|
        ensures Has(w, v.elems[i], Denote(t.arg, resolve)) <==> Means(w, v.elems[i], t.arg, resolve)
      {
        DenoteMeans(w, v.elems[i], t.arg, resolve);
      }
    }
  }

  lemma {:induction false} EntriesMean(w: World, v: Value, t: Term, resolve: Resolver)
    requires t.HashOf? && WellFormed(t)
    ensures Has(w, v, Denote(t, resolve)) <==> Means(w, v, t, resolve)
    decreases t, 0
  {
    if v.VHash? {
      forall e | e in v.entries
        ensures Has(w, e, Denote(t.key, resolve)) <==> Means(w, e, t.key, resolve)
        ensures Has(w, v.entries[e], Denote(t.val, resolve)) <==> Means(w, v.entries[e], t.val, resolve)
      {
        DenoteMeans(w, e, t.key, resolve);
        DenoteMeans(w, v.entries[e], t.val, resolve);
      }
    }
  }

  lemma {:induction false} AnyMeans(w: World, v: Value, args: seq<Term>, resolve: Resolver)
    requires args != [] && forall i :: 0 <= i < |args| ==> WellFormed(args[i])
    ensures var tys := DenoteAll(args, resolve);
            Has(w, v, JoinAll(tys[0], tys[1..])) <==> exists i :: 0 <= i < |args| && Means(w, v, args[i], resolve)
    decreases args, 0
  {
    var tys := DenoteAll(args, resolve);
    JoinAllMeaning(w, v, tys[0], tys[1..]);
    forall i | 0 <= i < |args| ensures Has(w, v, tys[i]) <==> Means(w, v, args[i], resolve) {
      DenoteAllAt(args, resolve, i);
      DenoteMeans(w, v, args[i], resolve);
    }
    if i :| 0 <= i < |args| && Means(w, v, args[i], resolve) {
      if i > 0 { assert tys[1..][i - 1] == tys[i]; }
    }
    if i :| 0 <= i < |tys| - 1 && Has(w, v, tys[1..][i]) { assert tys[i + 1] == tys[1..][i]; }
  }

  lemma {:induction false} DenoteAllAt(ts: seq<Term>, resolve: Resolver, i: nat)
    requires i < |ts|
    ensures DenoteAll(ts, resolve)[i] == Denote(ts[i], resolve)
    decreases |ts|
  {
    if i > 0 { DenoteAllAt(ts[1..], resolve, i - 1); }
  }

  /** Scanning the text of a term gives a type with exactly the values the term speaks of. */
  lemma ReadsMeaning(w: World, v: Value, t: Term, resolve: Resolver)
    requires WellFormed(t)
    ensures Has(w, v, Parse(Print(t), resolve)) <==> Means(w, v, t, resolve)
  {
    RoundTrip(t, resolve);
    DenoteMeans(w, v, t, resolve);
  }

  /** The text of a `T::Hash` of any number of parts. */
  function HashText(ts: seq<Term>): string { "T::Hash" + "" + ['['] + PrintAll(ts) + [']'] }

  lemma HashTextForm(ts: seq<Term>, s: string)
    requires s == HashText(ts)
    ensures StripForm(s, "T.nilable", '(', ')') == None && StripForm(s, "T::Array", '[', ']') == None
    ensures StripForm(s, "T::Hash", '[', ']') == Some(PrintAll(ts)) && ScalarTy(s) == None
  {
    NotScalar(s);
    StripMiss(s, "T.nilable", '(', ')', 1);
    StripMiss(s, "T::Array", '[', ']', 3);
    StripHit("T::Hash", "", '[', PrintAll(ts), ']');
  }

  lemma HashFormReads(s: string, inner: string, resolve: Resolver)
    requires StripForm(s, "T.nilable", '(', ')') == None && StripForm(s, "T::Array", '[', ']') == None
    requires StripForm(s, "T::Hash", '[', ']') == Some(inner) && ScalarTy(s) == None
    ensures Reading(s, resolve) == HashTy(ParseParts(inner, resolve))
  {}

  lemma HashTextHead(ts: seq<Term>, s: string)
    requires s == HashText(ts)
    ensures Trim(DropCbase(Trim(s))) == s
  {
    assert s[0] == 'T' && s[|s| - 1] == ']';
    assert "" + s + "" == s;
    TrimPad("", s, "");
    assert !("::" <= s);
  }

  /** `T::Hash` with one part, or more than two, is read as anything at all. */
  lemma HashNeedsTwo(ts: seq<Term>, s: string, resolve: Resolver)
    requires ts != [] && |ts| != 2 && (forall i :: 0 <= i < |ts| ==> WellFormed(ts[i])) && s == HashText(ts)
    ensures Parse(s, resolve) == Unknown
  {
    HashTextHead(ts, s);
    ParseIsReading(s, s, resolve);
    HashTextForm(ts, s);
    HashFormReads(s, PrintAll(ts), resolve);
    PartsRead(ts, resolve);
  }
}
