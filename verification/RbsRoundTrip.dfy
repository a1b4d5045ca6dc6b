/** Rendering a forest of RBS declarations and parsing it back. */
module RbsRoundTrip {
  import opened Types
  import opened RbsPack

  // ----- declarations and how they are written -----

  /** The free choices of one written line: what precedes it, the blanks after its keyword or name, what trails it. */
  datatype Layout = Layout(indent: string, gap: string, tail: string, comment: string)

  datatype Decl =
    | Scope(keyword: Keyword, name: seq<string>, open: Layout, body: seq<Decl>, close: Layout)
    | Alias(isModule: bool, name: seq<string>, layout: Layout, pad: string)
    | Value(name: seq<string>, layout: Layout)
    | Other(line: string)

  function Join(path: seq<string>): string {
    if path == [] then [] else if |path| == 1 then path[0] else path[0] + "::" + Join(path[1..])
  }

  function Written(l: Layout, core: string): string { l.indent + (core + l.tail) + l.comment }

  function Render(forest: seq<Decl>): seq<string> {
    if forest == [] then [] else RenderDecl(forest[0]) + Render(forest[1..])
  }

  function RenderDecl(d: Decl): seq<string> {
    match d
    case Scope(k, name, open, body, close) =>
      [Written(open, KeywordText(k) + open.gap + Join(name))] + Render(body) + [Written(close, "end")]
    case Alias(isModule, name, l, pad) =>
      [Written(l, KeywordText(if isModule then KwModule else KwClass) + l.gap + Join(name) + pad + "=")]
    case Value(name, l) => [Written(l, Join(name) + l.gap + ":")]
    case Other(line) => [line]
  }

  // ----- which forests are declarations -----

  ghost predicate AllBlank(s: string) { forall c :: c in s ==> Blank(c) }

  ghost predicate AllSpace(s: string) { forall c :: c in s ==> Space(c) }

  ghost predicate AllWord(s: string) { forall c :: c in s ==> Word(c) }

  ghost predicate LayoutOk(l: Layout) {
    && AllBlank(l.indent) && AllSpace(l.gap) && '#' !in l.tail
    && (l.comment == [] || l.comment[0] == '#')
  }

  ghost predicate Segment(s: string) { s != [] && NameStart(s[0]) && AllWord(s) }

  ghost predicate PathOk(path: seq<string>) { path != [] && forall i :: 0 <= i < |path| ==> Segment(path[i]) }

  ghost predicate ConstPath(path: seq<string>) {
    PathOk(path) && forall i :: 0 <= i < |path| ==> Upper(path[i][0])
  }

  /** A line of any other kind (`def`, `type`, `include`, a comment, ...): told by its first word alone. */
  ghost predicate OtherLine(line: string) {
    var s := Clean(line);
    s == [] || (!Upper(s[0]) && s[..WordRun(s)] !in {"class", "module", "interface", "end"})
  }

  ghost predicate WellFormed(forest: seq<Decl>) {
    forest == [] || (DeclOk(forest[0]) && WellFormed(forest[1..]))
  }

  ghost predicate DeclOk(d: Decl) {
    match d
    case Scope(_, name, open, body, close) =>
      && PathOk(name) && LayoutOk(open) && open.gap != [] && WellFormed(body)
      && (open.tail == [] || !PathChar(open.tail[0])) && !EqualsNext(open.tail)
      && LayoutOk(close) && AllBlank(close.tail)
    case Alias(_, name, l, pad) => PathOk(name) && LayoutOk(l) && l.gap != [] && AllSpace(pad)
    case Value(name, l) => ConstPath(name) && LayoutOk(l) && (l.tail == [] || l.tail[0] != ':')
    case Other(line) => OtherLine(line)
  }

  // ----- the paths a forest declares -----

  /** A compact name is a path of its own; a bare one hangs under the innermost class or module. */
  function Place(scope: seq<string>, name: seq<string>): seq<string> {
    if |name| > 1 then name else scope + name
  }

  /** Every declared constant with whether it is a module, in document order. */
  function Declared(forest: seq<Decl>, scope: seq<string>): seq<(string, bool)> {
    if forest == [] then [] else DeclaredBy(forest[0], scope) + Declared(forest[1..], scope)
  }

  function DeclaredBy(d: Decl, scope: seq<string>): seq<(string, bool)> {
    match d
    case Scope(k, name, _, body, _) =>
      if k.KwInterface? then Declared(body, scope)
      else [(Join(Place(scope, name)), k.KwModule?)] + Declared(body, Place(scope, name))
    case Value(name, _) => if scope == [] && |name| == 1 then [] else [(Join(Place(scope, name)), false)]
    case _ => []
  }

  function AddAll(st: State, found: seq<(string, bool)>): State
    decreases |found|
  {
    if found == [] then st else AddAll(Record(st, found[0].0, found[0].1), found[1..])
  }

  lemma {:induction false} AddAllConcat(st: State, a: seq<(string, bool)>, b: seq<(string, bool)>)
    ensures AddAll(st, a + b) == AddAll(AddAll(st, a), b)
    decreases |a|
  {
    if a == [] {
      assert a + b == b;
    } else {
      assert (a + b)[1..] == a[1..] + b;
      AddAllConcat(Record(st, a[0].0, a[0].1), a[1..], b);
    }
  }

  lemma {:induction false} AddAllKeepsStack(st: State, found: seq<(string, bool)>, stack: seq<Option<string>>)
    ensures AddAll(st.(stack := stack), found) == AddAll(st, found).(stack := stack)
    ensures AddAll(st, found).stack == st.stack
    decreases |found|
  {
    if found != [] {
      AddAllKeepsStack(Record(st, found[0].0, found[0].1), found[1..], stack);
    }
  }

  // ----- first occurrence wins -----

  function FirstAt(found: seq<(string, bool)>, path: string): (i: nat)
    ensures i <= |found|
    ensures forall j :: 0 <= j < i ==> found[j].0 != path
    ensures i < |found| ==> found[i].0 == path
  {
    if found == [] || found[0].0 == path then 0 else 1 + FirstAt(found[1..], path)
  }

  lemma {:induction false} AddAllListed(st: State, found: seq<(string, bool)>)
    requires Listed(st.entries, st.order)
    ensures Listed(AddAll(st, found).entries, AddAll(st, found).order)
    ensures st.order <= AddAll(st, found).order
    decreases |found|
  {
    if found != [] {
      AddAllListed(Record(st, found[0].0, found[0].1), found[1..]);
    }
  }

  /** The old entries stay; each new path carries the kind of its first occurrence. */
  lemma {:induction false} FirstKindWins(st: State, found: seq<(string, bool)>, path: string)
    ensures path in AddAll(st, found).entries <==> path in st.entries || FirstAt(found, path) < |found|
    ensures path in st.entries ==> AddAll(st, found).entries[path] == st.entries[path]
    ensures path !in st.entries && FirstAt(found, path) < |found| ==>
              AddAll(st, found).entries[path] == found[FirstAt(found, path)].1
    decreases |found|
  {
    if found != [] {
      FirstKindWins(Record(st, found[0].0, found[0].1), found[1..], path);
    }
  }

  /** New paths are listed by first occurrence. */
  lemma {:induction false} OrderOfFirsts(st: State, found: seq<(string, bool)>, i: nat, j: nat)
    requires Listed(st.entries, st.order) && |st.order| <= i < j < |AddAll(st, found).order|
    ensures FirstAt(found, AddAll(st, found).order[i]) < FirstAt(found, AddAll(st, found).order[j]) < |found|
    decreases |found|
  {
    var next, rest, end := Record(st, found[0].0, found[0].1), found[1..], AddAll(st, found);
    AddAllListed(st, found);
    AddAllListed(next, rest);
    FirstKindWins(st, found, end.order[j]);
    assert end.order[j] !in st.order by { AbsentBefore(st, found, j); }
    if i >= |next.order| {
      OrderOfFirsts(next, rest, i, j);
      AbsentBefore(next, rest, i);
      AbsentBefore(next, rest, j);
      assert found[0].0 in next.order;
    } else {
      assert end.order[i] == next.order[i] == found[0].0;
    }
  }

  lemma AbsentBefore(st: State, found: seq<(string, bool)>, j: nat)
    requires Listed(st.entries, st.order) && |st.order| <= j < |AddAll(st, found).order|
    ensures AddAll(st, found).order[j] !in st.order
  {
    AddAllListed(st, found);
    var end := AddAll(st, found);
    forall k | 0 <= k < |st.order| ensures st.order[k] != end.order[j] {
      assert end.order[k] == st.order[k];
    }
  }

  // ----- reading one written line -----

  lemma {:induction false} CutStops(s: string, comment: string)
    requires '#' !in s && (comment == [] || comment[0] == '#')
    ensures Cut(s + comment) == s
  {
    if s != [] {
      assert (s + comment)[1..] == s[1..] + comment;
      CutStops(s[1..], comment);
    } else {
      assert s + comment == comment;
    }
  }

  lemma {:induction false} StripIndent(indent: string, s: string)
    requires AllBlank(indent) && s != [] && !Blank(s[0])
    ensures StripLeft(indent + s) == s
  {
    if indent != [] {
      assert (indent + s)[1..] == indent[1..] + s;
      assert Blank(indent[0]);
      StripIndent(indent[1..], s);
    } else {
      assert indent + s == s;
    }
  }

  lemma {:induction false} StripTail(core: string, tail: string)
    requires core != [] && !Blank(core[|core| - 1])
    ensures StripRight(core + tail) == core + StripRight(tail)
    ensures StripRight(tail) <= tail
    ensures AllBlank(tail) ==> StripRight(tail) == []
    decreases |tail|
  {
    if tail == [] {
      assert core + tail == core;
    } else if Blank(tail[|tail| - 1]) {
      assert (core + tail)[..|core + tail| - 1] == core + tail[..|tail| - 1];
      StripTail(core, tail[..|tail| - 1]);
    } else {
      assert (core + tail)[|core + tail| - 1] == tail[|tail| - 1];
    }
  }

  lemma CleanWritten(l: Layout, core: string)
    requires LayoutOk(l) && '#' !in core
    requires core != [] && !Blank(core[0]) && !Blank(core[|core| - 1])
    ensures Clean(Written(l, core)) == core + StripRight(l.tail)
    ensures StripRight(l.tail) <= l.tail
    ensures AllBlank(l.tail) ==> StripRight(l.tail) == []
  {
    var s := core + l.tail;
    assert '#' !in l.indent by { assert !Blank('#'); }
    CutStops(l.indent + s, l.comment);
    StripIndent(l.indent, s);
    StripTail(core, l.tail);
  }

  // ----- names -----

  lemma {:induction false} JoinText(path: seq<string>)
    requires PathOk(path)
    ensures var t := Join(path);
            && t != [] && NameStart(t[0]) && Word(t[|t| - 1]) && t[0] == path[0][0]
            && forall c :: c in t ==> PathChar(c)
    decreases |path|
  {
    if |path| > 1 {
      assert forall i :: 0 <= i < |path| - 1 ==> path[1..][i] == path[i + 1];
      JoinText(path[1..]);
      assert Segment(path[0]);
    } else {
      assert Segment(path[0]);
    }
  }

  lemma QualifiedJoin(path: seq<string>)
    requires PathOk(path)
    ensures Qualified(Join(path)) <==> |path| > 1
  {
    assert Segment(path[0]);
    var t := Join(path);
    if |path| > 1 {
      var n := |path[0]|;
      assert t[n] == ':' && t[n + 1] == ':';
    } else {
      assert ':' !in t;
    }
  }

  lemma {:induction false} JoinAppend(scope: seq<string>, name: seq<string>)
    requires scope != [] && name != []
    ensures Join(scope + name) == Join(scope) + "::" + Join(name)
    decreases |scope|
  {
    if |scope| == 1 {
      assert (scope + name)[1..] == name;
    } else {
      assert (scope + name)[1..] == scope[1..] + name;
      JoinAppend(scope[1..], name);
      assert Join(scope + name) == scope[0] + "::" + (Join(scope[1..]) + "::" + Join(name));
    }
  }

  /** What `stack.compact.last` is when the innermost class or module is `scope`. */
  function Frame(scope: seq<string>): Option<string> { if scope == [] then None else Some(Join(scope)) }

  lemma NestIsPlace(scope: seq<string>, name: seq<string>)
    requires PathOk(name)
    ensures Nest(Frame(scope), Join(name)) == Join(Place(scope, name))
  {
    QualifiedJoin(name);
    if |name| == 1 {
      if scope == [] { assert scope + name == name; } else { JoinAppend(scope, name); }
    }
  }

  // ----- the patterns -----

  lemma {:induction false} SpacesStop(gap: string, rest: string)
    requires AllSpace(gap) && (rest == [] || !Space(rest[0]))
    ensures Spaces(gap + rest) == |gap|
  {
    if gap == [] {
      assert gap + rest == rest;
    } else {
      assert gap[0] in gap;
      assert (gap + rest)[1..] == gap[1..] + rest;
      SpacesStop(gap[1..], rest);
    }
  }

  lemma {:induction false} PathStops(path: string, rest: string)
    requires (forall c :: c in path ==> PathChar(c)) && (rest == [] || !PathChar(rest[0]))
    ensures PathRun(path + rest) == |path|
  {
    if path == [] {
      assert path + rest == rest;
    } else {
      assert path[0] in path;
      assert (path + rest)[1..] == path[1..] + rest;
      PathStops(path[1..], rest);
    }
  }

  lemma {:induction false} WordStops(word: string, rest: string)
    requires AllWord(word) && (rest == [] || !Word(rest[0]))
    ensures WordRun(word + rest) == |word|
  {
    if word == [] {
      assert word + rest == rest;
    } else {
      assert word[0] in word;
      assert (word + rest)[1..] == word[1..] + rest;
      WordStops(word[1..], rest);
    }
  }

  lemma HeaderReads(keyword: string, gap: string, name: string, rest: string)
    requires gap != [] && AllSpace(gap)
    requires name != [] && NameStart(name[0]) && forall c :: c in name ==> PathChar(c)
    requires rest == [] || !PathChar(rest[0])
    ensures Header(keyword + gap + name + rest, keyword) == Some((name, rest))
  {
    var s := keyword + gap + name + rest;
    assert s[|keyword|..] == gap + (name + rest);
    SpacesStop(gap, name + rest);
    var after := gap + (name + rest);
    assert after[|gap| + 1..] == name[1..] + rest;
    PathStops(name[1..], rest);
    assert after[|gap|..|gap| + |name|] == name && after[|gap| + |name|..] == rest;
  }

  lemma OpenReads(k: Keyword, gap: string, name: string, rest: string)
    requires gap != [] && AllSpace(gap)
    requires name != [] && NameStart(name[0]) && forall c :: c in name ==> PathChar(c)
    requires rest == [] || !PathChar(rest[0])
    ensures var s := KeywordText(k) + gap + name + rest;
            && OpenMatch(s) == Some((k, name))
            && (AliasMatch(s) <==> !k.KwInterface? && EqualsNext(rest))
  {
    var s := KeywordText(k) + gap + name + rest;
    HeaderReads(KeywordText(k), gap, name, rest);
    assert s[0] == KeywordText(k)[0];
    assert forall w: string :: w != [] && w <= s ==> w[0] == s[0];
  }

  lemma {:induction false} SpacesOfPrefix(p: string, s: string)
    requires p <= s && Spaces(p) < |p|
    ensures Spaces(s) == Spaces(p)
  {
    if Space(p[0]) {
      SpacesOfPrefix(p[1..], s[1..]);
    }
  }

  lemma EqualsOfPrefix(p: string, s: string)
    requires p <= s && EqualsNext(p)
    ensures EqualsNext(s)
  {
    SpacesOfPrefix(p, s);
  }

  lemma ConstSegment(segment: string, after: string)
    requires Segment(segment) && Upper(segment[0]) && (after == [] || !Word(after[0]))
    ensures var joined := |after| >= 2 && after[0] == ':' && after[1] == ':' && ConstRun(after[2..]) > 0;
            ConstRun(segment + after) == |segment| + if joined then 2 + ConstRun(after[2..]) else 0
  {
    var s := segment + after;
    assert s[1..] == segment[1..] + after;
    WordStops(segment[1..], after);
    if |after| >= 2 {
      assert s[|segment| + 2..] == after[2..];
    }
  }

  lemma {:induction false} ConstReads(path: seq<string>, rest: string)
    requires ConstPath(path)
    requires rest == [] || !Word(rest[0])
    requires |rest| >= 2 && rest[0] == ':' ==> rest[1] != ':'
    ensures ConstRun(Join(path) + rest) == |Join(path)| > 0
    decreases |path|
  {
    assert Segment(path[0]) && Upper(path[0][0]);
    if |path| == 1 {
      ConstSegment(path[0], rest);
    } else {
      var more := Join(path[1..]) + rest;
      var after := "::" + more;
      ConstTail(path);
      ConstReads(path[1..], rest);
      ConstSegment(path[0], after);
      assert after[2..] == more;
      JoinTail(path, rest);
    }
  }

  lemma JoinTail(path: seq<string>, rest: string)
    requires |path| > 1
    ensures Join(path) + rest == path[0] + ("::" + (Join(path[1..]) + rest))
    ensures |Join(path)| == |path[0]| + 2 + |Join(path[1..])|
  {}

  lemma ConstTail(path: seq<string>)
    requires ConstPath(path) && |path| > 1
    ensures ConstPath(path[1..])
  {
    assert forall i :: 0 <= i < |path| - 1 ==> path[1..][i] == path[i + 1];
  }

  lemma CapitalisedIsNoHeader(s: string)
    requires s != [] && Upper(s[0])
    ensures OpenMatch(s).None? && !AliasMatch(s)
  {
    assert forall w: string :: w != [] && w <= s ==> w[0] == s[0];
  }

  lemma {:induction false} ValueReads(path: seq<string>, gap: string, rest: string)
    requires ConstPath(path) && AllSpace(gap) && (rest == [] || rest[0] != ':')
    ensures ConstMatch(Join(path) + (gap + (":" + rest))) == Some(Join(path))
  {
    var name, colon := Join(path), ":" + rest;
    var after := gap + colon;
    var s := name + after;
    assert gap != [] ==> after[0] in gap;
    ConstReads(path, after);
    assert s[|name|..] == after && s[..|name|] == name;
    SpacesStop(gap, colon);
    var k := |name| + |gap|;
    assert s[k] == ':' && (k + 1 == |s| || s[k + 1] == rest[0]);
  }

  /** A header is recognised only on lines whose first word is its keyword. */
  lemma FirstWord(s: string, keyword: string)
    requires keyword <= s && AllWord(keyword) && Spaces(s[|keyword|..]) > 0
    ensures s[..WordRun(s)] == keyword
  {
    assert s == keyword + s[|keyword|..];
    WordStops(keyword, s[|keyword|..]);
  }

  lemma HeaderNeedsKeyword(s: string, keyword: string)
    requires AllWord(keyword) && Header(s, keyword).Some?
    ensures s[..WordRun(s)] == keyword
  {
    FirstWord(s, keyword);
  }

  lemma EndNeedsKeyword(s: string)
    requires EndMatch(s)
    ensures s[..WordRun(s)] == "end"
  {
    if |s| > 3 {
      FirstWord(s, "end");
    } else {
      assert s == "end" + [];
      WordStops("end", []);
    }
  }

  lemma OtherIsSkipped(st: State, line: string)
    requires OtherLine(line)
    ensures Step(st, line) == st
  {
    var s := Clean(line);
    if s != [] {
      if Header(s, "class").Some? { HeaderNeedsKeyword(s, "class"); }
      if Header(s, "module").Some? { HeaderNeedsKeyword(s, "module"); }
      if Header(s, "interface").Some? { HeaderNeedsKeyword(s, "interface"); }
      if EndMatch(s) { EndNeedsKeyword(s); }
    }
  }

  // ----- one line of each kind -----

  lemma OpenStep(st: State, k: Keyword, name: seq<string>, l: Layout, scope: seq<string>)
    requires PathOk(name) && LayoutOk(l) && l.gap != []
    requires (l.tail == [] || !PathChar(l.tail[0])) && !EqualsNext(l.tail)
    requires Parent(st.stack) == Frame(scope)
    ensures var path := Join(Place(scope, name));
            Step(st, Written(l, KeywordText(k) + l.gap + Join(name))) ==
            if k.KwInterface? then st.(stack := st.stack + [None])
            else Record(st.(stack := st.stack + [Some(path)]), path, k.KwModule?)
  {
    var core := KeywordText(k) + l.gap + Join(name);
    JoinText(name);
    CleanCore(k, l.gap, Join(name));
    CleanWritten(l, core);
    var rest := StripRight(l.tail);
    if EqualsNext(rest) { EqualsOfPrefix(rest, l.tail); }
    OpenReads(k, l.gap, Join(name), rest);
    NestIsPlace(scope, name);
  }

  lemma CleanCore(k: Keyword, gap: string, name: string)
    requires AllSpace(gap) && name != [] && forall c :: c in name ==> PathChar(c)
    ensures var core := KeywordText(k) + gap + name;
            core != [] && '#' !in core && !Blank(core[0]) && !Blank(core[|core| - 1])
  {
    assert name[|name| - 1] in name;
  }

  lemma EndStep(st: State, l: Layout)
    requires LayoutOk(l) && AllBlank(l.tail) && st.stack != []
    ensures Step(st, Written(l, "end")) == st.(stack := st.stack[..|st.stack| - 1])
  {
    CleanWritten(l, "end");
  }

  lemma AliasReads(k: Keyword, gap: string, name: string, pad: string, rest: string)
    requires !k.KwInterface? && gap != [] && AllSpace(gap) && AllSpace(pad)
    requires name != [] && NameStart(name[0]) && forall c :: c in name ==> PathChar(c)
    ensures AliasMatch(KeywordText(k) + gap + name + (pad + ("=" + rest)))
  {
    var after := pad + ("=" + rest);
    assert pad != [] ==> after[0] in pad;
    SpacesStop(pad, "=" + rest);
    OpenReads(k, gap, name, after);
  }

  lemma AliasStep(st: State, k: Keyword, name: seq<string>, l: Layout, pad: string)
    requires !k.KwInterface? && PathOk(name) && LayoutOk(l) && l.gap != [] && AllSpace(pad)
    ensures Step(st, Written(l, KeywordText(k) + l.gap + Join(name) + pad + "=")) == st
  {
    var header, rest := KeywordText(k) + l.gap + Join(name), StripRight(l.tail);
    JoinText(name);
    CleanCore(k, l.gap, Join(name));
    CleanWritten(l, header + pad + "=");
    assert header + pad + "=" + rest == header + (pad + ("=" + rest));
    AliasReads(k, l.gap, Join(name), pad, rest);
  }

  lemma CleanValue(name: seq<string>, l: Layout)
    requires ConstPath(name) && LayoutOk(l)
    ensures StripRight(l.tail) <= l.tail
    ensures Clean(Written(l, Join(name) + l.gap + ":")) == Join(name) + (l.gap + (":" + StripRight(l.tail)))
  {
    var core, rest := Join(name) + l.gap + ":", StripRight(l.tail);
    JoinText(name);
    assert core[0] == Join(name)[0] && Upper(name[0][0]);
    CleanWritten(l, core);
    assert core + rest == Join(name) + (l.gap + (":" + rest));
  }

  lemma ValueStep(st: State, name: seq<string>, l: Layout, scope: seq<string>)
    requires ConstPath(name) && LayoutOk(l) && (l.tail == [] || l.tail[0] != ':')
    requires Parent(st.stack) == Frame(scope)
    ensures Step(st, Written(l, Join(name) + l.gap + ":")) == AddAll(st, DeclaredBy(Value(name, l), scope))
  {
    CleanValue(name, l);
    var s := Clean(Written(l, Join(name) + l.gap + ":"));
    ValueReads(name, l.gap, StripRight(l.tail));
    assert s != [] && s[0] == Join(name)[0] == name[0][0] && Upper(name[0][0]) by { JoinText(name); }
    CapitalisedIsNoHeader(s);
    QualifiedJoin(name);
    NestIsPlace(scope, name);
    var path := Join(Place(scope, name));
    AddOne(st, path, false);
  }

  lemma AddOne(st: State, path: string, kind: bool)
    ensures AddAll(st, [(path, kind)]) == Record(st, path, kind)
  {
    assert [(path, kind)][1..] == [];
  }

  // ----- the round trip -----

  /**
   * Parsing a rendered forest under any enclosing scope restores the stack and records exactly the declared paths, in
   * document order.
   */
  lemma {:induction false} RoundTrip(st: State, forest: seq<Decl>, scope: seq<string>)
    requires WellFormed(forest) && Parent(st.stack) == Frame(scope)
    ensures Run(st, Render(forest)) == AddAll(st, Declared(forest, scope))
    ensures Run(st, Render(forest)).stack == st.stack
    decreases forest
  {
    AddAllKeepsStack(st, Declared(forest, scope), st.stack);
    if forest != [] {
      var d := forest[0];
      RoundTripDecl(st, d, scope);
      RunConcat(st, RenderDecl(d), Render(forest[1..]));
      AddAllKeepsStack(st, DeclaredBy(d, scope), st.stack);
      RoundTrip(Run(st, RenderDecl(d)), forest[1..], scope);
      AddAllConcat(st, DeclaredBy(d, scope), Declared(forest[1..], scope));
    }
  }

  lemma {:induction false} RoundTripDecl(st: State, d: Decl, scope: seq<string>)
    requires DeclOk(d) && Parent(st.stack) == Frame(scope)
    ensures Run(st, RenderDecl(d)) == AddAll(st, DeclaredBy(d, scope))
    decreases d
  {
    match d
    case Scope(_, _, _, _, _) => RoundTripScope(st, d, scope);
    case Alias(isModule, name, l, pad) =>
      AliasStep(st, if isModule then KwModule else KwClass, name, l, pad);
      RunOne(st, RenderDecl(d)[0]);
    case Value(name, l) =>
      ValueStep(st, name, l, scope);
      RunOne(st, RenderDecl(d)[0]);
    case Other(line) =>
      OtherIsSkipped(st, line);
      RunOne(st, line);
  }

  lemma RunOne(st: State, line: string)
    ensures Run(st, [line]) == Step(st, line)
  {
    assert [line][1..] == [];
  }

  lemma {:induction false} RoundTripScope(st: State, d: Decl, scope: seq<string>)
    requires d.Scope? && DeclOk(d) && Parent(st.stack) == Frame(scope)
    ensures Run(st, RenderDecl(d)) == AddAll(st, DeclaredBy(d, scope))
    decreases d, 0
  {
    var Scope(k, name, open, body, close) := d;
    var head, last := Written(open, KeywordText(k) + open.gap + Join(name)), Written(close, "end");
    var path := Join(Place(scope, name));
    var frame := if k.KwInterface? then None else Some(path);
    var inner := if k.KwInterface? then scope else Place(scope, name);
    var declared := if k.KwInterface? then st else Record(st, path, k.KwModule?);
    var entered := declared.(stack := st.stack + [frame]);
    OpenStep(st, k, name, open, scope);
    assert Step(st, head) == entered;
    assert Parent(entered.stack) == Frame(inner) by { ParentOfPush(st.stack, frame); }
    RoundTrip(entered, body, inner);
    AddAllKeepsStack(declared, Declared(body, inner), entered.stack);
    var left := Run(entered, Render(body));
    EndStep(left, close);
    assert left.stack[..|left.stack| - 1] == st.stack;
    AddAllKeepsStack(declared, Declared(body, inner), st.stack);
    assert Step(left, last) == AddAll(declared, Declared(body, inner));
    RunConcat(st, [head] + Render(body), [last]);
    RunConcat(st, [head], Render(body));
    RunOne(st, head);
    RunOne(left, last);
  }

  lemma ParentOfPush(stack: seq<Option<string>>, frame: Option<string>)
    ensures Parent(stack + [frame]) == if frame.Some? then frame else Parent(stack)
  {
    assert (stack + [frame])[..|stack|] == stack;
  }

  /** One file: the shared tables gain each declared path once, kinds and order by first occurrence. */
  lemma ParsedFile(entries: map<string, bool>, order: seq<string>, forest: seq<Decl>, path: string)
    requires WellFormed(forest) && Listed(entries, order)
    ensures var end := Run(State([], entries, order), Render(forest));
            var found := Declared(forest, []);
            && end.stack == [] && Listed(end.entries, end.order) && order <= end.order
            && (path in end.entries <==> path in entries || FirstAt(found, path) < |found|)
            && (path in entries ==> end.entries[path] == entries[path])
            && (path !in entries && path in end.entries ==> end.entries[path] == found[FirstAt(found, path)].1)
  {
    var st := State([], entries, order);
    RoundTrip(st, forest, []);
    AddAllListed(st, Declared(forest, []));
    FirstKindWins(st, Declared(forest, []), path);
  }
}
