/** `parse_rbs_text`: the stack parser that harvests constant paths from RBS text. */
module RbsPack {
  import opened Types

  // ----- characters and the four patterns -----

  /** What `String#strip` removes. */
  predicate Blank(c: char) { c == ' ' || '\t' <= c <= '\r' || c == '\0' }

  /** `\s` */
  predicate Space(c: char) { c == ' ' || '\t' <= c <= '\r' }

  predicate Letter(c: char) { 'a' <= c <= 'z' || 'A' <= c <= 'Z' }

  predicate Upper(c: char) { 'A' <= c <= 'Z' }

  predicate Digit(c: char) { '0' <= c <= '9' }

  predicate NameStart(c: char) { Letter(c) || c == '_' }

  predicate Word(c: char) { Letter(c) || Digit(c) || c == '_' }

  predicate PathChar(c: char) { Word(c) || c == ':' }

  function StripLeft(s: string): string { if s != [] && Blank(s[0]) then StripLeft(s[1..]) else s }

  function StripRight(s: string): string {
    if s != [] && Blank(s[|s| - 1]) then StripRight(s[..|s| - 1]) else s
  }

  /** The line up to its first `#`. */
  function Cut(s: string): string { if s == [] || s[0] == '#' then [] else [s[0]] + Cut(s[1..]) }

  function Clean(raw: string): string { StripRight(StripLeft(Cut(raw))) }

  function Spaces(s: string): (n: nat)
    ensures n <= |s|
  {
    if s != [] && Space(s[0]) then 1 + Spaces(s[1..]) else 0
  }

  function PathRun(s: string): (n: nat)
    ensures n <= |s|
  {
    if s != [] && PathChar(s[0]) then 1 + PathRun(s[1..]) else 0
  }

  function WordRun(s: string): (n: nat)
    ensures n <= |s|
  {
    if s != [] && Word(s[0]) then 1 + WordRun(s[1..]) else 0
  }

  /** `keyword`, blanks, a name: the name and what follows it. */
  function Header(s: string, keyword: string): Option<(string, string)> {
    if !(keyword <= s) then None
    else
      var rest := s[|keyword|..];
      var n := Spaces(rest);
      if n == 0 || n == |rest| || !NameStart(rest[n]) then None
      else
        var len := 1 + PathRun(rest[n + 1..]);
        Some((rest[n..n + len], rest[n + len..]))
  }

  datatype Keyword = KwClass | KwModule | KwInterface

  function KeywordText(k: Keyword): string {
    match k
    case KwClass => "class"
    case KwModule => "module"
    case KwInterface => "interface"
  }

  /** OPEN_RE */
  function OpenMatch(s: string): Option<(Keyword, string)> {
    var c := Header(s, "class");
    var m := Header(s, "module");
    var i := Header(s, "interface");
    if c.Some? then Some((KwClass, c.value.0))
    else if m.Some? then Some((KwModule, m.value.0))
    else if i.Some? then Some((KwInterface, i.value.0))
    else None
  }

  predicate EqualsNext(s: string) {
    var n := Spaces(s);
    n < |s| && s[n] == '='
  }

  /** ALIAS_RE */
  predicate AliasMatch(s: string) {
    var c := Header(s, "class");
    var m := Header(s, "module");
    (c.Some? && EqualsNext(c.value.1)) || (m.Some? && EqualsNext(m.value.1))
  }

  /** Length of the longest constant path at the front, `Foo::Bar::BAZ`. */
  function ConstRun(s: string): (n: nat)
    ensures n <= |s|
    decreases |s|
  {
    if s == [] || !Upper(s[0]) then 0
    else
      var n := 1 + WordRun(s[1..]);
      if n + 2 <= |s| && s[n] == ':' && s[n + 1] == ':' && ConstRun(s[n + 2..]) > 0
      then n + 2 + ConstRun(s[n + 2..]) else n
  }

  /** VALUE_CONST_RE */
  function ConstMatch(s: string): Option<string> {
    var n := ConstRun(s);
    if n == 0 then None
    else
      var k := n + Spaces(s[n..]);
      if k < |s| && s[k] == ':' && (k + 1 == |s| || s[k + 1] != ':') then Some(s[..n]) else None
  }

  /** END_RE */
  predicate EndMatch(s: string) {
    "end" <= s && Spaces(s[3..]) == |s| - 3
  }

  predicate Qualified(name: string) {
    exists i :: 0 <= i < |name| - 1 && name[i] == ':' && name[i + 1] == ':'
  }

  // ----- one line -----

  datatype State = State(stack: seq<Option<string>>, entries: map<string, bool>, order: seq<string>)

  /** `stack.compact.last` */
  function Parent(stack: seq<Option<string>>): Option<string> {
    if stack == [] then None
    else if stack[|stack| - 1].Some? then stack[|stack| - 1]
    else Parent(stack[..|stack| - 1])
  }

  function Nest(parent: Option<string>, name: string): string {
    if Qualified(name) || parent.None? then name else parent.value + "::" + name
  }

  /** The first declaration of a path wins. */
  function Record(st: State, path: string, isModule: bool): State {
    if path in st.entries then st
    else State(st.stack, st.entries[path := isModule], st.order + [path])
  }

  function Step(st: State, raw: string): State {
    var s := Clean(raw);
    if s == [] || AliasMatch(s) then st
    else if OpenMatch(s).Some? then
      var (keyword, name) := OpenMatch(s).value;
      if keyword.KwInterface? then st.(stack := st.stack + [None])
      else
        var path := Nest(Parent(st.stack), name);
        Record(st.(stack := st.stack + [Some(path)]), path, keyword.KwModule?)
    else if ConstMatch(s).Some? then
      var name := ConstMatch(s).value;
      if Qualified(name) || Parent(st.stack).Some? then Record(st, Nest(Parent(st.stack), name), false) else st
    else if EndMatch(s) && st.stack != [] then st.(stack := st.stack[..|st.stack| - 1])
    else st
  }

  function Run(st: State, lines: seq<string>): State
    decreases |lines|
  {
    if lines == [] then st else Run(Step(st, lines[0]), lines[1..])
  }

  lemma {:induction false} RunConcat(st: State, a: seq<string>, b: seq<string>)
    ensures Run(st, a + b) == Run(Run(st, a), b)
    decreases |a|
  {
    if a == [] {
      assert a + b == b;
    } else {
      assert (a + b)[1..] == a[1..] + b;
      RunConcat(Step(st, a[0]), a[1..], b);
    }
  }

  // ----- the bookkeeping, for every text -----

  /** `order` lists the keys of `entries`, each once. */
  ghost predicate Listed(entries: map<string, bool>, order: seq<string>) {
    && (forall p :: p in order <==> p in entries)
    && forall i, j :: 0 <= i < j < |order| ==> order[i] != order[j]
  }

  lemma StepKeepsListed(st: State, raw: string)
    requires Listed(st.entries, st.order)
    ensures Listed(Step(st, raw).entries, Step(st, raw).order)
  {}

  class Pack {
    var entries: map<string, bool>
    var order: seq<string>

    constructor ()
      ensures entries == map[] && order == [] && Listed(entries, order)
    {
      entries, order := map[], [];
    }

    /** The loop over the lines of one file, merging into the shared tables. */
    method ParseText(lines: seq<string>)
      requires Listed(entries, order)
      modifies this
      ensures Listed(entries, order)
      ensures var end := Run(State([], old(entries), old(order)), lines); entries == end.entries && order == end.order
    {
      var stack: seq<Option<string>> := [];
      for i := 0 to |lines|
        invariant Listed(entries, order)
        invariant Run(State(stack, entries, order), lines[i..]) == Run(State([], old(entries), old(order)), lines)
      {
        assert lines[i..][0] == lines[i] && lines[i..][1..] == lines[i + 1..];
        ghost var was := State(stack, entries, order);
        StepKeepsListed(was, lines[i]);
        var s := Clean(lines[i]);
        if s == [] || AliasMatch(s) { continue; }
        var open, value := OpenMatch(s), ConstMatch(s);
        if open.Some? {
          if open.value.0.KwInterface? {
            stack := stack + [None];
          } else {
            var path := Nest(Parent(stack), open.value.1);
            stack := stack + [Some(path)];
            if path !in entries {
              entries := entries[path := open.value.0.KwModule?];
              order := order + [path];
            }
          }
        } else if value.Some? {
          if Qualified(value.value) || Parent(stack).Some? {
            var path := Nest(Parent(stack), value.value);
            if path !in entries {
              entries := entries[path := false];
              order := order + [path];
            }
          }
        } else if EndMatch(s) && stack != [] {
          stack := stack[..|stack| - 1];
        }
        assert State(stack, entries, order) == Step(was, lines[i]);
      }
    }
  }
}
