/** The sorbet return-type scanner: text of a `.returns(...)` argument to a type. */
module SorbetSig {
  import opened Types

  type Resolver = string -> Option<Ty>

  /** Unicode White_Space, which `str::trim` removes. */
  predicate Space(c: char) {
    '\t' <= c <= '\r' || c == ' ' || c == '\U{85}' || c == '\U{a0}' || c == '\U{1680}' ||
    '\U{2000}' <= c <= '\U{200a}' || c == '\U{2028}' || c == '\U{2029}' || c == '\U{202f}' ||
    c == '\U{205f}' || c == '\U{3000}'
  }

  function TrimStart(s: string): (r: string)
    ensures |r| <= |s|
  {
    if s != [] && Space(s[0]) then TrimStart(s[1..]) else s
  }

  function TrimEnd(s: string): (r: string)
    ensures |r| <= |s|
  {
    if s != [] && Space(s[|s| - 1]) then TrimEnd(s[..|s| - 1]) else s
  }

  function Trim(s: string): (r: string)
    ensures |r| <= |s|
  {
    TrimEnd(TrimStart(s))
  }

  function StripPrefix(s: string, p: string): (r: Option<string>)
    ensures r.Some? ==> |r.value| == |s| - |p|
  {
    if p <= s then Some(s[|p|..]) else None
  }

  function DropCbase(s: string): (r: string)
    ensures |r| <= |s|
  {
    var r := StripPrefix(s, "::");
    if r.Some? then r.value else s
  }

  /** `strip_call` and `strip_index`: `name`, spaces, `open` ... `close` and nothing else. */
  function StripForm(s: string, name: string, open: char, close: char): (r: Option<string>)
    ensures r.Some? ==> |r.value| < |s|
  {
    var after := StripPrefix(s, name);
    if after.None? then None
    else
      var rest := TrimStart(after.value);
      if |rest| >= 2 && rest[0] == open && rest[|rest| - 1] == close then Some(rest[1..|rest| - 1]) else None
  }

  predicate Opening(c: char) { c == '(' || c == '[' || c == '{' }

  predicate Closing(c: char) { c == ')' || c == ']' || c == '}' }

  // ----- the depth-aware splitter -----

  /** What is left to split, with `cur` read since the last separator at depth 0. */
  function SplitRest(s: string, depth: int, cur: string): (r: seq<string>)
    ensures r != []
    decreases |s|
  {
    if s == [] then [Trim(cur)]
    else if Opening(s[0]) then SplitRest(s[1..], depth + 1, cur + [s[0]])
    else if Closing(s[0]) then SplitRest(s[1..], depth - 1, cur + [s[0]])
    else if s[0] == ',' && depth == 0 then [Trim(cur)] + SplitRest(s[1..], depth, [])
    else SplitRest(s[1..], depth, cur + [s[0]])
  }

  function NonEmpty(parts: seq<string>): seq<string> {
    if parts == [] then []
    else (if parts[0] == [] then [] else [parts[0]]) + NonEmpty(parts[1..])
  }

  function SplitTopLevel(s: string): seq<string> {
    NonEmpty(SplitRest(s, 0, []))
  }

  lemma {:induction false} SplitFits(s: string, depth: int, cur: string, bound: nat)
    requires |cur| + |s| <= bound
    ensures forall p :: p in SplitRest(s, depth, cur) ==> |p| <= bound
    decreases |s|
  {
    if s != [] {
      SplitFits(s[1..], depth + 1, cur + [s[0]], bound);
      SplitFits(s[1..], depth - 1, cur + [s[0]], bound);
      SplitFits(s[1..], depth, cur + [s[0]], bound);
      SplitFits(s[1..], depth, [], bound);
    }
  }

  lemma {:induction false} NonEmptyIn(parts: seq<string>)
    ensures forall p :: p in NonEmpty(parts) <==> p in parts && p != []
  {
    if parts != [] {
      NonEmptyIn(parts[1..]);
      assert parts == [parts[0]] + parts[1..];
    }
  }

  /** `split_top_level` as the source runs it: one pass with `depth`, `start` and `parts`. */
  method SplitLoop(s: string) returns (r: seq<string>)
    ensures r == SplitTopLevel(s)
  {
    var parts: seq<string> := [];
    var depth, start := 0, 0;
    for i := 0 to |s|
      invariant 0 <= start <= i
      invariant parts + SplitRest(s[i..], depth, s[start..i]) == SplitRest(s, 0, [])
    {
      var c := s[i];
      assert s[i..][0] == c && s[i..][1..] == s[i + 1..];
      assert s[start..i] + [c] == s[start..i + 1];
      if Opening(c) {
        depth := depth + 1;
      } else if Closing(c) {
        depth := depth - 1;
      } else if c == ',' && depth == 0 {
        parts := parts + [Trim(s[start..i])];
        start := i + 1;
        assert s[start..i + 1] == [];
      }
    }
    assert s[|s|..] == [] && s[start..|s|] == s[start..];
    r := KeepNonEmpty(parts + [Trim(s[start..])]);
  }

  lemma NonEmptyStep(parts: seq<string>, i: nat)
    requires i < |parts|
    ensures NonEmpty(parts[i..]) == (if parts[i] == [] then [] else [parts[i]]) + NonEmpty(parts[i + 1..])
  {
    var rest := parts[i..];
    assert rest[0] == parts[i] && rest[1..] == parts[i + 1..];
  }

  /** The final filter: empty parts are dropped. */
  method KeepNonEmpty(parts: seq<string>) returns (r: seq<string>)
    ensures r == NonEmpty(parts)
  {
    r := [];
    assert parts[0..] == parts;
    for i := 0 to |parts|
      invariant r + NonEmpty(parts[i..]) == NonEmpty(parts)
    {
      NonEmptyStep(parts, i);
      if parts[i] != [] { r := r + [parts[i]]; }
    }
  }

  // ----- the parser -----

  function ScalarTy(s: string): Option<Ty> {
    if s == "Integer" then Some(Int)
    else if s == "Float" then Some(Float)
    else if s == "String" then Some(Str)
    else if s == "Symbol" then Some(Sym)
    else if s == "T::Boolean" || s == "TrueClass" || s == "FalseClass" then Some(Bool)
    else if s == "NilClass" then Some(Nil)
    else None
  }

  /** `parse_ty_leaf`. It terminates on every text: each form strips at least its brackets. */
  function Parse(expr: string, resolve: Resolver): Ty
    decreases |expr|, 1
  {
    var s := Trim(DropCbase(Trim(expr)));
    var scalar := ScalarTy(s);
    if scalar.Some? then scalar.value
    else
      var compound := Compound(s, resolve);
      if compound.Some? then compound.value
      else
        var named := resolve(s);
        if named.Some? then named.value else Unknown
  }

  /** `compound_ty_leaf` */
  function Compound(s: string, resolve: Resolver): Option<Ty>
    decreases |s|, 0
  {
    var nilable := StripForm(s, "T.nilable", '(', ')');
    if nilable.Some? then Some(Join(Parse(nilable.value, resolve), Nil))
    else
      var list := StripForm(s, "T::Array", '[', ']');
      if list.Some? then Some(Array(Parse(list.value, resolve)))
      else
        var hash := StripForm(s, "T::Hash", '[', ']');
        if hash.Some? then Some(HashTy(ParseParts(hash.value, resolve)))
        else
          var any := StripForm(s, "T.any", '(', ')');
          if any.None? then None
          else
            var tys := ParseParts(any.value, resolve);
            if tys == [] then None else Some(JoinAll(tys[0], tys[1..]))
  }

  /** Exactly two parts, or Unknown rather than a guess at the missing half. */
  function HashTy(tys: seq<Ty>): Ty {
    if |tys| == 2 then Hash(tys[0], tys[1]) else Unknown
  }

  function ParseParts(inner: string, resolve: Resolver): seq<Ty>
    decreases |inner|, 3
  {
    SplitFits(inner, 0, [], |inner|);
    NonEmptyIn(SplitRest(inner, 0, []));
    ParseAll(SplitTopLevel(inner), |inner|, resolve)
  }

  function ParseAll(parts: seq<string>, ghost bound: nat, resolve: Resolver): (tys: seq<Ty>)
    requires forall p :: p in parts ==> |p| <= bound
    ensures |tys| == |parts|
    decreases bound, 2, |parts|
  {
    if parts == [] then [] else [Parse(parts[0], resolve)] + ParseAll(parts[1..], bound, resolve)
  }

  const MISS: Resolver := _ => None

  /** `sorbet_ret_ty`: the index-blind reading. */
  function SorbetRetTy(expr: string): Ty {
    Parse(expr, MISS)
  }

  /** `resolve_ret_ty`: the same grammar with class names resolved at the leaves. */
  function ResolveRetTy(expr: Option<string>, resolve: string -> Option<ClassId>): Ty {
    if expr.None? then Unknown
    else Parse(expr.value, n => if resolve(n).Some? then Some(Instance(resolve(n).value)) else None)
  }
}
