/** The type lattice of the checker (`Ty`, `Ty::union`), the runtime values it
    speaks about, and the meaning of a type as a set of values. */
module Types {

  type ClassId = nat

  datatype Option<+T> = None | Some(value: T)

  datatype Ty =
    | Unknown
    | Nil
    | Bool
    | Int
    | Float
    | Str
    | Sym
    | Instance(cls: ClassId)
    | Class(cls: ClassId)
    | Array(elem: Ty)
    | Hash(key: Ty, val: Ty)
    | Union(parts: seq<Ty>)

  /** Runtime values. `VOther` stands for every object no `Ty` but `Unknown` describes. */
  datatype Value =
    | VNil
    | VBool(b: bool)
    | VInt(i: int)
    | VFloat(r: real)
    | VStr(s: string)
    | VSym(s: string)
    | VObj(cls: ClassId, id: nat)
    | VClass(cls: ClassId)
    | VArray(elems: seq<Value>)
    | VHash(entries: map<Value, Value>)
    | VOther(id: nat)

  /** What the program's classes really are at run time: `supers[c]` are the proper
      ancestors of class `c`. A class outside the map has none. */
  datatype World = World(supers: map<ClassId, set<ClassId>>) {
    predicate Sub(c: ClassId, d: ClassId) {
      c == d || (c in supers && d in supers[c])
    }

    /** Ancestry is inherited: an ancestor's ancestor is an ancestor. */
    ghost predicate Transitive() {
      forall c, d, e {:trigger Sub(c, d), Sub(d, e)} :: Sub(c, d) && Sub(d, e) ==> Sub(c, e)
    }
  }

  /** The meaning of a type: does value `v` belong to `t`? */
  predicate Has(w: World, v: Value, t: Ty)
    decreases t
  {
    match t
    case Unknown => true
    case Nil => v.VNil?
    case Bool => v.VBool?
    case Int => v.VInt?
    case Float => v.VFloat?
    case Str => v.VStr?
    case Sym => v.VSym?
    case Instance(c) => v.VObj? && w.Sub(v.cls, c)
    case Class(c) => v == VClass(c)
    case Array(e) => v.VArray? && forall i :: 0 <= i < |v.elems| ==> Has(w, v.elems[i], e)
    case Hash(k, x) =>
      v.VHash? && forall key :: key in v.entries ==> Has(w, key, k) && Has(w, v.entries[key], x)
    case Union(parts) => exists i :: 0 <= i < |parts| && Has(w, v, parts[i])
  }

  // ----- Ty::union -----

  /** `Vec::dedup`: drop every element equal to its predecessor. */
  function DedupAdjacent(s: seq<Ty>): seq<Ty> {
    if |s| <= 1 then s
    else if s[|s| - 1] == s[|s| - 2] then DedupAdjacent(s[..|s| - 1])
    else DedupAdjacent(s[..|s| - 1]) + [s[|s| - 1]]
  }

  /** The elements of `s` in order of first occurrence. */
  function Uniq(s: seq<Ty>): seq<Ty> {
    if s == [] then []
    else
      var rest := Uniq(s[..|s| - 1]);
      if s[|s| - 1] in rest then rest else rest + [s[|s| - 1]]
  }

  function Members(t: Ty): seq<Ty> {
    if t.Union? then t.parts else [t]
  }

  /** A single member stands for itself. */
  function Packed(ts: seq<Ty>): Ty { if |ts| == 1 then ts[0] else Union(ts) }

  /** `Ty::union` as a function: `Unknown` absorbs, members are flattened one level
      and deduplicated, a single member stands for itself. */
  function Join(a: Ty, b: Ty): Ty {
    if a == b then a
    else if a == Unknown || b == Unknown then Unknown
    else
      Packed(Uniq(Members(a) + Members(b)))
  }

  lemma {:induction false} UniqElements(s: seq<Ty>)
    ensures forall x :: x in Uniq(s) <==> x in s
    ensures forall i, j :: 0 <= i < j < |Uniq(s)| ==> Uniq(s)[i] != Uniq(s)[j]
  {
    if s != [] {
      UniqElements(s[..|s| - 1]);
      assert s == s[..|s| - 1] + [s[|s| - 1]];
    }
  }

  /** Dropping adjacent repeats first does not change what `Uniq` keeps. */
  lemma {:induction false} DedupIsRedundant(s: seq<Ty>)
    ensures Uniq(DedupAdjacent(s)) == Uniq(s)
    ensures s != [] ==> DedupAdjacent(s) != [] && DedupAdjacent(s)[|DedupAdjacent(s)| - 1] == s[|s| - 1]
  {
    if |s| > 1 {
      var front := s[..|s| - 1];
      DedupIsRedundant(front);
      UniqElements(front);
      assert front[|front| - 1] == s[|s| - 2] && s[|s| - 2] in front;
      if s[|s| - 1] != s[|s| - 2] {
        var d := DedupAdjacent(front);
        assert (d + [s[|s| - 1]])[..|d|] == d;
      }
    }
  }

  /** The loops of `Ty::union`: extend, dedup, then keep each member once. */
  method UnionTypes(a: Ty, b: Ty) returns (r: Ty)
    ensures r == Join(a, b)
  {
    if a == b { return a; }
    if a == Unknown || b == Unknown { return Unknown; }
    var parts: seq<Ty> := [];
    for k := 0 to 2
      invariant parts == (if k == 0 then [] else if k == 1 then Members(a) else Members(a) + Members(b))
    {
      var t := if k == 0 then a else b;
      parts := if t.Union? then parts + t.parts else parts + [t];
    }
    DedupIsRedundant(parts);
    var uniq := KeepOnce(DedupAdjacent(parts));
    r := Packed(uniq);
  }

  method KeepOnce(parts: seq<Ty>) returns (uniq: seq<Ty>)
    ensures uniq == Uniq(parts)
  {
    uniq := [];
    for i := 0 to |parts|
      invariant uniq == Uniq(parts[..i])
    {
      assert parts[..i + 1][..i] == parts[..i];
      if parts[i] !in uniq {
        uniq := uniq + [parts[i]];
      }
    }
    assert parts[..|parts|] == parts;
  }

  ghost predicate HasOneOf(w: World, v: Value, ts: seq<Ty>) { exists t :: t in ts && Has(w, v, t) }

  lemma {:induction false} UnionHas(w: World, v: Value, ts: seq<Ty>)
    ensures Has(w, v, Union(ts)) <==> HasOneOf(w, v, ts)
  {
    if i :| 0 <= i < |ts| && Has(w, v, ts[i]) {
      assert ts[i] in ts;
    }
  }

  lemma HasMembers(w: World, v: Value, t: Ty)
    ensures Has(w, v, t) <==> HasOneOf(w, v, Members(t))
  {
    if t.Union? {
      UnionHas(w, v, t.parts);
      assert t == Union(t.parts);
    } else {
      assert t in [t];
    }
  }

  lemma HasOneOfEither(w: World, v: Value, a: seq<Ty>, b: seq<Ty>)
    ensures HasOneOf(w, v, Uniq(a + b)) <==> HasOneOf(w, v, a) || HasOneOf(w, v, b)
  {
    UniqElements(a + b);
    assert forall t :: t in Uniq(a + b) <==> t in a || t in b;
  }

  lemma PackedHas(w: World, v: Value, ts: seq<Ty>)
    ensures Has(w, v, Packed(ts)) <==> HasOneOf(w, v, ts)
  {
    if |ts| == 1 {
      assert forall t :: t in ts <==> t == ts[0];
    } else {
      UnionHas(w, v, ts);
    }
  }

  /** The meaning of `Ty::union` is exactly set union, whatever the member order. */
  lemma JoinMeaning(w: World, v: Value, a: Ty, b: Ty)
    ensures Has(w, v, Join(a, b)) <==> Has(w, v, a) || Has(w, v, b)
  {
    if a != b && a != Unknown && b != Unknown {
      assert Join(a, b) == Packed(Uniq(Members(a) + Members(b)));
      PackedHas(w, v, Uniq(Members(a) + Members(b)));
      HasOneOfEither(w, v, Members(a), Members(b));
      HasMembers(w, v, a);
      HasMembers(w, v, b);
    }
  }

  /** Fold of `Ty::union` over a list, starting from `acc`. */
  function JoinAll(acc: Ty, ts: seq<Ty>): Ty
    decreases |ts|
  {
    if ts == [] then acc else JoinAll(Join(acc, ts[0]), ts[1..])
  }

  lemma {:induction false} JoinAllMeaning(w: World, v: Value, acc: Ty, ts: seq<Ty>)
    ensures Has(w, v, JoinAll(acc, ts)) <==> Has(w, v, acc) || exists i :: 0 <= i < |ts| && Has(w, v, ts[i])
    decreases |ts|
  {
    if ts != [] {
      JoinMeaning(w, v, acc, ts[0]);
      JoinAllMeaning(w, v, Join(acc, ts[0]), ts[1..]);
      assert forall i :: 0 <= i < |ts| - 1 ==> ts[1..][i] == ts[i + 1];
      if i :| 0 <= i < |ts| && Has(w, v, ts[i]) {
        if i > 0 { assert Has(w, v, ts[1..][i - 1]); }
      }
      if i :| 0 <= i < |ts| - 1 && Has(w, v, ts[1..][i]) {
        assert Has(w, v, ts[i + 1]);
      }
    }
  }

  /** Every union inside `t` has a member. `Ty::union` keeps this. */
  predicate Inhabited(t: Ty) {
    match t
    case Array(e) => Inhabited(e)
    case Hash(k, x) => Inhabited(k) && Inhabited(x)
    case Union(parts) => parts != [] && forall i :: 0 <= i < |parts| ==> Inhabited(parts[i])
    case _ => true
  }

  ghost predicate AllInhabited(ts: seq<Ty>) { ts != [] && forall t :: t in ts ==> Inhabited(t) }

  lemma MembersInhabited(t: Ty)
    requires Inhabited(t)
    ensures AllInhabited(Members(t))
  {}

  lemma UniqInhabited(ts: seq<Ty>)
    requires AllInhabited(ts)
    ensures AllInhabited(Uniq(ts))
  {
    UniqElements(ts);
    assert ts[0] in Uniq(ts);
  }

  lemma JoinInhabited(a: Ty, b: Ty)
    requires Inhabited(a) && Inhabited(b)
    ensures Inhabited(Join(a, b))
  {
    var ms := Members(a) + Members(b);
    assert AllInhabited(ms) by {
      MembersInhabited(a);
      MembersInhabited(b);
    }
    UniqInhabited(ms);
    var u := Uniq(ms);
    assert forall i :: 0 <= i < |u| ==> Inhabited(u[i]);
  }
}
