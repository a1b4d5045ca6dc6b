/** E0103's decision: `compatible(arg, param)`. A rejection is an accusation, so it
    must come with a value of the argument type that the parameter type excludes. */
module Compat {
  import opened Types

  /** The project index's answer to `ancestors(c)`: the ancestors it found and
      whether the walk was complete. */
  datatype Index = Index(known: map<ClassId, set<ClassId>>, complete: set<ClassId>) {
    predicate Lists(c: ClassId, d: ClassId) { c in known && d in known[c] }

    /** What is listed is true, and a complete list misses nothing. */
    ghost predicate Describes(w: World) {
      && (forall c, d :: Lists(c, d) ==> w.Sub(c, d))
      && (forall c, d :: c in complete && w.Sub(c, d) ==> c == d || Lists(c, d))
    }
  }

  predicate Compatible(arg: Ty, param: Ty, idx: Index)
    decreases arg, param
  {
    if arg.Unknown? || param.Unknown? then true
    else if arg.Union? then forall i :: 0 <= i < |arg.parts| ==> Compatible(arg.parts[i], param, idx)
    else if param.Union? then exists i :: 0 <= i < |param.parts| && Compatible(arg, param.parts[i], idx)
    else if arg.Array? && param.Array? then Compatible(arg.elem, param.elem, idx)
    else if arg.Hash? && param.Hash? then Compatible(arg.key, param.key, idx) && Compatible(arg.val, param.val, idx)
    else if arg.Instance? && param.Instance? then
      arg.cls == param.cls || idx.Lists(arg.cls, param.cls) || arg.cls !in idx.complete
    else arg == param
  }

  // ----- shapes of types -----

  predicate NoUnknown(t: Ty) {
    match t
    case Unknown => false
    case Array(e) => NoUnknown(e)
    case Hash(k, x) => NoUnknown(k) && NoUnknown(x)
    case Union(parts) => forall i :: 0 <= i < |parts| ==> NoUnknown(parts[i])
    case _ => true
  }

  /** Has `t` infinitely many values? */
  predicate Wide(t: Ty) {
    match t
    case Nil => false
    case Bool => false
    case Class(_) => false
    case Hash(k, x) => Wide(k) || Wide(x)
    case Union(parts) => exists i :: 0 <= i < |parts| && Wide(parts[i])
    case _ => true
  }

  /** Every hash inside `t` has a wide key type. */
  predicate WideKeys(t: Ty) {
    match t
    case Array(e) => WideKeys(e)
    case Hash(k, x) => Wide(k) && WideKeys(k) && WideKeys(x)
    case Union(parts) => forall i :: 0 <= i < |parts| ==> WideKeys(parts[i])
    case _ => true
  }

  /** The index's ancestry walk was complete for every class `t` mentions. */
  predicate CompleteFor(t: Ty, idx: Index) {
    match t
    case Instance(c) => c in idx.complete
    case Array(e) => CompleteFor(e, idx)
    case Hash(k, x) => CompleteFor(k, idx) && CompleteFor(x, idx)
    case Union(parts) => forall i :: 0 <= i < |parts| ==> CompleteFor(parts[i], idx)
    case _ => true
  }

  ghost predicate Included(w: World, a: Ty, p: Ty) {
    forall v :: Has(w, v, a) ==> Has(w, v, p)
  }

  // ----- witnesses -----

  function Canon(t: Ty): Value {
    match t
    case Unknown => VNil
    case Nil => VNil
    case Bool => VBool(true)
    case Int => VInt(0)
    case Float => VFloat(0.0)
    case Str => VStr("")
    case Sym => VSym("")
    case Instance(c) => VObj(c, 0)
    case Class(c) => VClass(c)
    case Array(_) => VArray([])
    case Hash(_, _) => VHash(map[])
    case Union(parts) => if parts == [] then VNil else Canon(parts[0])
  }

  lemma {:induction false} CanonHas(w: World, t: Ty)
    requires Inhabited(t)
    ensures Has(w, Canon(t), t)
  {
    if t.Union? {
      CanonHas(w, t.parts[0]);
      assert Has(w, Canon(t), t.parts[0]);
    }
  }

  function Size(v: Value): nat {
    match v
    case VInt(i) => if i >= 0 then i else 0
    case VFloat(r) => if r.Floor >= 0 then r.Floor else 0
    case VStr(s) => |s|
    case VSym(s) => |s|
    case VObj(_, id) => id
    case VArray(es) => |es|
    case _ => 0
  }

  /** A wide type other than a hash or a union has a value of every size. */
  lemma ValueOfSize(w: World, t: Ty, n: nat) returns (v: Value)
    requires Wide(t) && Inhabited(t) && !t.Hash? && !t.Union?
    ensures Has(w, v, t) && Size(v) == n
  {
    match t
    case Unknown => v := VInt(n);
    case Int => v := VInt(n);
    case Float => v := VFloat(n as real);
    case Str => v := VStr(seq(n, _ => 'a'));
    case Sym => v := VSym(seq(n, _ => 'a'));
    case Instance(c) => v := VObj(c, n);
    case Array(e) =>
      CanonHas(w, e);
      v := VArray(seq(n, _ => Canon(e)));
  }

  lemma SizeBound(vs: set<Value>) returns (n: nat)
    ensures forall v :: v in vs ==> Size(v) < n
  {
    n := 0;
    var rest := vs;
    while rest != {}
      invariant rest <= vs
      invariant forall v :: v in vs && v !in rest ==> Size(v) < n
    {
      var v :| v in rest;
      rest := rest - {v};
      if n <= Size(v) { n := Size(v) + 1; }
    }
  }

  ghost function KeysIn(vs: set<Value>): set<Value> {
    set v, key | v in vs && v.VHash? && key in v.entries.Keys :: key
  }

  ghost function ValuesIn(vs: set<Value>): set<Value> {
    set v, key | v in vs && v.VHash? && key in v.entries.Keys :: v.entries[key]
  }

  /** A wide type is never exhausted: it has a value outside any finite set. */
  lemma {:induction false} FreshValue(w: World, t: Ty, used: set<Value>) returns (v: Value)
    requires Wide(t) && Inhabited(t)
    ensures Has(w, v, t) && v !in used
    decreases t
  {
    if t.Union? {
      var i :| 0 <= i < |t.parts| && Wide(t.parts[i]);
      v := FreshValue(w, t.parts[i], used);
    } else if t.Hash? && Wide(t.key) {
      var key := FreshValue(w, t.key, KeysIn(used));
      CanonHas(w, t.val);
      v := VHash(map[key := Canon(t.val)]);
      assert key in v.entries.Keys;
    } else if t.Hash? {
      var val := FreshValue(w, t.val, ValuesIn(used));
      CanonHas(w, t.key);
      v := VHash(map[Canon(t.key) := val]);
      assert Canon(t.key) in v.entries.Keys && v.entries[Canon(t.key)] == val;
    } else {
      var n := SizeBound(used);
      v := ValueOfSize(w, t, n);
    }
  }

  // ----- rejection is proven -----

  predicate Atomic(t: Ty) {
    !t.Unknown? && !t.Array? && !t.Hash? && !t.Union?
  }

  lemma {:induction false} AtomOutside(w: World, idx: Index, a: Ty, p: Ty)
    requires Atomic(a) && idx.Describes(w) && !Compatible(a, p, idx)
    ensures !Has(w, Canon(a), p)
    decreases p
  {
    if p.Union? {
      forall i | 0 <= i < |p.parts| ensures !Has(w, Canon(a), p.parts[i]) {
        AtomOutside(w, idx, a, p.parts[i]);
      }
    }
  }

  predicate Submap(m: map<Value, Value>, m': map<Value, Value>) {
    forall k :: k in m ==> k in m' && m'[k] == m[k]
  }

  /** Elements of `e` such that no array holding them all is a `p`. */
  lemma {:induction false} ArrayWitness(w: World, idx: Index, e: Ty, p: Ty) returns (ws: seq<Value>)
    requires Inhabited(e) && WideKeys(e) && idx.Describes(w) && !Compatible(Array(e), p, idx)
    ensures forall x :: x in ws ==> Has(w, x, e)
    ensures forall us: seq<Value> :: (forall x :: x in ws ==> x in us) ==> !Has(w, VArray(us), p)
    decreases Array(e), 0, p
  {
    ws := [];
    if p.Array? {
      var v := Refute(w, idx, e, p.elem);
      ws := [v];
      forall us: seq<Value> | v in us ensures !Has(w, VArray(us), p) {
        var i :| 0 <= i < |us| && us[i] == v;
        assert !Has(w, VArray(us).elems[i], p.elem);
      }
      assert v in ws;
    } else if p.Union? {
      for i := 0 to |p.parts|
        invariant forall x :: x in ws ==> Has(w, x, e)
        invariant forall us: seq<Value>, j ::
          0 <= j < i && (forall x :: x in ws ==> x in us) ==> !Has(w, VArray(us), p.parts[j])
      {
        var more := ArrayWitness(w, idx, e, p.parts[i]);
        assert forall x :: x in ws + more <==> x in ws || x in more;
        ws := ws + more;
      }
    }
  }

  /** No hash containing the entries `r` is a `p`. */
  ghost predicate Blocks(w: World, r: map<Value, Value>, p: Ty) {
    forall m {:trigger Submap(r, m)} :: Submap(r, m) ==> !Has(w, VHash(m), p)
  }

  lemma BlocksGrows(w: World, r: map<Value, Value>, r': map<Value, Value>, p: Ty)
    requires Blocks(w, r, p) && Submap(r, r')
    ensures Blocks(w, r', p)
  {
    forall m | Submap(r', m) ensures !Has(w, VHash(m), p) {
      assert Submap(r, m);
    }
  }

  lemma {:induction false} EntryBlocks(w: World, r: map<Value, Value>, key: Value, pk: Ty, pv: Ty)
    requires key in r && (!Has(w, key, pk) || !Has(w, r[key], pv))
    ensures Blocks(w, r, Hash(pk, pv))
  {
    forall m | Submap(r, m) ensures !Has(w, VHash(m), Hash(pk, pv)) {
      assert key in VHash(m).entries && m[key] == r[key];
    }
  }

  lemma AddEntry(w: World, k: Ty, x: Ty, m: map<Value, Value>, key: Value, val: Value)
    requires Has(w, VHash(m), Hash(k, x)) && Has(w, key, k) && Has(w, val, x) && key !in m
    ensures Submap(m, m[key := val]) && Has(w, VHash(m[key := val]), Hash(k, x))
  {}

  /** Extend `m` with entries of `Hash[k, x]` such that no hash containing them is a `p`.
      A rejected value type needs a key not used before; that is where `Wide(k)` counts. */
  lemma {:induction false} HashWitness(w: World, idx: Index, k: Ty, x: Ty, p: Ty, m: map<Value, Value>)
      returns (r: map<Value, Value>)
    requires Inhabited(k) && Inhabited(x) && Wide(k) && WideKeys(k) && WideKeys(x)
    requires idx.Describes(w) && !Compatible(Hash(k, x), p, idx)
    requires Has(w, VHash(m), Hash(k, x))
    ensures Submap(m, r) && Has(w, VHash(r), Hash(k, x)) && Blocks(w, r, p)
    decreases Hash(k, x), 0, p
  {
    r := m;
    if p.Hash? {
      if !Compatible(k, p.key, idx) {
        var key := Refute(w, idx, k, p.key);
        if key !in m {
          CanonHas(w, x);
          AddEntry(w, k, x, m, key, Canon(x));
          r := m[key := Canon(x)];
        }
        EntryBlocks(w, r, key, p.key, p.val);
      } else {
        var val := Refute(w, idx, x, p.val);
        var key := FreshValue(w, k, m.Keys);
        AddEntry(w, k, x, m, key, val);
        r := m[key := val];
        EntryBlocks(w, r, key, p.key, p.val);
      }
    } else if p.Union? {
      r := HashWitnessAll(w, idx, k, x, p.parts, m);
    }
  }

  lemma {:induction false} HashWitnessAll(w: World, idx: Index, k: Ty, x: Ty, ps: seq<Ty>, m: map<Value, Value>)
      returns (r: map<Value, Value>)
    requires Inhabited(k) && Inhabited(x) && Wide(k) && WideKeys(k) && WideKeys(x)
    requires idx.Describes(w) && forall i :: 0 <= i < |ps| ==> !Compatible(Hash(k, x), ps[i], idx)
    requires Has(w, VHash(m), Hash(k, x))
    ensures Submap(m, r) && Has(w, VHash(r), Hash(k, x)) && Blocks(w, r, Union(ps))
    decreases Hash(k, x), 0, ps
  {
    r := m;
    for i := 0 to |ps|
      invariant Submap(m, r) && Has(w, VHash(r), Hash(k, x))
      invariant forall j :: 0 <= j < i ==> Blocks(w, r, ps[j])
    {
      var before := r;
      r := HashWitness(w, idx, k, x, ps[i], before);
      forall j | 0 <= j < i ensures Blocks(w, r, ps[j]) {
        BlocksGrows(w, before, r, ps[j]);
      }
    }
    forall m' | Submap(r, m') ensures !Has(w, VHash(m'), Union(ps)) {
      forall j | 0 <= j < |ps| ensures !Has(w, VHash(m'), ps[j]) {
        assert Blocks(w, r, ps[j]);
      }
    }
  }

  /** Invariant #1 for E0103: whenever `compatible` says no, some value of the argument
      type is no value of the parameter type. No completeness of the index is needed:
      an incomplete ancestry is never rejected. */
  lemma {:induction false} Refute(w: World, idx: Index, a: Ty, p: Ty) returns (v: Value)
    requires Inhabited(a) && WideKeys(a) && idx.Describes(w)
    requires !Compatible(a, p, idx)
    ensures Has(w, v, a) && !Has(w, v, p)
    decreases a, 1, p
  {
    if a.Union? {
      var i :| 0 <= i < |a.parts| && !Compatible(a.parts[i], p, idx);
      v := Refute(w, idx, a.parts[i], p);
    } else if a.Array? {
      var ws := ArrayWitness(w, idx, a.elem, p);
      v := VArray(ws);
      assert forall i :: 0 <= i < |ws| ==> ws[i] in ws;
    } else if a.Hash? {
      var m := HashWitness(w, idx, a.key, a.val, p, map[]);
      v := VHash(m);
      assert Submap(m, m);
    } else {
      AtomOutside(w, idx, a, p);
      CanonHas(w, a);
      v := Canon(a);
    }
  }

  // ----- acceptance is inclusion -----

  /** With the ancestry of the argument's classes known in full, an accepted argument
      type is contained in the parameter type, hashes included. */
  lemma {:induction false} AcceptIncludes(w: World, idx: Index, a: Ty, p: Ty, v: Value)
    requires idx.Describes(w) && w.Transitive() && CompleteFor(a, idx)
    requires NoUnknown(a) && NoUnknown(p) && Compatible(a, p, idx)
    requires Has(w, v, a)
    ensures Has(w, v, p)
    decreases a, p
  {
    if a.Union? {
      var i :| 0 <= i < |a.parts| && Has(w, v, a.parts[i]);
      AcceptIncludes(w, idx, a.parts[i], p, v);
    } else if p.Union? {
      var i :| 0 <= i < |p.parts| && Compatible(a, p.parts[i], idx);
      AcceptIncludes(w, idx, a, p.parts[i], v);
    } else if a.Array? {
      forall i | 0 <= i < |v.elems| ensures Has(w, v.elems[i], p.elem) {
        AcceptIncludes(w, idx, a.elem, p.elem, v.elems[i]);
      }
    } else if a.Hash? {
      forall k | k in v.entries ensures Has(w, k, p.key) && Has(w, v.entries[k], p.val) {
        AcceptIncludes(w, idx, a.key, p.key, k);
        AcceptIncludes(w, idx, a.val, p.val, v.entries[k]);
      }
    } else if a.Instance? {
      assert w.Sub(v.cls, a.cls) && w.Sub(a.cls, p.cls);
    }
  }

  /** On Unknown-free types with complete ancestry and wide hash keys (in particular on
      every hash-free type) `compatible` decides inclusion exactly. */
  lemma CompatibleIsInclusion(w: World, idx: Index, a: Ty, p: Ty)
    requires idx.Describes(w) && w.Transitive() && CompleteFor(a, idx)
    requires NoUnknown(a) && NoUnknown(p) && Inhabited(a) && WideKeys(a)
    ensures Compatible(a, p, idx) <==> Included(w, a, p)
  {
    if Compatible(a, p, idx) {
      forall v | Has(w, v, a) ensures Has(w, v, p) {
        AcceptIncludes(w, idx, a, p, v);
      }
    } else {
      var v := Refute(w, idx, a, p);
    }
  }

  // ----- exactly which hash keys keep `compatible` exact -----

  /** The values of a type that is not wide. */
  ghost function FiniteValues(k: Ty): set<Value>
    requires !Wide(k)
  {
    match k
    case Nil => {VNil}
    case Bool => {VBool(false), VBool(true)}
    case Class(c) => {VClass(c)}
    case Hash(key, val) => set m | m in AllMaps(FiniteValues(key), FiniteValues(val)) :: VHash(m)
    case Union(parts) => FiniteValuesOf(parts)
  }

  ghost function FiniteValuesOf(parts: seq<Ty>): set<Value>
    requires forall i :: 0 <= i < |parts| ==> !Wide(parts[i])
  {
    if parts == [] then {} else FiniteValues(parts[0]) + FiniteValuesOf(parts[1..])
  }

  ghost function Any(s: set<Value>): (v: Value)
    requires s != {}
    ensures v in s
  {
    var v :| v in s; v
  }

  /** Every map from some of `ks` into `vs`. */
  ghost function AllMaps(ks: set<Value>, vs: set<Value>): set<map<Value, Value>>
    decreases |ks|
  {
    if ks == {} then {map[]}
    else
      var k, rest := Any(ks), AllMaps(ks - {Any(ks)}, vs);
      rest + set m, v | m in rest && v in vs :: m[k := v]
  }

  lemma {:induction false} InAllMaps(ks: set<Value>, vs: set<Value>, m: map<Value, Value>)
    requires m.Keys <= ks && forall key :: key in m ==> m[key] in vs
    ensures m in AllMaps(ks, vs)
    decreases |ks|
  {
    if ks == {} {
      assert m == map[];
    } else {
      var k := Any(ks);
      var less := m - {k};
      InAllMaps(ks - {k}, vs, less);
      assert k !in m ==> m == less;
      assert k in m ==> m == less[k := m[k]];
    }
  }

  lemma {:induction false} FiniteValuesComplete(w: World, k: Ty, v: Value)
    requires !Wide(k) && Has(w, v, k)
    ensures v in FiniteValues(k)
    decreases k
  {
    if k.Union? {
      var i :| 0 <= i < |k.parts| && Has(w, v, k.parts[i]);
      FiniteValuesComplete(w, k.parts[i], v);
      FiniteValuesAt(k.parts, i, v);
    } else if k.Hash? {
      forall key | key in v.entries ensures key in FiniteValues(k.key) && v.entries[key] in FiniteValues(k.val) {
        FiniteValuesComplete(w, k.key, key);
        FiniteValuesComplete(w, k.val, v.entries[key]);
      }
      InAllMaps(FiniteValues(k.key), FiniteValues(k.val), v.entries);
    }
  }

  lemma {:induction false} FiniteValuesAt(parts: seq<Ty>, i: nat, v: Value)
    requires forall j :: 0 <= j < |parts| ==> !Wide(parts[j])
    requires i < |parts| && v in FiniteValues(parts[i])
    ensures v in FiniteValuesOf(parts)
  {
    if i > 0 { FiniteValuesAt(parts[1..], i - 1, v); }
  }

  function ClassesBut(n: nat, skip: nat): seq<Ty> {
    if n == 0 then [] else ClassesBut(n - 1, skip) + (if n - 1 == skip then [] else [Class(n - 1)])
  }

  lemma {:induction false} ClassesButMembers(w: World, n: nat, skip: nat, v: Value)
    ensures Has(w, v, Union(ClassesBut(n, skip))) <==> v.VClass? && v.cls < n && v.cls != skip
    ensures forall i :: 0 <= i < |ClassesBut(n, skip)| ==> ClassesBut(n, skip)[i].Class?
  {
    if n > 0 {
      ClassesButMembers(w, n - 1, skip, v);
      var rest := ClassesBut(n - 1, skip);
      var all := ClassesBut(n, skip);
      assert forall i :: 0 <= i < |rest| ==> all[i] == rest[i];
      if n - 1 != skip {
        assert all[|rest|] == Class(n - 1);
        assert Has(w, v, all[|rest|]) <==> v == VClass(n - 1);
      }
    }
  }

  /** Fewer keys than classes: some class is nobody's value. */
  lemma {:induction false} Pigeonhole(m: map<Value, Value>, n: nat) returns (c: nat)
    requires |m.Keys| < n
    ensures c < n && forall k :: k in m ==> m[k] != VClass(c)
  {
    if k :| k in m && m[k] == VClass(n - 1) {
      var less := map x | x in m && x != k :: m[x];
      assert less.Keys == m.Keys - {k};
      c := Pigeonhole(less, n - 1);
      assert forall x :: x in m ==> x == k || (x in less && less[x] == m[x]);
    } else {
      c := n - 1;
    }
  }

  function HashesMissingOne(k: Ty, n: nat, upto: nat): seq<Ty> {
    if upto == 0 then [] else HashesMissingOne(k, n, upto - 1) + [Hash(k, Union(ClassesBut(n, upto - 1)))]
  }

  lemma {:induction false} HashesMissingOneAt(k: Ty, n: nat, upto: nat, i: nat)
    requires i < upto
    ensures |HashesMissingOne(k, n, upto)| == upto
    ensures HashesMissingOne(k, n, upto)[i] == Hash(k, Union(ClassesBut(n, i)))
  {
    if upto > 1 {
      HashesMissingOneAt(k, n, upto - 1, if i < upto - 1 then i else 0);
    }
  }

  /** `C0 | ... | Cn-1` is rejected against the same union without `Ci`. */
  lemma MissingClassRejected(w: World, idx: Index, n: nat, i: nat)
    requires i < n
    ensures !Compatible(Union(ClassesBut(n, n)), Union(ClassesBut(n, i)), idx)
  {
    ClassesButMembers(w, n, n, VClass(i));
    ClassesButMembers(w, n, i, VClass(i));
    var all, others := ClassesBut(n, n), ClassesBut(n, i);
    var j :| 0 <= j < |all| && Has(w, VClass(i), all[j]);
    forall h | 0 <= h < |others| ensures !Compatible(all[j], others[h], idx) {
      assert !Has(w, VClass(i), others[h]);
    }
    assert !Compatible(all[j], Union(others), idx);
  }

  /** A hash with fewer keys than `n` over `n` classes lies in one of the smaller hashes. */
  lemma CoveredByMissingOne(w: World, k: Ty, n: nat, v: Value)
    requires Has(w, v, Hash(k, Union(ClassesBut(n, n)))) && |v.entries.Keys| < n
    ensures Has(w, v, Union(HashesMissingOne(k, n, n)))
  {
    var c := Pigeonhole(v.entries, n);
    forall key | key in v.entries ensures Has(w, v.entries[key], Union(ClassesBut(n, c))) {
      ClassesButMembers(w, n, n, v.entries[key]);
      ClassesButMembers(w, n, c, v.entries[key]);
    }
    HashesMissingOneAt(k, n, n, c);
    assert Has(w, v, HashesMissingOne(k, n, n)[c]);
  }

  lemma ClassUnionIsPlain(w: World, idx: Index, n: nat, skip: nat)
    ensures WideKeys(Union(ClassesBut(n, skip))) && NoUnknown(Union(ClassesBut(n, skip)))
    ensures CompleteFor(Union(ClassesBut(n, skip)), idx)
    ensures 0 < n <= skip ==> Inhabited(Union(ClassesBut(n, skip)))
  {
    ClassesButMembers(w, n, skip, VClass(0));
  }

  /** A key type with only `n - 1` values cannot carry `n` different class objects at
      once, so `Hash[k, C0 | ... | Cn-1]` is covered by the hashes missing one class each.
      `compatible` looks at one parameter member at a time and rejects it. */
  lemma NarrowKeyRejectsInclusion(w: World, idx: Index, k: Ty) returns (x: Ty, p: Ty)
    requires !Wide(k) && NoUnknown(k) && Inhabited(k) && idx.Describes(w)
    ensures PlainFor(x, idx) && NoUnknown(p)
    ensures Included(w, Hash(k, x), p) && !Compatible(Hash(k, x), p, idx)
  {
    var n := |FiniteValues(k)| + 1;
    x := Union(ClassesBut(n, n));
    p := Union(HashesMissingOne(k, n, n));
    ClassUnionIsPlain(w, idx, n, n);
    HashesMissingOneAt(k, n, n, 0);
    forall i | 0 <= i < |p.parts|
      ensures NoUnknown(p.parts[i]) && !Compatible(Hash(k, x), p.parts[i], idx)
    {
      HashesMissingOneAt(k, n, n, i);
      ClassUnionIsPlain(w, idx, n, i);
      MissingClassRejected(w, idx, n, i);
    }
    forall v | Has(w, v, Hash(k, x)) ensures Has(w, v, p) {
      forall key | key in v.entries ensures key in FiniteValues(k) {
        FiniteValuesComplete(w, k, key);
      }
      CardinalityUpTo(v.entries.Keys, FiniteValues(k));
      CoveredByMissingOne(w, k, n, v);
    }
  }

  lemma {:induction false} CardinalityUpTo(a: set<Value>, b: set<Value>)
    requires a <= b
    ensures |a| <= |b|
  {
    if a != {} {
      var x :| x in a;
      CardinalityUpTo(a - {x}, b - {x});
    }
  }

  /** `compatible` does not reject `Hash[k, x]` against `p` when `p` covers it. */
  ghost predicate NoFalseRejection(w: World, idx: Index, k: Ty, x: Ty, p: Ty) {
    Included(w, Hash(k, x), p) ==> Compatible(Hash(k, x), p, idx)
  }

  predicate PlainFor(x: Ty, idx: Index) {
    Inhabited(x) && WideKeys(x) && NoUnknown(x) && CompleteFor(x, idx)
  }

  /** For every key type whose own hashes have wide keys, and every narrow one: `compatible` is exact on `Hash[k, x]`
      for all value types `x` and all parameters exactly when `k` is wide. */
  lemma HashExactIffWideKey(w: World, idx: Index, k: Ty)
    requires idx.Describes(w) && w.Transitive()
    requires Inhabited(k) && NoUnknown(k) && CompleteFor(k, idx) && (Wide(k) ==> WideKeys(k))
    ensures Wide(k) <==>
            forall x, p :: PlainFor(x, idx) && NoUnknown(p) ==> NoFalseRejection(w, idx, k, x, p)
  {
    if Wide(k) {
      forall x, p | PlainFor(x, idx) && NoUnknown(p) ensures NoFalseRejection(w, idx, k, x, p) {
        CompatibleIsInclusion(w, idx, Hash(k, x), p);
      }
    } else {
      var x, p := NarrowKeyRejectsInclusion(w, idx, k);
      assert PlainFor(x, idx) && !NoFalseRejection(w, idx, k, x, p);
    }
  }
}
