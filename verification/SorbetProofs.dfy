/** What the sorbet scanner guarantees: it never invents a project type, resolving names
    only refines it, and it reads back every type expression of its grammar. */
module SorbetProofs {
  import opened Types
  import opened SorbetSig

  // ----- never a project type -----

  /** No `Instance` and no `Class` at any depth. */
  predicate CoreOnly(t: Ty) {
    match t
    case Instance(_) => false
    case Class(_) => false
    case Array(e) => CoreOnly(e)
    case Hash(k, v) => CoreOnly(k) && CoreOnly(v)
    case Union(parts) => forall i :: 0 <= i < |parts| ==> CoreOnly(parts[i])
    case _ => true
  }

  lemma {:induction false} JoinCoreOnly(a: Ty, b: Ty)
    requires CoreOnly(a) && CoreOnly(b)
    ensures CoreOnly(Join(a, b))
  {
    var ms := Members(a) + Members(b);
    UniqElements(ms);
    assert forall m :: m in ms ==> CoreOnly(m);
    assert forall m :: m in Uniq(ms) ==> CoreOnly(m);
  }

  lemma {:induction false} JoinAllCoreOnly(acc: Ty, ts: seq<Ty>)
    requires CoreOnly(acc) && forall i :: 0 <= i < |ts| ==> CoreOnly(ts[i])
    ensures CoreOnly(JoinAll(acc, ts))
    decreases |ts|
  {
    if ts != [] {
      JoinCoreOnly(acc, ts[0]);
      JoinAllCoreOnly(Join(acc, ts[0]), ts[1..]);
    }
  }

  /** `sorbet_ret_ty` yields a core type on every text. */
  lemma {:induction false} BlindIsCoreOnly(expr: string)
    ensures CoreOnly(SorbetRetTy(expr))
    decreases |expr|, 1
  {
    CompoundCoreOnly(Trim(DropCbase(Trim(expr))));
  }

  lemma {:induction false} CompoundCoreOnly(s: string)
    ensures Compound(s, MISS).Some? ==> CoreOnly(Compound(s, MISS).value)
    decreases |s|, 0
  {
    var nilable := StripForm(s, "T.nilable", '(', ')');
    var list := StripForm(s, "T::Array", '[', ']');
    var hash := StripForm(s, "T::Hash", '[', ']');
    var any := StripForm(s, "T.any", '(', ')');
    if nilable.Some? {
      BlindIsCoreOnly(nilable.value);
      JoinCoreOnly(SorbetRetTy(nilable.value), Nil);
    } else if list.Some? {
      BlindIsCoreOnly(list.value);
    } else if hash.Some? {
      PartsCoreOnly(hash.value);
    } else if any.Some? {
      PartsCoreOnly(any.value);
      var tys := ParseParts(any.value, MISS);
      if tys != [] { JoinAllCoreOnly(tys[0], tys[1..]); }
    }
  }

  lemma {:induction false} PartsCoreOnly(inner: string)
    ensures forall i :: 0 <= i < |ParseParts(inner, MISS)| ==> CoreOnly(ParseParts(inner, MISS)[i])
    decreases |inner|, 3
  {
    SplitFits(inner, 0, [], |inner|);
    NonEmptyIn(SplitRest(inner, 0, []));
    AllCoreOnly(SplitTopLevel(inner), |inner|);
  }

  lemma {:induction false} AllCoreOnly(parts: seq<string>, bound: nat)
    requires forall p :: p in parts ==> |p| <= bound
    ensures forall i :: 0 <= i < |parts| ==> CoreOnly(ParseAll(parts, bound, MISS)[i])
    decreases bound, 2, |parts|
  {
    if parts != [] {
      BlindIsCoreOnly(parts[0]);
      AllCoreOnly(parts[1..], bound);
    }
  }

  // ----- resolving refines -----

  ghost predicate Within(w: World, a: Ty, b: Ty) {
    forall v :: Has(w, v, a) ==> Has(w, v, b)
  }

  ghost predicate AllWithin(w: World, as_: seq<Ty>, bs: seq<Ty>) {
    |as_| == |bs| && forall i :: 0 <= i < |as_| ==> Within(w, as_[i], bs[i])
  }

  lemma JoinWithin(w: World, a: Ty, a': Ty, b: Ty)
    requires Within(w, a, a')
    ensures Within(w, Join(a, b), Join(a', b))
  {
    forall v | Has(w, v, Join(a, b)) ensures Has(w, v, Join(a', b)) {
      JoinMeaning(w, v, a, b);
      JoinMeaning(w, v, a', b);
    }
  }

  lemma JoinAllWithin(w: World, as_: seq<Ty>, bs: seq<Ty>)
    requires AllWithin(w, as_, bs) && as_ != []
    ensures Within(w, JoinAll(as_[0], as_[1..]), JoinAll(bs[0], bs[1..]))
  {
    forall v | Has(w, v, JoinAll(as_[0], as_[1..])) ensures Has(w, v, JoinAll(bs[0], bs[1..])) {
      JoinAllMeaning(w, v, as_[0], as_[1..]);
      JoinAllMeaning(w, v, bs[0], bs[1..]);
      if i :| 0 <= i < |as_[1..]| && Has(w, v, as_[1..][i]) {
        assert Within(w, as_[i + 1], bs[i + 1]) && Has(w, v, bs[1..][i]);
      }
    }
  }

  /** For every text and resolver, the resolved reading holds no value the index-blind one
      does not. */
  lemma {:induction false} ResolvingRefines(w: World, expr: string, resolve: Resolver)
    ensures Within(w, Parse(expr, resolve), SorbetRetTy(expr))
    decreases |expr|, 1
  {
    CompoundRefines(w, Trim(DropCbase(Trim(expr))), resolve);
  }

  lemma {:induction false} CompoundRefines(w: World, s: string, resolve: Resolver)
    ensures Compound(s, resolve).Some? <==> Compound(s, MISS).Some?
    ensures Compound(s, resolve).Some? ==> Within(w, Compound(s, resolve).value, Compound(s, MISS).value)
    decreases |s|, 0
  {
    var nilable := StripForm(s, "T.nilable", '(', ')');
    var list := StripForm(s, "T::Array", '[', ']');
    var hash := StripForm(s, "T::Hash", '[', ']');
    var any := StripForm(s, "T.any", '(', ')');
    if nilable.Some? {
      ResolvingRefines(w, nilable.value, resolve);
      JoinWithin(w, Parse(nilable.value, resolve), SorbetRetTy(nilable.value), Nil);
    } else if list.Some? {
      ResolvingRefines(w, list.value, resolve);
    } else if hash.Some? {
      PartsRefine(w, hash.value, resolve);
    } else if any.Some? {
      PartsRefine(w, any.value, resolve);
      if ParseParts(any.value, resolve) != [] {
        JoinAllWithin(w, ParseParts(any.value, resolve), ParseParts(any.value, MISS));
      }
    }
  }

  lemma {:induction false} PartsRefine(w: World, inner: string, resolve: Resolver)
    ensures AllWithin(w, ParseParts(inner, resolve), ParseParts(inner, MISS))
    decreases |inner|, 3
  {
    SplitFits(inner, 0, [], |inner|);
    NonEmptyIn(SplitRest(inner, 0, []));
    AllRefine(w, SplitTopLevel(inner), |inner|, resolve);
  }

  lemma {:induction false} AllRefine(w: World, parts: seq<string>, bound: nat, resolve: Resolver)
    requires forall p :: p in parts ==> |p| <= bound
    ensures AllWithin(w, ParseAll(parts, bound, resolve), ParseAll(parts, bound, MISS))
    decreases bound, 2, |parts|
  {
    if parts != [] {
      ResolvingRefines(w, parts[0], resolve);
      AllRefine(w, parts[1..], bound, resolve);
    }
  }

  /** The index-aware layer: every answer of `resolve_ret_ty` lies inside `sorbet_ret_ty`'s. */
  lemma ResolveRetTyRefines(w: World, expr: string, resolve: string -> Option<ClassId>)
    ensures Within(w, ResolveRetTy(Some(expr), resolve), SorbetRetTy(expr))
  {
    ResolvingRefines(w, expr, n => if resolve(n).Some? then Some(Instance(resolve(n).value)) else None);
  }

  /** A resolver that always misses changes nothing. */
  lemma {:induction false} MissAgrees(expr: string, resolve: Resolver)
    requires forall n :: resolve(n).None?
    ensures Parse(expr, resolve) == SorbetRetTy(expr)
    decreases |expr|, 1
  {
    MissCompoundAgrees(Trim(DropCbase(Trim(expr))), resolve);
  }

  lemma {:induction false} MissCompoundAgrees(s: string, resolve: Resolver)
    requires forall n :: resolve(n).None?
    ensures Compound(s, resolve) == Compound(s, MISS)
    decreases |s|, 0
  {
    var nilable := StripForm(s, "T.nilable", '(', ')');
    var list := StripForm(s, "T::Array", '[', ']');
    var hash := StripForm(s, "T::Hash", '[', ']');
    var any := StripForm(s, "T.any", '(', ')');
    if nilable.Some? {
      MissAgrees(nilable.value, resolve);
    } else if list.Some? {
      MissAgrees(list.value, resolve);
    } else if hash.Some? {
      MissPartsAgree(hash.value, resolve);
    } else if any.Some? {
      MissPartsAgree(any.value, resolve);
    }
  }

  lemma {:induction false} MissPartsAgree(inner: string, resolve: Resolver)
    requires forall n :: resolve(n).None?
    ensures ParseParts(inner, resolve) == ParseParts(inner, MISS)
    decreases |inner|, 3
  {
    SplitFits(inner, 0, [], |inner|);
    NonEmptyIn(SplitRest(inner, 0, []));
    MissAllAgree(SplitTopLevel(inner), |inner|, resolve);
  }

  lemma {:induction false} MissAllAgree(parts: seq<string>, bound: nat, resolve: Resolver)
    requires forall n :: resolve(n).None?
    requires forall p :: p in parts ==> |p| <= bound
    ensures ParseAll(parts, bound, resolve) == ParseAll(parts, bound, MISS)
    decreases bound, 2, |parts|
  {
    if parts != [] {
      MissAgrees(parts[0], resolve);
      MissAllAgree(parts[1..], bound, resolve);
    }
  }
}
