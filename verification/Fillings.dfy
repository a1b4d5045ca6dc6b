/** What `Unknown` inside a type means for `compatible`: an argument is accepted exactly when some way of filling in the
    unknowns of both types is, so a rejection stands whatever the unknowns stand for. */
module Fillings {
  import opened Types
  import opened Compat

  /** `t'` is `t` with each `Unknown`, at any depth, replaced by some type. */
  predicate Fills(t': Ty, t: Ty)
    decreases t
  {
    match t
    case Unknown => true
    case Array(e) => t'.Array? && Fills(t'.elem, e)
    case Hash(k, x) => t'.Hash? && Fills(t'.key, k) && Fills(t'.val, x)
    case Union(parts) =>
      t'.Union? && |t'.parts| == |parts| && forall i :: 0 <= i < |parts| ==> Fills(t'.parts[i], parts[i])
    case _ => t' == t
  }

  lemma {:induction false} FillsSelf(t: Ty)
    ensures Fills(t, t)
  {
    match t
    case Array(e) => FillsSelf(e);
    case Hash(k, x) => FillsSelf(k); FillsSelf(x);
    case Union(parts) => forall i | 0 <= i < |parts| ensures Fills(parts[i], parts[i]) { FillsSelf(parts[i]); }
    case _ =>
  }

  /** No filling rescues a rejected argument: `Unknown` always passes, at any depth. */
  lemma {:induction false} RejectionStands(a: Ty, p: Ty, a': Ty, p': Ty, idx: Index)
    requires !Compatible(a, p, idx) && Fills(a', a) && Fills(p', p)
    ensures !Compatible(a', p', idx)
    decreases a, p
  {
    if a.Union? {
      var i :| 0 <= i < |a.parts| && !Compatible(a.parts[i], p, idx);
      RejectionStands(a.parts[i], p, a'.parts[i], p', idx);
    } else if p.Union? {
      forall i | 0 <= i < |p.parts| ensures !Compatible(a', p'.parts[i], idx) {
        RejectionStands(a, p.parts[i], a', p'.parts[i], idx);
      }
    } else if a.Array? && p.Array? {
      RejectionStands(a.elem, p.elem, a'.elem, p'.elem, idx);
    } else if a.Hash? && p.Hash? {
      if !Compatible(a.key, p.key, idx) {
        RejectionStands(a.key, p.key, a'.key, p'.key, idx);
      } else {
        RejectionStands(a.val, p.val, a'.val, p'.val, idx);
      }
    }
  }

  // ----- an accepted argument has a filling that is accepted -----

  /** Some type, free of unknowns, that `p` accepts whatever its unknowns stand for, as long as they accept nil. */
  function Low(p: Ty): (t: Ty)
    requires Inhabited(p)
    ensures NoUnknown(t) && Inhabited(t)
  {
    match p
    case Unknown => Nil
    case Array(e) => Array(Low(e))
    case Hash(k, x) => Hash(Low(k), Low(x))
    case Union(parts) => Low(parts[0])
    case _ => p
  }

  /** The unknowns of `a`, filled with what `p` asks for in their place. */
  ghost function Lowered(a: Ty, p: Ty, idx: Index): (t: Ty)
    requires Inhabited(a) && Inhabited(p) && Compatible(a, p, idx)
    ensures Fills(t, a) && NoUnknown(t) && Inhabited(t)
    decreases a, p
  {
    if a.Unknown? then Low(p)
    else if p.Unknown? then Ground(a)
    else if a.Union? then
      Union(seq(|a.parts|, i requires 0 <= i < |a.parts| => Lowered(a.parts[i], p, idx)))
    else if p.Union? then
      var i :| 0 <= i < |p.parts| && Compatible(a, p.parts[i], idx);
      Lowered(a, p.parts[i], idx)
    else if a.Array? && p.Array? then Array(Lowered(a.elem, p.elem, idx))
    else if a.Hash? && p.Hash? then Hash(Lowered(a.key, p.key, idx), Lowered(a.val, p.val, idx))
    else a
  }

  /** All unknowns filled with nil. */
  function Ground(a: Ty): (t: Ty)
    requires Inhabited(a)
    ensures Fills(t, a) && NoUnknown(t) && Inhabited(t)
  {
    match a
    case Unknown => Nil
    case Array(e) => Array(Ground(e))
    case Hash(k, x) => Hash(Ground(k), Ground(x))
    case Union(parts) => Union(seq(|parts|, i requires 0 <= i < |parts| => Ground(parts[i])))
    case _ => a
  }

  /** All unknowns filled with `top`. */
  function Topped(p: Ty, top: Ty): (t: Ty)
    ensures Fills(t, p)
    ensures NoUnknown(top) ==> NoUnknown(t)
    ensures Inhabited(top) && Inhabited(p) ==> Inhabited(t)
  {
    match p
    case Unknown => top
    case Array(e) => Array(Topped(e, top))
    case Hash(k, x) => Hash(Topped(k, top), Topped(x, top))
    case Union(parts) => Union(seq(|parts|, i requires 0 <= i < |parts| => Topped(parts[i], top)))
    case _ => p
  }

  /** `t` and every type in it. */
  function Pieces(t: Ty): seq<Ty>
    decreases t, 1
  {
    [t] +
    match t
    case Array(e) => Pieces(e)
    case Hash(k, x) => Pieces(k) + Pieces(x)
    case Union(parts) => PiecesOf(parts)
    case _ => []
  }

  function PiecesOf(ts: seq<Ty>): seq<Ty>
    decreases ts, 0
  {
    if ts == [] then [] else Pieces(ts[0]) + PiecesOf(ts[1..])
  }

  predicate Sound(t: Ty) { NoUnknown(t) && Inhabited(t) }

  lemma {:induction false} PiecesSound(t: Ty)
    requires Sound(t)
    ensures forall s :: s in Pieces(t) ==> Sound(s)
    decreases t, 1
  {
    match t
    case Array(e) => PiecesSound(e);
    case Hash(k, x) => PiecesSound(k); PiecesSound(x);
    case Union(parts) => PiecesOfSound(parts);
    case _ =>
  }

  lemma {:induction false} PiecesOfSound(ts: seq<Ty>)
    requires forall i :: 0 <= i < |ts| ==> Sound(ts[i])
    ensures forall s :: s in PiecesOf(ts) ==> Sound(s)
    decreases ts, 0
  {
    if ts != [] {
      PiecesSound(ts[0]);
      PiecesOfSound(ts[1..]);
    }
  }

  lemma {:induction false} PiecesOfPart(ts: seq<Ty>, i: nat)
    requires i < |ts|
    ensures forall s :: s in Pieces(ts[i]) ==> s in PiecesOf(ts)
    decreases |ts|
  {
    if i > 0 { PiecesOfPart(ts[1..], i - 1); }
  }

  ghost predicate AllIn(ss: seq<Ty>, ts: seq<Ty>) { forall s :: s in ss ==> s in ts }

  /** What a member accepts the union accepts. */
  lemma {:induction false} MemberAccepts(a: Ty, ts: seq<Ty>, i: nat, idx: Index)
    requires i < |ts| && Compatible(a, ts[i], idx)
    ensures Compatible(a, Union(ts), idx)
    decreases a
  {
    if a.Union? && !ts[i].Unknown? {
      forall j | 0 <= j < |a.parts| ensures Compatible(a.parts[j], Union(ts), idx) {
        MemberAccepts(a.parts[j], ts, i, idx);
      }
    } else if a.Union? {
      forall j | 0 <= j < |a.parts| ensures Compatible(a.parts[j], Union(ts), idx) {
        MemberAccepts(a.parts[j], ts, i, idx);
      }
    }
  }

  lemma {:induction false} AcceptsItself(t: Ty, idx: Index)
    ensures Compatible(t, t, idx)
  {
    match t
    case Array(e) => AcceptsItself(e, idx);
    case Hash(k, x) => AcceptsItself(k, idx); AcceptsItself(x, idx);
    case Union(parts) =>
      forall i | 0 <= i < |parts| ensures Compatible(parts[i], t, idx) {
        AcceptsItself(parts[i], idx);
        MemberAccepts(parts[i], parts, i, idx);
      }
    case _ =>
  }

  lemma PieceAccepted(t: Ty, ts: seq<Ty>, idx: Index)
    requires t in ts
    ensures Compatible(t, Union(ts), idx)
  {
    var i :| 0 <= i < |ts| && ts[i] == t;
    AcceptsItself(t, idx);
    MemberAccepts(t, ts, i, idx);
  }

  lemma {:induction false} LowAccepted(p: Ty, ts: seq<Ty>, idx: Index)
    requires Inhabited(p) && Nil in ts
    ensures Compatible(Low(p), Topped(p, Union(ts)), idx)
  {
    match p
    case Unknown => PieceAccepted(Nil, ts, idx);
    case Array(e) => LowAccepted(e, ts, idx);
    case Hash(k, x) => LowAccepted(k, ts, idx); LowAccepted(x, ts, idx);
    case Union(parts) =>
      LowAccepted(parts[0], ts, idx);
      MemberAccepts(Low(p), Topped(p, Union(ts)).parts, 0, idx);
    case _ =>
  }

  lemma {:induction false} LoweredAccepted(a: Ty, p: Ty, ts: seq<Ty>, idx: Index)
    requires Inhabited(a) && Inhabited(p) && Compatible(a, p, idx)
    requires Nil in ts && AllIn(Pieces(Lowered(a, p, idx)), ts)
    ensures Compatible(Lowered(a, p, idx), Topped(p, Union(ts)), idx)
    decreases a, p
  {
    var t, top := Lowered(a, p, idx), Topped(p, Union(ts));
    if a.Unknown? {
      LowAccepted(p, ts, idx);
    } else if p.Unknown? {
      assert t in Pieces(t);
      PieceAccepted(t, ts, idx);
    } else if a.Union? {
      forall i | 0 <= i < |t.parts| ensures Compatible(t.parts[i], top, idx) {
        PiecesOfPart(t.parts, i);
        LoweredAccepted(a.parts[i], p, ts, idx);
      }
    } else if p.Union? {
      LoweredMember(a, p, ts, idx);
    } else if a.Array? && p.Array? {
      LoweredAccepted(a.elem, p.elem, ts, idx);
    } else if a.Hash? && p.Hash? {
      LoweredAccepted(a.key, p.key, ts, idx);
      LoweredAccepted(a.val, p.val, ts, idx);
    }
  }

  lemma {:induction false} LoweredMember(a: Ty, p: Ty, ts: seq<Ty>, idx: Index)
    requires Inhabited(a) && Inhabited(p) && Compatible(a, p, idx) && !a.Unknown? && !a.Union? && p.Union?
    requires Nil in ts && AllIn(Pieces(Lowered(a, p, idx)), ts)
    ensures Compatible(Lowered(a, p, idx), Topped(p, Union(ts)), idx)
    decreases a, p, 0
  {
    var t := Lowered(a, p, idx);
    var i :| 0 <= i < |p.parts| && Compatible(a, p.parts[i], idx) && t == Lowered(a, p.parts[i], idx);
    LoweredAccepted(a, p.parts[i], ts, idx);
    MemberAccepts(t, Topped(p, Union(ts)).parts, i, idx);
  }

  /** `t'` is one way to read `t` without unknowns. */
  predicate Reads(t': Ty, t: Ty) { Fills(t', t) && NoUnknown(t') && Inhabited(t') }

  ghost predicate SomeReadingAccepted(a: Ty, p: Ty, idx: Index) {
    exists a', p' :: Reads(a', a) && Reads(p', p) && Compatible(a', p', idx)
  }

  /** Exactly: an argument is accepted when the unknowns of both types can be filled in so that it is. */
  lemma AcceptedIffSomeReading(a: Ty, p: Ty, idx: Index)
    requires Inhabited(a) && Inhabited(p)
    ensures Compatible(a, p, idx) <==> SomeReadingAccepted(a, p, idx)
  {
    if Compatible(a, p, idx) {
      AcceptedReading(a, p, idx);
    } else if SomeReadingAccepted(a, p, idx) {
      var a', p' :| Reads(a', a) && Reads(p', p) && Compatible(a', p', idx);
      RejectionStands(a, p, a', p', idx);
    }
  }

  lemma AcceptedReading(a: Ty, p: Ty, idx: Index)
    requires Inhabited(a) && Inhabited(p) && Compatible(a, p, idx)
    ensures SomeReadingAccepted(a, p, idx)
  {
    var a' := Lowered(a, p, idx);
    var ts := [Nil] + Pieces(a');
    TopSound(a', ts);
    LoweredAccepted(a, p, ts, idx);
    ReadingFound(a, p, a', Topped(p, Union(ts)), idx);
  }

  lemma ReadingFound(a: Ty, p: Ty, a': Ty, p': Ty, idx: Index)
    requires Reads(a', a) && Reads(p', p) && Compatible(a', p', idx)
    ensures SomeReadingAccepted(a, p, idx)
  {}

  lemma TopSound(a': Ty, ts: seq<Ty>)
    requires Sound(a') && ts == [Nil] + Pieces(a')
    ensures Sound(Union(ts)) && Nil in ts && AllIn(Pieces(a'), ts)
  {
    PiecesSound(a');
    forall i | 0 <= i < |ts| ensures Sound(ts[i]) {
      if i > 0 { assert ts[i] == Pieces(a')[i - 1] && ts[i] in Pieces(a'); }
    }
    assert ts[0] == Nil;
  }

  /** A rejected argument type has, under every filling, a value outside the parameter type. */
  lemma RejectedWitness(w: World, idx: Index, a: Ty, p: Ty, a': Ty, p': Ty) returns (v: Value)
    requires idx.Describes(w) && !Compatible(a, p, idx) && Fills(a', a) && Fills(p', p)
    requires Inhabited(a') && WideKeys(a')
    ensures Has(w, v, a') && !Has(w, v, p')
  {
    RejectionStands(a, p, a', p', idx);
    v := Refute(w, idx, a', p');
  }
}
