/** The call-site census of `ita check --stats`: one bucket per call, with breakdowns of
    the two blind buckets. */
module Census {
  import opened Types

  datatype Bucket =
    | Resolved | CoreCall | RbiMethod | DslMethod | ArApiMethod | InconclusiveCall | UnknownReceiver | Diagnosed

  /** Why an expression carries no type. */
  datatype Origin =
    | FromParam | FromBlockParam | FromCoreRet | FromProjectRet | FromChain | FromIvar | FromConst | FromOther

  /** Why a callee's own return died on `Unknown`. */
  datatype RetCause = CauseParam | CauseIvar | CauseConst | CauseExplicit | CauseOther

  /** What keeps an ancestry open: an unresolved name, a declared external class, or one
      of the project's own constructs, grouped as the census groups them. */
  datatype Blocker = UnresolvedName | DeclaredExternal | Dsl | BlockBody | Meta | MethodMissing | OtherOpen

  datatype Buckets = Buckets(
    resolved: nat, core: nat, rbiMethod: nat, dslMethod: nat, arApiMethod: nat,
    inconclusive: nat, unknownReceiver: nat, diagnosed: nat)
  {
    function Sum(): nat {
      resolved + core + rbiMethod + dslMethod + arApiMethod + inconclusive + unknownReceiver + diagnosed
    }
  }

  /** `unk_*`: why the receiver was unknown. */
  datatype Origins = Origins(
    param: nat, blockParam: nat, coreRet: nat, projectRet: nat, chain: nat, ivar: nat, constant: nat, other: nat)
  {
    function Sum(): nat { param + blockParam + coreRet + projectRet + chain + ivar + constant + other }
  }

  /** `ret_*`: why the project callee's return was unknown. */
  datatype Causes = Causes(param: nat, ivar: nat, constant: nat, explicit: nat, other: nat, unresolved: nat)
  {
    function Sum(): nat { param + ivar + constant + explicit + other + unresolved }
  }

  /** `anc_*`: what kept the lookup inconclusive. */
  datatype Ancestry = Ancestry(
    unresolved: nat, declared: nat, dsl: nat, block: nat, meta: nat, missing: nat, other: nat, na: nat)
  {
    function Sum(): nat { unresolved + declared + dsl + block + meta + missing + other + na }
  }

  datatype CallStats = CallStats(buckets: Buckets, unk: Origins, ret: Causes, anc: Ancestry, notArApi: nat)
  {
    function Total(): nat { buckets.Sum() }

    /** The breakdowns that always add up. */
    predicate Adds() {
      unk.Sum() == buckets.unknownReceiver && ret.Sum() == unk.projectRet && notArApi <= anc.declared
    }
  }

  /** `CallStats::default()`: no counter is positive. */
  predicate Blank(s: CallStats) {
    s.Total() < 1 && s.unk.Sum() < 1 && s.ret.Sum() < 1 && s.anc.Sum() < 1 && s.notArApi < 1
  }

  /** `tally` */
  function Bump(s: CallStats, b: Bucket): CallStats {
    var t := s.buckets;
    s.(buckets :=
      match b
      case Resolved => t.(resolved := t.resolved + 1)
      case CoreCall => t.(core := t.core + 1)
      case RbiMethod => t.(rbiMethod := t.rbiMethod + 1)
      case DslMethod => t.(dslMethod := t.dslMethod + 1)
      case ArApiMethod => t.(arApiMethod := t.arApiMethod + 1)
      case InconclusiveCall => t.(inconclusive := t.inconclusive + 1)
      case UnknownReceiver => t.(unknownReceiver := t.unknownReceiver + 1)
      case Diagnosed => t.(diagnosed := t.diagnosed + 1))
  }

  /** The `unk_*` half of `tally_unknown_receiver`. */
  function BumpOrigin(s: CallStats, o: Origin): CallStats {
    var t := s.unk;
    s.(unk :=
      match o
      case FromParam => t.(param := t.param + 1)
      case FromBlockParam => t.(blockParam := t.blockParam + 1)
      case FromCoreRet => t.(coreRet := t.coreRet + 1)
      case FromProjectRet => t.(projectRet := t.projectRet + 1)
      case FromChain => t.(chain := t.chain + 1)
      case FromIvar => t.(ivar := t.ivar + 1)
      case FromConst => t.(constant := t.constant + 1)
      case FromOther => t.(other := t.other + 1))
  }

  /** `tally_ret_cause`; `None` is a project return with no callee. */
  function BumpCause(s: CallStats, c: Option<RetCause>): CallStats {
    var t := s.ret;
    s.(ret :=
      match c
      case None => t.(unresolved := t.unresolved + 1)
      case Some(CauseParam) => t.(param := t.param + 1)
      case Some(CauseIvar) => t.(ivar := t.ivar + 1)
      case Some(CauseConst) => t.(constant := t.constant + 1)
      case Some(CauseExplicit) => t.(explicit := t.explicit + 1)
      case Some(CauseOther) => t.(other := t.other + 1))
  }

  /** `tally_ancestry`; no blocker means the ancestry is not the cause. */
  function BumpAncestry(s: CallStats, b: Option<Blocker>): CallStats {
    var t := s.anc;
    s.(anc :=
      match b
      case None => t.(na := t.na + 1)
      case Some(UnresolvedName) => t.(unresolved := t.unresolved + 1)
      case Some(DeclaredExternal) => t.(declared := t.declared + 1)
      case Some(Dsl) => t.(dsl := t.dsl + 1)
      case Some(BlockBody) => t.(block := t.block + 1)
      case Some(Meta) => t.(meta := t.meta + 1)
      case Some(MethodMissing) => t.(missing := t.missing + 1)
      case Some(OtherOpen) => t.(other := t.other + 1))
  }

  /** `ret_cause_of` */
  function CauseOf(o: Origin): RetCause {
    match o
    case FromParam => CauseParam
    case FromBlockParam => CauseParam
    case FromIvar => CauseIvar
    case FromConst => CauseConst
    case _ => CauseOther
  }
}
