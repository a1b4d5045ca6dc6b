/** The environment as `infer_expr_inner` holds it: one map, updated in place by the
    branch join and the loop merge. Both visit names in no fixed order. */
module Locals {
  import opened Types
  import opened Flow

  class LocalEnv {
    var env: Env

    constructor (start: Env)
      ensures env == start
    {
      env := start;
    }

    /** One name's join across the branches: the inner loop of `join_envs`. */
    method JoinOne(branches: seq<Env>, key: string) returns (ty: Option<Ty>)
      ensures ty == if branches == [] then None else Some(JoinedTy(env, branches, key))
    {
      ghost var tys := BranchTys(env, branches, key);
      ty := None;
      for i := 0 to |branches|
        invariant i == 0 ==> ty == None
        invariant i > 0 ==> ty.Some? && JoinAll(ty.value, tys[i..]) == JoinedTy(env, branches, key)
      {
        var t := if key in branches[i] then branches[i][key] else if key in env then env[key] else Nil;
        assert t == tys[i..][0] && tys[i..][1..] == tys[i + 1..];
        ty := Some(if ty.Some? then Join(ty.value, t) else t);
      }
    }

    /** `join_envs`: the result is the same in whatever order the names come up. */
    method JoinBranches(branches: seq<Env>)
      modifies this
      ensures env == JoinEnvs(old(env), branches)
    {
      var keys: set<string> := {};
      for i := 0 to |branches|
        invariant env == old(env)
        invariant keys + BranchKeys(branches[i..]) == BranchKeys(branches)
      {
        assert branches[i..][0] == branches[i] && branches[i..][1..] == branches[i + 1..];
        keys := keys + branches[i].Keys;
      }
      ghost var all := keys;
      while keys != {}
        invariant keys <= all == BranchKeys(branches)
        invariant env.Keys == old(env).Keys + (all - keys)
        invariant forall x :: x in env && (x in keys || x !in all) ==> env[x] == old(env)[x]
        invariant forall x :: x in all - keys ==> branches != [] && env[x] == JoinedTy(old(env), branches, x)
      {
        var key :| key in keys;
        var ty := JoinOne(branches, key);
        assert BranchTys(env, branches, key) == BranchTys(old(env), branches, key);
        if ty.Some? { env := env[key := ty.value]; }
        keys := keys - {key};
      }
    }

    /** `merge_loop_env` */
    method MergeLoopBody(body: Env)
      modifies this
      ensures env == MergeLoop(old(env), body)
    {
      var keys := body.Keys;
      while keys != {}
        invariant keys <= body.Keys
        invariant env.Keys == old(env).Keys + (body.Keys - keys)
        invariant forall x :: x in env && (x in keys || x !in body) ==> env[x] == old(env)[x]
        invariant forall x :: x in body.Keys - keys ==> env[x] == MergeLoop(old(env), body)[x]
      {
        var k :| k in keys;
        keys := keys - {k};
        if k in env && env[k] == body[k] { continue; }
        env := env[k := Join(if k in env then env[k] else Nil, body[k])];
      }
    }
  }
}
