/** What a run and its rollback do under any environment, provider by provider
    (internal/core/apply.go): who is asked, what becomes of it, and whom the errors name. */
module Rollbacks {
  import opened Model
  import opened Planner
  import opened Steps
  import opened Runs

  ghost predicate ReportsSuccess(r: Reply) {
    r == Done || exists s :: r == Rogue(true, s)
  }

  lemma AcceptedIff(r: Reply)
    ensures Accepted(r) <==> ReportsSuccess(r)
  {
    if r.Rogue? && r.ok { assert r == Rogue(true, r.after); }
  }

  /** A provider that does what it is asked has made the change; one that refuses is as it was. */
  ghost predicate Became(before: Slot, after: Slot, c: Change, r: Reply)
    requires before.EdgeSlot? <==> c.OnEdge?
  {
    (r == Done ==> after == Effect(before, c)) && (r == Refused ==> after == before)
  }

  /** The forward loop asks the steps it reaches, each once, and no one else. */
  lemma {:induction false} ForwardAsks(w: World, steps: seq<Step>, env: Env, k: nat, t: Target)
    requires StepsFit(w, steps) && DistinctTargets(steps) && k <= |steps| && Within(w, t)
    ensures (forall i :: 0 <= i < k ==> steps[i].target != t) ==> Get(Forward(w, steps, env, k), t) == Get(w, t)
    ensures forall i :: 0 <= i < k && steps[i].target == t ==> Became(Get(w, t), Get(Forward(w, steps, env, k), t), steps[i].fwd, env.onDo(t))
  {
    if k > 0 {
      ForwardAsks(w, steps, env, k - 1, t);
    }
  }

  /** It goes on exactly as long as success is reported. */
  lemma ForwardStops(steps: seq<Step>, env: Env, k: nat)
    ensures Stops(steps, env) == k <==>
      && k <= |steps| && (forall i :: 0 <= i < k ==> ReportsSuccess(env.onDo(steps[i].target)))
      && (k < |steps| ==> !ReportsSuccess(env.onDo(steps[k].target)))
  {
    forall r ensures Accepted(r) <==> ReportsSuccess(r) {
      AcceptedIff(r);
    }
  }

  predicate IsWedged(env: Env, t: Target) {
    t.EdgeAt? && env.wedged(t.edge)
  }

  /** Rollback asks every applied step's provider once, but for wedged edges, and no one else. */
  lemma {:induction false} RollbackAsks(w: World, steps: seq<Step>, env: Env, j: nat, t: Target)
    requires StepsFit(w, steps) && DistinctTargets(steps) && j <= |steps| && Within(w, t)
    ensures IsWedged(env, t) || (forall i :: j <= i < |steps| ==> steps[i].target != t) ==> Get(Back(w, steps, env, j), t) == Get(w, t)
    ensures forall i :: j <= i < |steps| && steps[i].target == t && !IsWedged(env, t) ==>
      Became(Get(w, t), Get(Back(w, steps, env, j), t), steps[i].inv, env.onUndo(t))
    decreases |steps| - j
  {
    if j < |steps| {
      RollbackAsks(w, steps, env, j + 1, t);
    }
  }

  /** The errors name exactly the applied steps' providers that are wedged or whose compensator
      did not report success. */
  lemma {:induction false} ErrorsIff(steps: seq<Step>, env: Env, j: nat, t: Target)
    requires j <= |steps|
    ensures t in RollbackErrors(steps, env, j) <==>
      (exists i :: j <= i < |steps| && steps[i].target == t) && (IsWedged(env, t) || !ReportsSuccess(env.onUndo(t)))
    decreases |steps| - j
  {
    AcceptedIff(env.onUndo(t));
    if j < |steps| {
      ErrorsIff(steps, env, j + 1, t);
    }
  }

  lemma {:induction false} ErrorsFrom(steps: seq<Step>, env: Env, j: nat)
    requires j <= |steps|
    ensures RollbackErrors(steps, env, j) == RollbackErrors(steps[j..], env, 0)
    decreases |steps| - j
  {
    if j < |steps| {
      ErrorsFrom(steps, env, j + 1);
      ErrorsFrom(steps[j..], env, 1);
      assert steps[j..][1..] == steps[j + 1..];
    }
  }

  /** They are named in reverse: later steps' first. */
  lemma {:induction false} ErrorsReversed(a: seq<Step>, b: seq<Step>, env: Env)
    ensures RollbackErrors(a + b, env, 0) == RollbackErrors(b, env, 0) + RollbackErrors(a, env, 0)
  {
    if a == [] {
      assert a + b == b;
      assert RollbackErrors(b, env, 0) + [] == RollbackErrors(b, env, 0);
    } else {
      ErrorsReversed(a[1..], b, env);
      assert (a + b)[1..] == a[1..] + b;
      ErrorsFrom(a + b, env, 1);
      ErrorsFrom(a, env, 1);
    }
  }
}
