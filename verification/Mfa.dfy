/**
  The multi-factor store: a pending or active TOTP secret per tenant, the
  replay watermark and the unused recovery-code hashes.
 */
module Mfa {

  datatype Row = Row(secret: string, active: bool, lastStep: int, recovery: set<string>)

  type Records = map<string, Row>

  datatype Op =
    | Begin(tenant: string, secret: string)
    | Activate(tenant: string, secret: string, step: int, hashes: seq<string>)
    | Mark(tenant: string, step: int)
    | Consume(tenant: string, hash: string)
    | Disable(tenant: string)
    | DisablePending(tenant: string)

  /** Yes and No are the booleans of Mark, Consume and DisablePending; Yes is also success of the others. */
  datatype Reply = Yes | No | BadArgument | AlreadyActive | NotEnrolled

  function Hashes(hs: seq<string>): set<string> { set h | h in hs }

  predicate IsActive(rec: Records, tenant: string) { tenant in rec && rec[tenant].active }

  predicate IsPending(rec: Records, tenant: string) { tenant in rec && !rec[tenant].active }

  // ---------------------------------------------------------------- what one call does

  function Apply(rec: Records, op: Op): (Records, Reply) {
    match op
    case Begin(tenant, secret) =>
      if tenant == "" || secret == "" then (rec, BadArgument)
      else if IsActive(rec, tenant) then (rec, AlreadyActive)
      else (rec[tenant := Row(secret, false, 0, {})], Yes)
    case Activate(tenant, secret, step, hashes) =>
      if !IsPending(rec, tenant) || rec[tenant].secret != secret then (rec, NotEnrolled)
      else (rec[tenant := Row(secret, true, step, Hashes(hashes))], Yes)
    case Mark(tenant, step) =>
      if IsActive(rec, tenant) && step > rec[tenant].lastStep
      then (rec[tenant := rec[tenant].(lastStep := step)], Yes) else (rec, No)
    case Consume(tenant, hash) =>
      if IsActive(rec, tenant) && hash in rec[tenant].recovery
      then (rec[tenant := rec[tenant].(recovery := rec[tenant].recovery - {hash})], Yes) else (rec, No)
    case Disable(tenant) =>
      (rec - {tenant}, Yes)
    case DisablePending(tenant) =>
      if IsPending(rec, tenant) then (rec - {tenant}, Yes) else (rec, No)
  }

  class MemoryMFAStore {
    var rec: Records

    constructor ()
      ensures rec == map[]
    {
      rec := map[];
    }

    method BeginEnrollment(tenant: string, secret: string) returns (reply: Reply)
      modifies this
      ensures (rec, reply) == Apply(old(rec), Begin(tenant, secret))
    {
      if tenant == "" || secret == "" {
        return BadArgument;
      }
      if tenant in rec && rec[tenant].active {
        return AlreadyActive;
      }
      rec := rec[tenant := Row(secret, false, 0, {})];
      return Yes;
    }

    method ActivateMFA(tenant: string, secret: string, firstStep: int, hashes: seq<string>) returns (reply: Reply)
      modifies this
      ensures (rec, reply) == Apply(old(rec), Activate(tenant, secret, firstStep, hashes))
    {
      if tenant !in rec {
        return NotEnrolled;
      }
      var row := rec[tenant];
      if row.active {
        return NotEnrolled;
      }
      if row.secret != secret {
        return NotEnrolled;
      }
      var recovery: set<string> := {};
      for i := 0 to |hashes|
        invariant recovery == Hashes(hashes[..i])
      {
        recovery := recovery + {hashes[i]};
      }
      assert hashes[..|hashes|] == hashes;
      rec := rec[tenant := Row(row.secret, true, firstStep, recovery)];
      return Yes;
    }

    method MarkTOTPStep(tenant: string, step: int) returns (reply: Reply)
      modifies this
      ensures (rec, reply) == Apply(old(rec), Mark(tenant, step))
    {
      if tenant !in rec || !rec[tenant].active {
        return No;
      }
      if step <= rec[tenant].lastStep {
        return No;
      }
      rec := rec[tenant := rec[tenant].(lastStep := step)];
      return Yes;
    }

    method ConsumeRecoveryCode(tenant: string, hash: string) returns (reply: Reply)
      modifies this
      ensures (rec, reply) == Apply(old(rec), Consume(tenant, hash))
    {
      if tenant !in rec || !rec[tenant].active {
        return No;
      }
      if hash !in rec[tenant].recovery {
        return No;
      }
      rec := rec[tenant := rec[tenant].(recovery := rec[tenant].recovery - {hash})];
      return Yes;
    }

    method DisableMFA(tenant: string)
      modifies this
      ensures rec == Apply(old(rec), Disable(tenant)).0
    {
      rec := rec - {tenant};
    }

    method DisablePendingMFA(tenant: string) returns (reply: Reply)
      modifies this
      ensures (rec, reply) == Apply(old(rec), DisablePending(tenant))
    {
      if tenant !in rec || rec[tenant].active {
        return No;
      }
      rec := rec - {tenant};
      return Yes;
    }
  }

  // ---------------------------------------------------------------- runs

  function Exec(run: seq<Op>, n: nat): Records
    requires n <= |run|
  {
    if n == 0 then map[] else Apply(Exec(run, n - 1), run[n - 1]).0
  }

  predicate Accepted(run: seq<Op>, i: nat) {
    i < |run| && Apply(Exec(run, i), run[i]).1 == Yes
  }

  predicate Activated(run: seq<Op>, i: nat, tenant: string) {
    Accepted(run, i) && run[i].Activate? && run[i].tenant == tenant
  }

  predicate Marked(run: seq<Op>, i: nat, tenant: string) {
    Accepted(run, i) && run[i].Mark? && run[i].tenant == tenant
  }

  predicate Consumed(run: seq<Op>, i: nat, tenant: string, hash: string) {
    Accepted(run, i) && run[i].Consume? && run[i].tenant == tenant && run[i].hash == hash
  }

  predicate NoDisable(run: seq<Op>, m: nat, n: nat, tenant: string) {
    forall i :: m <= i < n && i < |run| ==> !(run[i].Disable? && run[i].tenant == tenant)
  }

  /** While the tenant is not disabled an active row stays active and its watermark never falls. */
  lemma StepKeepsActive(rec: Records, op: Op, tenant: string)
    requires IsActive(rec, tenant) && !(op.Disable? && op.tenant == tenant)
    ensures IsActive(Apply(rec, op).0, tenant)
    ensures Apply(rec, op).0[tenant].lastStep >= rec[tenant].lastStep
    ensures Apply(rec, op).1 == Yes && op.Mark? && op.tenant == tenant ==>
              op.step > rec[tenant].lastStep && Apply(rec, op).0[tenant].lastStep == op.step
    ensures Apply(rec, op).0[tenant].lastStep > rec[tenant].lastStep ==>
              Apply(rec, op).1 == Yes && op.Mark? && op.tenant == tenant
  {
  }

  lemma {:induction false} WatermarkRises(run: seq<Op>, m: nat, n: nat, tenant: string)
    requires m <= n <= |run| && IsActive(Exec(run, m), tenant) && NoDisable(run, m, n, tenant)
    ensures IsActive(Exec(run, n), tenant) && Exec(run, n)[tenant].lastStep >= Exec(run, m)[tenant].lastStep
  {
    if m < n {
      WatermarkRises(run, m, n - 1, tenant);
      StepKeepsActive(Exec(run, n - 1), run[n - 1], tenant);
    }
  }

  /**
    Between an Activate and the next Disable the accepted TOTP steps are above
    the activating step and strictly increasing, so no code is accepted twice.
   */
  lemma StepsIncrease(run: seq<Op>, tenant: string, a: nat, i: nat, j: nat)
    requires a < i < j && Activated(run, a, tenant) && NoDisable(run, a + 1, j, tenant)
    requires Marked(run, i, tenant) && Marked(run, j, tenant)
    ensures run[a].step < run[i].step < run[j].step
  {
    ActivateSets(Exec(run, a), run[a]);
    WatermarkRises(run, a + 1, i, tenant);
    StepKeepsActive(Exec(run, i), run[i], tenant);
    WatermarkRises(run, i + 1, j, tenant);
    StepKeepsActive(Exec(run, j), run[j], tenant);
  }

  lemma ActivateSets(rec: Records, op: Op)
    requires op.Activate? && Apply(rec, op).1 == Yes
    ensures IsActive(Apply(rec, op).0, op.tenant) && Apply(rec, op).0[op.tenant].lastStep == op.step
  {
  }

  /** No step presented since the activation was accepted unless it is below this one. */
  ghost predicate AboveAll(run: seq<Op>, tenant: string, a: nat, n: nat, step: int)
    requires a < n <= |run| && run[a].Activate?
  {
    step > run[a].step && forall j :: a < j < n && Marked(run, j, tenant) ==> step > run[j].step
  }

  lemma {:induction false} WatermarkIsHighest(run: seq<Op>, tenant: string, a: nat, n: nat, step: int)
    requires a < n <= |run| && Activated(run, a, tenant) && NoDisable(run, a + 1, n, tenant)
    ensures IsActive(Exec(run, n), tenant)
    ensures step > Exec(run, n)[tenant].lastStep <==> AboveAll(run, tenant, a, n, step)
  {
    if n == a + 1 {
      ActivateSets(Exec(run, a), run[a]);
    } else {
      WatermarkIsHighest(run, tenant, a, n - 1, step);
      StepKeepsActive(Exec(run, n - 1), run[n - 1], tenant);
      if Marked(run, n - 1, tenant) {
        WatermarkIsHighest(run, tenant, a, n - 1, run[n - 1].step);
      }
    }
  }

  /** After an activation a step is accepted exactly when it is above the activating and every accepted one. */
  lemma StepAcceptedIff(run: seq<Op>, tenant: string, a: nat, i: nat)
    requires a < i < |run| && Activated(run, a, tenant) && NoDisable(run, a + 1, i, tenant)
    requires run[i].Mark? && run[i].tenant == tenant
    ensures Marked(run, i, tenant) <==> AboveAll(run, tenant, a, i, run[i].step)
  {
    WatermarkIsHighest(run, tenant, a, i, run[i].step);
  }

  /**
    An enrollment becomes active only by an Activate with its pending secret, keeps that
    secret while it is active, and ends only by a Disable.
   */
  lemma EnrollmentLife(rec: Records, op: Op, tenant: string)
    ensures !IsActive(rec, tenant) && IsActive(Apply(rec, op).0, tenant) ==>
              op.Activate? && op.tenant == tenant && IsPending(rec, tenant) && op.secret == rec[tenant].secret
              && Apply(rec, op).0[tenant].secret == op.secret
    ensures IsActive(rec, tenant) && IsActive(Apply(rec, op).0, tenant) ==>
              Apply(rec, op).0[tenant].secret == rec[tenant].secret
    ensures IsActive(rec, tenant) && !IsActive(Apply(rec, op).0, tenant) ==> op == Disable(tenant)
    ensures op.tenant != tenant ==> (tenant in rec <==> tenant in Apply(rec, op).0)
                                    && (tenant in rec ==> Apply(rec, op).0[tenant] == rec[tenant])
  {}

  /** A pending secret can be replaced, activated with the right secret, or dropped; an active one disabled. */
  lemma EnrollmentAnswers(rec: Records, tenant: string, secret: string, step: int, hashes: seq<string>)
    requires tenant != "" && secret != ""
    ensures Apply(rec, Begin(tenant, secret)).1 == if IsActive(rec, tenant) then AlreadyActive else Yes
    ensures !IsActive(rec, tenant) ==>
              var begun := Apply(rec, Begin(tenant, secret)).0;
              && IsPending(begun, tenant) && Apply(begun, Activate(tenant, secret, step, hashes)).1 == Yes
              && tenant !in Apply(begun, DisablePending(tenant)).0
    ensures tenant !in Apply(rec, Disable(tenant)).0
    ensures IsActive(rec, tenant) ==> Apply(rec, DisablePending(tenant)) == (rec, No)
  {}

  /** The number of accepted TOTP codes of a tenant among calls m..n. */
  function Successes(run: seq<Op>, m: nat, n: nat, tenant: string): nat
    requires m <= n <= |run|
  {
    if m == n then 0 else Successes(run, m, n - 1, tenant) + (if Marked(run, n - 1, tenant) then 1 else 0)
  }

  /**
    A call that presents a step: totpVerify matched a code at clock step
    `clock[i]`, so the step is within one of it.
   */
  predicate VerifiedAt(run: seq<Op>, clock: seq<int>, m: nat, n: nat, tenant: string, lo: int, hi: int) {
    |clock| == |run| && forall i :: m <= i < n && i < |run| && run[i].Mark? && run[i].tenant == tenant ==>
      clock[i] - 1 <= run[i].step <= clock[i] + 1 && lo <= clock[i] <= hi
  }

  lemma {:induction false} SuccessesBelowWatermark(run: seq<Op>, clock: seq<int>, tenant: string, m: nat, n: nat,
      lo: int, hi: int)
    requires m <= n <= |run| && IsActive(Exec(run, m), tenant) && NoDisable(run, m, n, tenant)
    requires VerifiedAt(run, clock, m, n, tenant, lo, hi)
    ensures IsActive(Exec(run, n), tenant)
    ensures Successes(run, m, n, tenant) > 0 ==>
              Successes(run, m, n, tenant) <= Exec(run, n)[tenant].lastStep - lo + 2 &&
                Exec(run, n)[tenant].lastStep <= hi + 1
  {
    if m < n {
      SuccessesBelowWatermark(run, clock, tenant, m, n - 1, lo, hi);
      StepKeepsActive(Exec(run, n - 1), run[n - 1], tenant);
    }
  }

  /** The calls from m up to n whose step was accepted. */
  ghost function MarkedCalls(run: seq<Op>, m: nat, n: nat, tenant: string): set<nat>
    requires n <= |run|
  {
    set i: nat | m <= i < n && Marked(run, i, tenant)
  }

  lemma NoMarkedCalls(run: seq<Op>, m: nat, tenant: string)
    requires m <= |run|
    ensures |MarkedCalls(run, m, m, tenant)| == 0
  {
    assert MarkedCalls(run, m, m, tenant) == {};
  }

  lemma MarkedCallsNext(run: seq<Op>, m: nat, n: nat, tenant: string)
    requires m < n <= |run|
    ensures |MarkedCalls(run, m, n, tenant)|
         == |MarkedCalls(run, m, n - 1, tenant)| + (if Marked(run, n - 1, tenant) then 1 else 0)
  {
    assert MarkedCalls(run, m, n, tenant)
        == MarkedCalls(run, m, n - 1, tenant) + (if Marked(run, n - 1, tenant) then {n - 1} else {});
  }

  lemma {:induction false} SuccessesAre(run: seq<Op>, m: nat, n: nat, tenant: string)
    requires m <= n <= |run|
    ensures Successes(run, m, n, tenant) == |MarkedCalls(run, m, n, tenant)|
  {
    if m == n {
      NoMarkedCalls(run, m, tenant);
    } else {
      SuccessesAre(run, m, n - 1, tenant);
      MarkedCallsNext(run, m, n, tenant);
    }
  }

  /** Requests verified during clock steps lo..hi yield at most hi - lo + 3 accepted codes. */
  lemma SuccessesBounded(run: seq<Op>, clock: seq<int>, tenant: string, m: nat, n: nat, lo: int, hi: int)
    requires m <= n <= |run| && lo <= hi && IsActive(Exec(run, m), tenant) && NoDisable(run, m, n, tenant)
    requires VerifiedAt(run, clock, m, n, tenant, lo, hi)
    ensures |MarkedCalls(run, m, n, tenant)| <= hi - lo + 3
  {
    SuccessesAre(run, m, n, tenant);
    SuccessesBelowWatermark(run, clock, tenant, m, n, lo, hi);
  }

  // ---------------------------------------------------------------- recovery codes

  predicate Usable(rec: Records, tenant: string, hash: string) {
    IsActive(rec, tenant) && hash in rec[tenant].recovery
  }

  lemma StepUsable(rec: Records, op: Op, tenant: string, hash: string)
    requires !Usable(rec, tenant, hash) && Usable(Apply(rec, op).0, tenant, hash)
    ensures op.Activate? && op.tenant == tenant && hash in op.hashes && Apply(rec, op).1 == Yes
  {
  }

  /** A spent recovery code is accepted again only if a later activation issued it anew. */
  lemma {:induction false} RecoveryCodeSpent(run: seq<Op>, tenant: string, hash: string, i: nat, n: nat)
    requires i < n <= |run| && Consumed(run, i, tenant, hash)
    requires forall k :: i < k < n && Activated(run, k, tenant) ==> hash !in run[k].hashes
    ensures !Usable(Exec(run, n), tenant, hash) && !Consumed(run, n, tenant, hash)
  {
    if n > i + 1 {
      RecoveryCodeSpent(run, tenant, hash, i, n - 1);
      if Usable(Exec(run, n), tenant, hash) {
        StepUsable(Exec(run, n - 1), run[n - 1], tenant, hash);
      }
    }
  }

  lemma StepKeepsCodes(rec: Records, op: Op, tenant: string, hash: string)
    requires IsActive(rec, tenant) && !(op.Disable? && op.tenant == tenant)
    ensures Usable(Apply(rec, op).0, tenant, hash) <==>
            Usable(rec, tenant, hash) && !(op == Consume(tenant, hash) && Apply(rec, op).1 == Yes)
  {}

  lemma {:induction false} UsableIff(run: seq<Op>, tenant: string, hash: string, a: nat, n: nat)
    requires a < n <= |run| && Activated(run, a, tenant) && NoDisable(run, a + 1, n, tenant)
    ensures IsActive(Exec(run, n), tenant)
    ensures Usable(Exec(run, n), tenant, hash) <==>
            hash in run[a].hashes && forall j :: a < j < n ==> !Consumed(run, j, tenant, hash)
  {
    if n == a + 1 {
      ActivateSets(Exec(run, a), run[a]);
    } else {
      UsableIff(run, tenant, hash, a, n - 1);
      StepKeepsActive(Exec(run, n - 1), run[n - 1], tenant);
      StepKeepsCodes(Exec(run, n - 1), run[n - 1], tenant, hash);
      assert Consumed(run, n - 1, tenant, hash) <==>
             run[n - 1] == Consume(tenant, hash) && Apply(Exec(run, n - 1), run[n - 1]).1 == Yes;
    }
  }

  /** After an activation a recovery code is accepted exactly when it was issued by it and has not been used since. */
  lemma CodeAcceptedIff(run: seq<Op>, tenant: string, hash: string, a: nat, i: nat)
    requires a < i < |run| && Activated(run, a, tenant) && NoDisable(run, a + 1, i, tenant)
    requires run[i] == Consume(tenant, hash)
    ensures Consumed(run, i, tenant, hash) <==>
            hash in run[a].hashes && forall j :: a < j < i ==> !Consumed(run, j, tenant, hash)
  {
    UsableIff(run, tenant, hash, a, i);
  }
}
