/** The leave over-commitment: the apply guard (main.py:117) ignores
    pending requests and approval (main.py:137) never re-checks the balance,
    so a user can drive a balance below zero. The corrected guard, which
    counts pending requests, keeps every balance non-negative. */
module OverCommit {
  import opened Roster
  import opened WorkStore
  import opened LeaveFlow
  import opened Trace

  /** The request `Apply(u, t, Date(d), "")` submits. */
  function Request(u: string, t: LeaveType, d: nat): Leave {
    Leave(u, t, Date(d), "", Pending)
  }

  /** `n` applications by `u` for leave type `t`, on the days n, n-1, ..., 1. */
  function Applies(u: string, t: LeaveType, n: nat): seq<Op> {
    if n == 0 then [] else [Apply(u, t, Date(n), "")] + Applies(u, t, n - 1)
  }

  /** Approvals by `approver` of the requests at positions i, i+1, ..., i+n-1. */
  function Approvals(approver: string, i: nat, n: nat): seq<Op>
    decreases n
  {
    if n == 0 then [] else [Approve(approver, i)] + Approvals(approver, i + 1, n - 1)
  }

  /** The requests `Applies(u, t, n)` files, each on a different day. */
  function Requests(u: string, t: LeaveType, n: nat): (r: seq<Leave>)
    ensures |r| == n
    ensures forall k :: 0 <= k < n ==> r[k] == Request(u, t, n - k)
    ensures forall j, k :: 0 <= j < k < n ==> r[j].date != r[k].date
  {
    if n == 0 then [] else [Request(u, t, n)] + Requests(u, t, n - 1)
  }

  /** Under the as-written guard, a user with any positive balance can file
      any number of requests: each one is accepted, because applying does
      not change the balance the guard reads. */
  lemma {:induction false} RunApplies(s: Store, u: string, t: LeaveType, n: nat)
    requires u in AllUsers && !IsNc(u)
    requires BalanceOf(s, u, t).Some? && BalanceOf(s, u, t).value > 0
    ensures Run(AsWritten, s, Applies(u, t, n)) == s.(leaves := s.leaves + Requests(u, t, n))
    decreases n
  {
    if n == 0 {
      assert s.leaves + [] == s.leaves;
    } else {
      var ops := Applies(u, t, n);
      var s' := Step(AsWritten, s, ops[0]);
      assert s' == s.(leaves := s.leaves + [Request(u, t, n)]);
      assert ops[1..] == Applies(u, t, n - 1);
      RunApplies(s', u, t, n - 1);
      assert s.leaves + [Request(u, t, n)] + Requests(u, t, n - 1) == s.leaves + Requests(u, t, n);
    }
  }

  /** Approving n pending requests of one user and type lowers that balance
      by n, whatever it was. */
  lemma {:induction false} RunApprovals(s: Store, approver: string, u: string, t: LeaveType, i: nat, n: nat)
    requires approver in AllUsers && IsNc(approver)
    requires i + n <= |s.leaves|
    requires forall k :: i <= k < i + n ==> Matching(u, t, Pending)(s.leaves[k])
    requires BalanceOf(s, u, t).Some?
    ensures BalanceOf(Run(AsWritten, s, Approvals(approver, i, n)), u, t)
            == Some(BalanceOf(s, u, t).value - n)
    decreases n
  {
    if n > 0 {
      assert Matching(u, t, Pending)(s.leaves[i]);
      var s' := ApproveStep(s, approver, i);
      RunFirst(AsWritten, s, Approve(approver, i), Approvals(approver, i + 1, n - 1));
      RunApprovals(s', approver, u, t, i + 1, n - 1);
    }
  }

  /** Running a sequence that starts with `op` runs `op` first. */
  lemma RunFirst(policy: Policy, s: Store, op: Op, rest: seq<Op>)
    ensures Run(policy, s, [op] + rest) == Run(policy, Step(policy, s, op), rest)
  {
  }

  /** One accepted approval of a pending request, as seen by the trace:
      the request at `i` is approved, its balance drops by one, and every
      other request stays where it was. */
  lemma ApproveStep(s: Store, approver: string, i: int) returns (s': Store)
    requires approver in AllUsers && IsNc(approver)
    requires 0 <= i < |s.leaves| && s.leaves[i].status == Pending
    requires BalanceOf(s, s.leaves[i].user, s.leaves[i].ltype).Some?
    ensures Step(AsWritten, s, Approve(approver, i)) == s'
    ensures |s'.leaves| == |s.leaves|
    ensures forall k :: 0 <= k < |s.leaves| && k != i ==> s'.leaves[k] == s.leaves[k]
    ensures BalanceOf(s', s.leaves[i].user, s.leaves[i].ltype)
            == Some(BalanceOf(s, s.leaves[i].user, s.leaves[i].ltype).value - 1)
  {
    s' := ApproveLeave(s, approver, i).value;
  }

  /** The appended requests sit right after the existing ones. */
  lemma RequestsFollow(leaves: seq<Leave>, u: string, t: LeaveType, n: nat)
    ensures forall k :: |leaves| <= k < |leaves| + n ==> Matching(u, t, Pending)((leaves + Requests(u, t, n))[k])
  {
  }

  /** From any store, n applications by a management user holding balance
      b > 0, all accepted, followed by their n approvals, leave the balance
      at b - n, however large n is. */
  lemma ApplyThenApprove(s: Store, u: string, t: LeaveType, approver: string, n: nat)
    requires u in AllUsers && !IsNc(u)
    requires approver in AllUsers && IsNc(approver)
    requires BalanceOf(s, u, t).Some? && BalanceOf(s, u, t).value > 0
    ensures BalanceOf(Run(AsWritten, s, Applies(u, t, n) + Approvals(approver, |s.leaves|, n)), u, t)
            == Some(BalanceOf(s, u, t).value - n)
  {
    ApplyPhase(s, u, t, n, Approvals(approver, |s.leaves|, n));
    ApprovePhase(s, u, t, approver, n);
  }

  /** The application phase of `ApplyThenApprove`: the n accepted
      requests are appended before whatever follows runs. */
  lemma ApplyPhase(s: Store, u: string, t: LeaveType, n: nat, rest: seq<Op>)
    requires u in AllUsers && !IsNc(u)
    requires BalanceOf(s, u, t).Some? && BalanceOf(s, u, t).value > 0
    ensures Run(AsWritten, s, Applies(u, t, n) + rest)
            == Run(AsWritten, s.(leaves := s.leaves + Requests(u, t, n)), rest)
  {
    RunConcat(AsWritten, s, Applies(u, t, n), rest);
    RunApplies(s, u, t, n);
  }

  /** The approval phase of `ApplyThenApprove`: approving the n appended
      requests lowers the balance by n. */
  lemma ApprovePhase(s: Store, u: string, t: LeaveType, approver: string, n: nat)
    requires approver in AllUsers && IsNc(approver)
    requires BalanceOf(s, u, t).Some?
    ensures BalanceOf(Run(AsWritten, s.(leaves := s.leaves + Requests(u, t, n)), Approvals(approver, |s.leaves|, n)), u, t)
            == Some(BalanceOf(s, u, t).value - n)
  {
    var s1 := s.(leaves := s.leaves + Requests(u, t, n));
    assert BalanceOf(s1, u, t) == BalanceOf(s, u, t);
    RequestsFollow(s.leaves, u, t, n);
    RunApprovals(s1, approver, u, t, |s.leaves|, n);
  }

  /** A management user files n requests of one type and the NC Rishabh
      approves them one by one. */
  function ApplyAndApproveTrace(u: string, t: LeaveType, n: nat): seq<Op> {
    Applies(u, t, n) + Approvals("Rishabh", 0, n)
  }

  /** The as-written application lets a balance reach -1 from the initial
      store. With allowance A for type t, the user files A + 1 requests;
      each is accepted because the balance still reads A. Approving all of
      them subtracts A + 1, and approval never looks at the balance. For
      Akshay and SL: 8 requests, 8 approvals, balance -1. */
  lemma AsWrittenBalanceGoesNegative(u: string, t: LeaveType)
    requires u in Management
    ensures BalanceOf(Run(AsWritten, Init(), ApplyAndApproveTrace(u, t, Allowance(t) + 1)), u, t) == Some(-1)
  {
    RolesPartitionRoster(u);
    RolesPartitionRoster("Rishabh");
    ApplyThenApprove(Init(), u, t, "Rishabh", Allowance(t) + 1);
  }

  /** Using up an allowance exactly: after A requests and their A approvals
      the balance is 0, and the next application is refused with
      InsufficientBalance. */
  lemma AllowanceExhaustedRefusesNext(u: string, t: LeaveType, date: Date, reason: string)
    requires u in Management
    ensures var s := Run(AsWritten, Init(), ApplyAndApproveTrace(u, t, Allowance(t)));
      BalanceOf(s, u, t) == Some(0) && ApplyLeave(s, u, t, date, reason) == Err(InsufficientBalance)
  {
    RolesPartitionRoster(u);
    RolesPartitionRoster("Rishabh");
    ApplyThenApprove(Init(), u, t, "Rishabh", Allowance(t));
  }

  /** The corrected guard refuses the request that would over-commit: with
      as many requests pending as the balance holds, applying again fails. */
  lemma CountedGuardRefusesOverCommit(s: Store, u: string, t: LeaveType, date: Date, reason: string)
    requires u in AllUsers && !IsNc(u)
    requires BalanceOf(s, u, t).Some?
    requires PendingCount(s.leaves, u, t) >= BalanceOf(s, u, t).value
    ensures ApplyLeaveCounted(s, u, t, date, reason) == Err(InsufficientBalance)
  {
  }

  /** With the corrected guard, every step keeps requests within the
      allowance (as well as the other store invariants). */
  lemma PendingAwareStepKeepsCommitment(s: Store, op: Op)
    requires Valid(s) && NotOverCommitted(s)
    ensures Valid(Step(PendingAware, s, op)) && NotOverCommitted(Step(PendingAware, s, op))
  {
    StepPreservesValid(PendingAware, s, op);
    if Outcome(PendingAware, s, op).Ok? {
      match op
      case Apply(actor, ltype, date, reason) =>
        CountedApplyKeepsCommitment(s, actor, ltype, date, reason);
      case Approve(actor, i) =>
        ApproveKeepsCommitment(s, actor, i);
      case _ =>
        CommitmentFrame(s, Step(PendingAware, s, op));
    }
  }

  lemma {:induction false} PendingAwareRunKeepsCommitment(s: Store, ops: seq<Op>)
    requires Valid(s) && NotOverCommitted(s)
    ensures Valid(Run(PendingAware, s, ops)) && NotOverCommitted(Run(PendingAware, s, ops))
    decreases |ops|
  {
    if ops != [] {
      PendingAwareStepKeepsCommitment(s, ops[0]);
      PendingAwareRunKeepsCommitment(Step(PendingAware, s, ops[0]), ops[1..]);
    }
  }

  /** The intended invariant, for the corrected guard: after any sequence
      of actions no management balance is negative. */
  lemma PendingAwareBalanceNonNegative(ops: seq<Op>, u: string, t: LeaveType)
    requires u in Management
    ensures BalanceOf(Run(PendingAware, Init(), ops), u, t).Some?
    ensures BalanceOf(Run(PendingAware, Init(), ops), u, t).value >= 0
  {
    var s0 := Init();
    InitValid();
    forall u', t' | u' in Management
      ensures WithinAllowance(s0, u', t')
    {
    }
    PendingAwareRunKeepsCommitment(s0, ops);
    BalanceNonNegativeWhenNotOverCommitted(Run(PendingAware, s0, ops), u, t);
  }
}
