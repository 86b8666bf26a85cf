/** The Leave page (main.py:104-138): a management user applies for leave
    against their balance, an NC approves pending requests, and approval
    consumes one day of balance. */
module LeaveFlow {
  import opened Roster
  import opened WorkStore
  import opened SeqFilter

  /** Selects the requests of user `u` for leave type `t` in state `st`. */
  function Matching(u: string, t: LeaveType, st: LeaveStatus): Leave -> bool {
    (l: Leave) => l.user == u && l.ltype == t && l.status == st
  }

  function ApprovedCount(leaves: seq<Leave>, u: string, t: LeaveType): nat {
    |Filter(leaves, Matching(u, t, Approved))|
  }

  function PendingCount(leaves: seq<Leave>, u: string, t: LeaveType): nat {
    |Filter(leaves, Matching(u, t, Pending))|
  }

  /** Balance conservation: every management user's balance of every type
      is the allowance minus the approved requests of that type. */
  ghost predicate Conserved(s: Store) {
    forall u, t :: u in Management ==> ConservedAt(s, u, t)
  }

  ghost predicate ConservedAt(s: Store, u: string, t: LeaveType) {
    BalanceOf(s, u, t) == Some(Allowance(t) - ApprovedCount(s.leaves, u, t))
  }

  /** No user has more requests outstanding or granted than the allowance. */
  ghost predicate NotOverCommitted(s: Store) {
    forall u, t :: u in Management ==> WithinAllowance(s, u, t)
  }

  ghost predicate WithinAllowance(s: Store, u: string, t: LeaveType) {
    PendingCount(s.leaves, u, t) + ApprovedCount(s.leaves, u, t) <= Allowance(t)
  }

  /** Every request on file was made by a management user, so each one has
      a balance entry for approval to draw on. */
  ghost predicate RequestersAreManagement(leaves: seq<Leave>) {
    forall k :: 0 <= k < |leaves| ==> leaves[k].user in Management
  }

  /** Conservation depends only on the leaves and the balances. */
  lemma ConservedFrame(s: Store, s': Store)
    requires Conserved(s)
    requires s'.leaves == s.leaves && s'.balance == s.balance
    ensures Conserved(s')
  {
    forall u, t | u in Management
      ensures ConservedAt(s', u, t)
    {
      assert ConservedAt(s, u, t);
    }
  }

  /** Staying within the allowance depends only on the leaves. */
  lemma CommitmentFrame(s: Store, s': Store)
    requires NotOverCommitted(s)
    requires s'.leaves == s.leaves
    ensures NotOverCommitted(s')
  {
    forall u, t | u in Management
      ensures WithinAllowance(s', u, t)
    {
      assert WithinAllowance(s, u, t);
    }
  }

  /** Append a Pending request for `actor` when the guard value `headroom`
      is positive. Shared by the as-written and the corrected apply. */
  function Submit(s: Store, actor: string, ltype: LeaveType, date: Date, reason: string, headroom: Option<int>): (r: Result<Store>)
    ensures r.Ok? <==> actor in AllUsers && !IsNc(actor) && headroom.Some? && headroom.value > 0
    ensures r.Err? && actor in AllUsers && !IsNc(actor) && headroom.Some? ==> r.error == InsufficientBalance
    ensures r.Ok? ==>
      && r.value.leaves == s.leaves + [Leave(actor, ltype, date, reason, Pending)]
      && r.value.balance == s.balance
      && r.value.tasks == s.tasks
      && r.value.workLogs == s.workLogs
  {
    if actor !in AllUsers || IsNc(actor) then Err(Unauthorized)
    else match headroom
      case None => Err(NotFound)
      case Some(h) =>
        if h > 0 then Ok(s.(leaves := s.leaves + [Leave(actor, ltype, date, reason, Pending)]))
        else Err(InsufficientBalance)
  }

  /** "Apply Leave" as written: the guard looks only at the current balance,
      ignoring requests that are still pending. */
  function ApplyLeave(s: Store, actor: string, ltype: LeaveType, date: Date, reason: string): (r: Result<Store>)
    ensures r.Ok? <==>
      actor in AllUsers && !IsNc(actor) && BalanceOf(s, actor, ltype).Some? && BalanceOf(s, actor, ltype).value > 0
    ensures r.Err? && actor in AllUsers && !IsNc(actor) && BalanceOf(s, actor, ltype).Some?
            ==> r.error == InsufficientBalance
    ensures r.Ok? ==>
      && r.value.leaves == s.leaves + [Leave(actor, ltype, date, reason, Pending)]
      && r.value.balance == s.balance
      && r.value.tasks == s.tasks
      && r.value.workLogs == s.workLogs
  {
    Submit(s, actor, ltype, date, reason, BalanceOf(s, actor, ltype))
  }

  /** The balance left once the user's pending requests are honoured. */
  function Headroom(s: Store, u: string, t: LeaveType): Option<int> {
    match BalanceOf(s, u, t)
    case None => None
    case Some(b) => Some(b - PendingCount(s.leaves, u, t))
  }

  /** "Apply Leave" with the guard counting pending requests as spent. */
  function ApplyLeaveCounted(s: Store, actor: string, ltype: LeaveType, date: Date, reason: string): (r: Result<Store>)
    ensures r.Ok? <==>
      && actor in AllUsers && !IsNc(actor) && BalanceOf(s, actor, ltype).Some?
      && BalanceOf(s, actor, ltype).value - PendingCount(s.leaves, actor, ltype) > 0
    ensures r.Ok? ==>
      && r.value.leaves == s.leaves + [Leave(actor, ltype, date, reason, Pending)]
      && r.value.balance == s.balance
      && r.value.tasks == s.tasks
      && r.value.workLogs == s.workLogs
  {
    Submit(s, actor, ltype, date, reason, Headroom(s, actor, ltype))
  }

  /** "Approve": an NC approves the pending request at position `i`; the
      request becomes Approved and its user's balance of its type drops by
      one. The balance is not re-checked. */
  function ApproveLeave(s: Store, actor: string, i: int): (r: Result<Store>)
    ensures r.Ok? <==>
      && actor in AllUsers && IsNc(actor)
      && 0 <= i < |s.leaves|
      && s.leaves[i].status == Pending
      && BalanceOf(s, s.leaves[i].user, s.leaves[i].ltype).Some?
    ensures r.Err? && actor in AllUsers && IsNc(actor) && 0 <= i < |s.leaves| && s.leaves[i].status != Pending
            ==> r.error == NotPending
    ensures r.Ok? ==>
      var l := s.leaves[i];
      && |r.value.leaves| == |s.leaves|
      && r.value.leaves[i] == l.(status := Approved)
      && (forall j :: 0 <= j < |s.leaves| && j != i ==> r.value.leaves[j] == s.leaves[j])
      && BalanceOf(r.value, l.user, l.ltype) == Some(BalanceOf(s, l.user, l.ltype).value - 1)
      && (forall u, t :: u != l.user || t != l.ltype ==> BalanceOf(r.value, u, t) == BalanceOf(s, u, t))
      && r.value.tasks == s.tasks
      && r.value.workLogs == s.workLogs
  {
    if actor !in AllUsers || !IsNc(actor) then Err(Unauthorized)
    else if !(0 <= i < |s.leaves|) then Err(NotFound)
    else
      var l := s.leaves[i];
      if l.status != Pending then Err(NotPending)
      else match BalanceOf(s, l.user, l.ltype)
        case None => Err(NotFound)
        case Some(b) =>
          var perUser := s.balance[l.user][l.ltype := b - 1];
          Ok(s.(leaves := s.leaves[i := l.(status := Approved)],
                balance := s.balance[l.user := perUser]))
  }

  /** Filing a Pending request raises the pending count of its own user
      and type by one and moves no other count. */
  lemma AppendPendingCounts(leaves: seq<Leave>, l: Leave, u: string, t: LeaveType)
    requires l.status == Pending
    ensures ApprovedCount(leaves + [l], u, t) == ApprovedCount(leaves, u, t)
    ensures PendingCount(leaves + [l], u, t)
            == PendingCount(leaves, u, t) + (if l.user == u && l.ltype == t then 1 else 0)
  {
    FilterAppendOne(leaves, l, Matching(u, t, Approved));
    FilterAppendOne(leaves, l, Matching(u, t, Pending));
  }

  /** Approving the Pending request at `i` moves one unit from the pending
      to the approved count of its user and type, and moves no other count. */
  lemma ApproveShiftsCounts(leaves: seq<Leave>, i: int, u: string, t: LeaveType)
    requires 0 <= i < |leaves| && leaves[i].status == Pending
    ensures var after := leaves[i := leaves[i].(status := Approved)];
      var hit := if leaves[i].user == u && leaves[i].ltype == t then 1 else 0;
      && ApprovedCount(after, u, t) == ApprovedCount(leaves, u, t) + hit
      && PendingCount(after, u, t) == PendingCount(leaves, u, t) - hit
  {
    var l' := leaves[i].(status := Approved);
    FilterUpdateCount(leaves, i, l', Matching(u, t, Approved));
    FilterUpdateCount(leaves, i, l', Matching(u, t, Pending));
  }

  /** Applying (either guard) keeps balance conservation. */
  lemma SubmitConserves(s: Store, actor: string, ltype: LeaveType, date: Date, reason: string, headroom: Option<int>)
    requires Conserved(s)
    requires Submit(s, actor, ltype, date, reason, headroom).Ok?
    ensures Conserved(Submit(s, actor, ltype, date, reason, headroom).value)
  {
    var s' := Submit(s, actor, ltype, date, reason, headroom).value;
    var l := Leave(actor, ltype, date, reason, Pending);
    assert s'.leaves == s.leaves + [l] && s'.balance == s.balance;
    forall u, t | u in Management
      ensures ConservedAt(s', u, t)
    {
      AppendPendingCounts(s.leaves, l, u, t);
      assert ConservedAt(s, u, t);
      assert BalanceOf(s', u, t) == BalanceOf(s, u, t);
    }
  }

  /** Approving keeps balance conservation: the one balance that drops is
      the one whose approved count rises. */
  lemma ApproveConserves(s: Store, actor: string, i: int)
    requires Conserved(s)
    requires ApproveLeave(s, actor, i).Ok?
    ensures Conserved(ApproveLeave(s, actor, i).value)
  {
    var s' := ApproveLeave(s, actor, i).value;
    forall u, t | u in Management
      ensures ConservedAt(s', u, t)
    {
      ApproveConservesAt(s, s', i, u, t);
    }
  }

  /** One (user, type) entry of `ApproveConserves`, stated over the facts of
      the approval rather than its definition. */
  lemma ApproveConservesAt(s: Store, s': Store, i: int, u: string, t: LeaveType)
    requires 0 <= i < |s.leaves| && s.leaves[i].status == Pending
    requires s'.leaves == s.leaves[i := s.leaves[i].(status := Approved)]
    requires ConservedAt(s, u, t)
    requires u == s.leaves[i].user && t == s.leaves[i].ltype
             ==> BalanceOf(s', u, t) == Some(BalanceOf(s, u, t).value - 1)
    requires u != s.leaves[i].user || t != s.leaves[i].ltype
             ==> BalanceOf(s', u, t) == BalanceOf(s, u, t)
    ensures ConservedAt(s', u, t)
  {
    ApproveShiftsCounts(s.leaves, i, u, t);
  }

  /** Applying (either guard) files the request under a management user. */
  lemma SubmitKeepsRequesters(s: Store, actor: string, ltype: LeaveType, date: Date, reason: string, headroom: Option<int>)
    requires RequestersAreManagement(s.leaves)
    requires Submit(s, actor, ltype, date, reason, headroom).Ok?
    ensures RequestersAreManagement(Submit(s, actor, ltype, date, reason, headroom).value.leaves)
  {
  }

  /** Approval changes a request's status but not whose request it is. */
  lemma ApproveKeepsRequesters(s: Store, actor: string, i: int)
    requires RequestersAreManagement(s.leaves)
    requires ApproveLeave(s, actor, i).Ok?
    ensures RequestersAreManagement(ApproveLeave(s, actor, i).value.leaves)
  {
  }

  /** The corrected apply keeps requests within the allowance. */
  lemma CountedApplyKeepsCommitment(s: Store, actor: string, ltype: LeaveType, date: Date, reason: string)
    requires Conserved(s) && NotOverCommitted(s)
    requires ApplyLeaveCounted(s, actor, ltype, date, reason).Ok?
    ensures NotOverCommitted(ApplyLeaveCounted(s, actor, ltype, date, reason).value)
  {
    var s' := ApplyLeaveCounted(s, actor, ltype, date, reason).value;
    var l := Leave(actor, ltype, date, reason, Pending);
    assert s'.leaves == s.leaves + [l];
    forall u, t | u in Management
      ensures WithinAllowance(s', u, t)
    {
      AppendPendingCounts(s.leaves, l, u, t);
      assert WithinAllowance(s, u, t);
      if u == actor && t == ltype {
        assert ConservedAt(s, u, t);
      }
    }
  }

  /** Approval turns one pending request into an approved one, so the sum
      of the two counts is unchanged. */
  lemma ApproveKeepsCommitment(s: Store, actor: string, i: int)
    requires NotOverCommitted(s)
    requires ApproveLeave(s, actor, i).Ok?
    ensures NotOverCommitted(ApproveLeave(s, actor, i).value)
  {
    var s' := ApproveLeave(s, actor, i).value;
    var l := s.leaves[i];
    assert s'.leaves == s.leaves[i := l.(status := Approved)];
    forall u, t | u in Management
      ensures WithinAllowance(s', u, t)
    {
      ApproveShiftsCounts(s.leaves, i, u, t);
      assert WithinAllowance(s, u, t);
    }
  }

  /** Under conservation, a user whose pending and approved requests stay
      within the allowance never has a negative balance. */
  lemma BalanceNonNegativeWhenNotOverCommitted(s: Store, u: string, t: LeaveType)
    requires Conserved(s) && NotOverCommitted(s)
    requires u in Management
    ensures BalanceOf(s, u, t).Some? && BalanceOf(s, u, t).value >= PendingCount(s.leaves, u, t) >= 0
  {
    assert ConservedAt(s, u, t) && WithinAllowance(s, u, t);
  }
}
