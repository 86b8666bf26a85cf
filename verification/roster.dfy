/** The fixed user roster, the two roles, and the leave types with their
    yearly allowances (main.py:8-10, 19). */
module Roster {

  /** Field staff ("NCs"): they assign tasks to management, approve leave
      and see every task. */
  const NCs: seq<string> := ["Rishabh", "Subho", "Kunal"]

  /** Management: they receive tasks, log work, and apply for leave. */
  const Management: seq<string> := ["Akshay", "Narendra", "Vatsal"]

  /** Every name the login box offers. */
  const AllUsers: seq<string> := NCs + Management

  predicate IsNc(u: string) {
    u in NCs
  }

  /** The roster splits into exactly the two roles: a logged-in user who is
      not an NC is a management user, and no one is both. */
  lemma RolesPartitionRoster(u: string)
    ensures u in AllUsers && !IsNc(u) <==> u in Management
    ensures u in AllUsers && IsNc(u) <==> u in NCs
  {
  }

  datatype LeaveType = CL | SL | COURSE

  /** The balance every management user starts with, per leave type. */
  function Allowance(t: LeaveType): nat {
    match t
    case CL => 15
    case SL => 7
    case COURSE => 7
  }
}
