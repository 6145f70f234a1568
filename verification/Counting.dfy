/** Counting the assignments of a job that satisfy a condition. */
module Counting {
  import opened Domain

  // The statuses that consume a slot.
  predicate StaffedStatus(s: AssignmentStatus) {
    s.Completed? || ActiveStatus(s)
  }

  // The statuses of a guardian still working the job.
  predicate ActiveStatus(s: AssignmentStatus) {
    s.Accepted? || s.EnRoute? || s.OnSite? || s.EarlyReleaseRequested? || s.ReplacementRequested? || s.AwaitingRelief?
  }

  predicate Ordinary(a: Assignment) {
    a.relieves.None?
  }

  predicate IsStaffed(a: Assignment) {
    Ordinary(a) && StaffedStatus(a.status)
  }

  predicate IsActive(a: Assignment) {
    Ordinary(a) && ActiveStatus(a.status)
  }

  predicate IsPending(a: Assignment) {
    Ordinary(a) && a.status.Offered?
  }

  predicate IsSubstitute(a: Assignment) {
    a.relieves.Some?
  }

  function Count(s: seq<Assignment>, p: Assignment -> bool): nat {
    if s == [] then 0 else Count(s[..|s| - 1], p) + (if p(s[|s| - 1]) then 1 else 0)
  }

  function Staffed(s: seq<Assignment>): nat {
    Count(s, IsStaffed)
  }

  function Active(s: seq<Assignment>): nat {
    Count(s, IsActive)
  }

  function PendingOffers(s: seq<Assignment>): nat {
    Count(s, IsPending)
  }

  function Substitutes(s: seq<Assignment>): nat {
    Count(s, IsSubstitute)
  }

  lemma {:induction false} CountUpdate(s: seq<Assignment>, i: nat, a: Assignment, p: Assignment -> bool)
    requires i < |s|
    ensures Count(s[i := a], p) == Count(s, p) - (if p(s[i]) then 1 else 0) + (if p(a) then 1 else 0)
  {
    var last := |s| - 1;
    if i == last {
      assert s[i := a][..last] == s[..last];
    } else {
      assert s[i := a][..last] == s[..last][i := a];
      CountUpdate(s[..last], i, a, p);
    }
  }

  lemma CountAppend(s: seq<Assignment>, a: Assignment, p: Assignment -> bool)
    ensures Count(s + [a], p) == Count(s, p) + (if p(a) then 1 else 0)
  {
    assert (s + [a])[..|s|] == s;
  }

  lemma CountSingle(a: Assignment, p: Assignment -> bool)
    ensures Count([a], p) == if p(a) then 1 else 0
  {
    assert [a] == [] + [a];
    CountAppend([], a, p);
  }

  lemma CountPair(a: Assignment, b: Assignment, p: Assignment -> bool)
    ensures Count([a, b], p) == (if p(a) then 1 else 0) + (if p(b) then 1 else 0)
  {
    assert [a, b] == [a] + [b];
    CountSingle(a, p);
    CountAppend([a], b, p);
  }

  lemma {:induction false} CountMonotone(
    s: seq<Assignment>, t: seq<Assignment>, p: Assignment -> bool, q: Assignment -> bool)
    requires |s| == |t|
    requires forall i :: 0 <= i < |s| && p(s[i]) ==> q(t[i])
    ensures Count(s, p) <= Count(t, q)
  {
    if s != [] {
      CountMonotone(s[..|s| - 1], t[..|t| - 1], p, q);
    }
  }

  lemma {:induction false} CountZero(s: seq<Assignment>, p: Assignment -> bool)
    ensures Count(s, p) == 0 <==> forall i :: 0 <= i < |s| ==> !p(s[i])
  {
    if s != [] {
      var t := s[..|s| - 1];
      CountZero(t, p);
      assert forall i :: 0 <= i < |t| ==> t[i] == s[i];
    }
  }

  // A count of at least two when two different positions satisfy the condition.
  lemma {:induction false} CountTwo(s: seq<Assignment>, i: nat, j: nat, p: Assignment -> bool)
    requires i < j < |s| && p(s[i]) && p(s[j])
    ensures 2 <= Count(s, p)
  {
    if j == |s| - 1 {
      CountZero(s[..j], p);
      assert s[..j][i] == s[i];
    } else {
      CountTwo(s[..|s| - 1], i, j, p);
    }
  }
}
