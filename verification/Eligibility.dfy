/** Choosing whom to offer a job to: exclusion sets, the over-fetching query and the two pick operations. */
module Eligibility {
  import opened Domain
  import opened Counting

  predicate TriedStatus(s: AssignmentStatus) {
    s.Declined? || s.Expired? || s.Cancelled?
  }

  function Tried(s: seq<Assignment>): set<nat> {
    set i | 0 <= i < |s| && TriedStatus(s[i].status) :: s[i].guardian
  }

  function Excluded(s: seq<Assignment>): set<nat> {
    Tried(s) + set i | 0 <= i < |s| && (IsPending(s[i]) || IsStaffed(s[i])) :: s[i].guardian
  }

  function ReplacementExcluded(s: seq<Assignment>): set<nat> {
    set i | 0 <= i < |s| && !TriedStatus(s[i].status) :: s[i].guardian
  }

  function Take<T>(s: seq<T>, n: nat): seq<T> {
    if n <= |s| then s[..n] else s
  }

  // The members of `s` outside `drop`, in order.
  function Without(s: seq<nat>, drop: set<nat>): seq<nat> {
    if s == [] then [] else (if s[0] in drop then [] else [s[0]]) + Without(s[1..], drop)
  }

  // The members of `s` inside `keep`, in order.
  function Within(s: seq<nat>, keep: set<nat>): seq<nat> {
    if s == [] then [] else (if s[0] in keep then [s[0]] else []) + Within(s[1..], keep)
  }

  // The query fetches `limit` rows more than there are exclusions, then drops the excluded.
  function ListEligible(ranked: seq<nat>, limit: nat, excluded: set<nat>): seq<nat> {
    Without(Take(ranked, limit + |excluded|), excluded)
  }

  function PickParallel(pool: RawPool, poolSize: nat, excluded: set<nat>, count: nat): seq<nat> {
    Take(Within(ListEligible(pool.ranked, poolSize, excluded), pool.reachable), count)
  }

  function PickNext(pool: RawPool, poolSize: nat, excluded: set<nat>): Option<nat> {
    var reachable := Within(ListEligible(pool.ranked, poolSize, excluded), pool.reachable);
    if reachable == [] then None else Some(reachable[0])
  }

  // The reference: every reachable, non-excluded guardian of the whole ranking, best first.
  function Ideal(pool: RawPool, excluded: set<nat>): seq<nat> {
    Within(Without(pool.ranked, excluded), pool.reachable)
  }

  lemma Associative(a: seq<nat>, b: seq<nat>, c: seq<nat>)
    ensures a + (b + c) == (a + b) + c
  {
  }

  lemma {:induction false} WithoutConcat(a: seq<nat>, b: seq<nat>, drop: set<nat>)
    ensures Without(a + b, drop) == Without(a, drop) + Without(b, drop)
  {
    if a == [] {
      assert a + b == b;
    } else {
      var first := if a[0] in drop then [] else [a[0]];
      assert (a + b)[1..] == a[1..] + b && (a + b)[0] == a[0];
      WithoutConcat(a[1..], b, drop);
      Associative(first, Without(a[1..], drop), Without(b, drop));
    }
  }

  lemma {:induction false} WithinConcat(a: seq<nat>, b: seq<nat>, keep: set<nat>)
    ensures Within(a + b, keep) == Within(a, keep) + Within(b, keep)
  {
    if a == [] {
      assert a + b == b;
    } else {
      var first := if a[0] in keep then [a[0]] else [];
      assert (a + b)[1..] == a[1..] + b && (a + b)[0] == a[0];
      WithinConcat(a[1..], b, keep);
      Associative(first, Within(a[1..], keep), Within(b, keep));
    }
  }

  lemma {:induction false} WithoutMembers(s: seq<nat>, drop: set<nat>)
    ensures forall x :: x in Without(s, drop) <==> x in s && x !in drop
    ensures Distinct(s) ==> Distinct(Without(s, drop))
  {
    if s != [] {
      WithoutMembers(s[1..], drop);
      assert forall x :: x in s <==> x == s[0] || x in s[1..];
      var rest := Without(s[1..], drop);
      if Distinct(s) {
        assert s[0] !in s[1..];
        assert s[0] !in rest;
      }
    }
  }

  lemma {:induction false} WithinMembers(s: seq<nat>, keep: set<nat>)
    ensures forall x :: x in Within(s, keep) <==> x in s && x in keep
    ensures Distinct(s) ==> Distinct(Within(s, keep))
  {
    if s != [] {
      WithinMembers(s[1..], keep);
      assert forall x :: x in s <==> x == s[0] || x in s[1..];
      var rest := Within(s[1..], keep);
      if Distinct(s) {
        assert s[0] !in s[1..];
        assert s[0] !in rest;
      }
    }
  }

  // Dropping a set from a duplicate-free ranking removes no more rows than the set has members.
  lemma {:induction false} WithoutRemovesFew(s: seq<nat>, drop: set<nat>)
    requires Distinct(s)
    ensures |s| <= |Without(s, drop)| + |drop|
  {
    if s != [] {
      if s[0] in drop {
        WithoutRemovesFew(s[1..], drop - {s[0]});
        WithoutIrrelevant(s[1..], drop, s[0]);
      } else {
        WithoutRemovesFew(s[1..], drop);
      }
    }
  }

  lemma {:induction false} WithoutIrrelevant(s: seq<nat>, drop: set<nat>, x: nat)
    requires x !in s
    ensures Without(s, drop) == Without(s, drop - {x})
  {
    if s != [] {
      WithoutIrrelevant(s[1..], drop, x);
    }
  }

  /** Over-fetch then filter is as good as filtering the whole ranking: the result is a prefix of the filtered
  ranking, and it is short of `limit` only when the filtered ranking itself is. */
  lemma OverFetch(ranked: seq<nat>, limit: nat, excluded: set<nat>)
    requires Distinct(ranked)
    ensures ListEligible(ranked, limit, excluded) <= Without(ranked, excluded)
    ensures |ListEligible(ranked, limit, excluded)| >= |Take(Without(ranked, excluded), limit)|
  {
    var n := limit + |excluded|;
    var head := Take(ranked, n);
    assert ranked == head + ranked[|head|..];
    WithoutConcat(head, ranked[|head|..], excluded);
    WithoutRemovesFew(head, excluded);
  }

  lemma Prefixes(a: seq<nat>, b: seq<nat>, keep: set<nat>)
    requires a <= b
    ensures Within(a, keep) <= Within(b, keep)
  {
    assert b == a + b[|a|..];
    WithinConcat(a, b[|a|..], keep);
  }

  /** A parallel pick is duplicate-free, takes only reachable and non-excluded guardians, and never skips a
  better-ranked one: it is a prefix of the ideal order. When the eligible guardians fit in the pool it is the
  ideal choice exactly. */
  lemma ParallelPickIsBest(pool: Pool, poolSize: nat, excluded: set<nat>, count: nat)
    ensures var picks := PickParallel(pool, poolSize, excluded, count);
            && |picks| <= count
            && picks <= Ideal(pool, excluded)
            && Distinct(picks)
            && (forall g :: g in picks ==> g in pool.ranked && g in pool.reachable && g !in excluded)
            && (|Without(pool.ranked, excluded)| <= poolSize ==> picks == Take(Ideal(pool, excluded), count))
            && (|picks| < count ==>
                  forall g :: g in ListEligible(pool.ranked, poolSize, excluded) && g in pool.reachable ==> g in picks)
  {
    var candidates := ListEligible(pool.ranked, poolSize, excluded);
    var all := Without(pool.ranked, excluded);
    OverFetch(pool.ranked, poolSize, excluded);
    Prefixes(candidates, all, pool.reachable);
    WithoutMembers(pool.ranked, excluded);
    WithinMembers(all, pool.reachable);
    WithinMembers(candidates, pool.reachable);
    if |all| <= poolSize {
      assert candidates == all;
    }
  }

  /** The single pick is the head of the ideal order whenever it picks anyone, and with a positive pool size and an
  eligible set that fits the pool it fails only when the ideal order is empty. */
  lemma NextPickIsBest(pool: Pool, poolSize: nat, excluded: set<nat>)
    ensures var pick := PickNext(pool, poolSize, excluded);
            && (pick.Some? ==>
                  && pick.value !in excluded && pick.value in pool.reachable && pick.value in pool.ranked
                  && Ideal(pool, excluded) != [] && pick.value == Ideal(pool, excluded)[0])
            && (|Without(pool.ranked, excluded)| <= poolSize ==> (pick.None? <==> Ideal(pool, excluded) == []))
  {
    ParallelPickIsBest(pool, poolSize, excluded, 1);
    var picks := PickParallel(pool, poolSize, excluded, 1);
    var pick := PickNext(pool, poolSize, excluded);
    if pick.Some? {
      assert picks == [pick.value];
      assert picks[0] in picks;
    } else {
      assert picks == [];
    }
  }

  // ---------- who is picked ----------

  // The guardian ranked `p` is reachable and not excluded.
  predicate Fits(pool: RawPool, excluded: set<nat>, p: nat)
    requires p < |pool.ranked|
  {
    pool.ranked[p] in pool.reachable && pool.ranked[p] !in excluded
  }

  // How many of the `n` best are.
  function FitsBefore(pool: RawPool, excluded: set<nat>, n: nat): nat
    requires n <= |pool.ranked|
  {
    if n == 0 then 0 else FitsBefore(pool, excluded, n - 1) + (if Fits(pool, excluded, n - 1) then 1 else 0)
  }

  lemma WithoutOne(x: nat, drop: set<nat>)
    ensures Without([x], drop) == if x in drop then [] else [x]
    ensures Within([x], drop) == if x in drop then [x] else []
  {
    assert [x][1..] == [];
  }

  // One more guardian looked at.
  lemma OneMoreFits(pool: RawPool, excluded: set<nat>, n: nat)
    requires n < |pool.ranked|
    ensures Within(Without(pool.ranked[..n + 1], excluded), pool.reachable) ==
            Within(Without(pool.ranked[..n], excluded), pool.reachable) +
            if Fits(pool, excluded, n) then [pool.ranked[n]] else []
  {
    var x := pool.ranked[n];
    assert pool.ranked[..n + 1] == pool.ranked[..n] + [x];
    WithoutConcat(pool.ranked[..n], [x], excluded);
    WithoutOne(x, excluded);
    WithinConcat(Without(pool.ranked[..n], excluded), Without([x], excluded), pool.reachable);
    WithoutOne(x, pool.reachable);
    assert Within([], pool.reachable) == [];
  }

  lemma {:induction false} FitsInOrder(pool: RawPool, excluded: set<nat>, n: nat)
    requires n <= |pool.ranked|
    ensures var fit := Within(Without(pool.ranked[..n], excluded), pool.reachable);
            && |fit| == FitsBefore(pool, excluded, n)
            && forall p :: 0 <= p < n && Fits(pool, excluded, p) ==>
                 FitsBefore(pool, excluded, p) < |fit| && fit[FitsBefore(pool, excluded, p)] == pool.ranked[p]
  {
    if n == 0 {
      assert pool.ranked[..0] == [];
    } else {
      FitsInOrder(pool, excluded, n - 1);
      OneMoreFits(pool, excluded, n - 1);
    }
  }

  /** The picks are the guardians looked at that fit, in the order of their ranking, as many as are wanted: the one ranked
  `p` comes after as many as are ranked better and fit. */
  lemma PickedExactly(pool: RawPool, poolSize: nat, excluded: set<nat>, count: nat)
    ensures var n := if poolSize + |excluded| <= |pool.ranked| then poolSize + |excluded| else |pool.ranked|;
            var picks := PickParallel(pool, poolSize, excluded, count);
            var fits := FitsBefore(pool, excluded, n);
            && |picks| == (if count <= fits then count else fits)
            && forall p :: 0 <= p < n && Fits(pool, excluded, p) && FitsBefore(pool, excluded, p) < count ==>
                 FitsBefore(pool, excluded, p) < |picks| && picks[FitsBefore(pool, excluded, p)] == pool.ranked[p]
    ensures PickNext(pool, poolSize, excluded) ==
            var picks := PickParallel(pool, poolSize, excluded, 1);
            if picks == [] then None else Some(picks[0])
  {
    var n := if poolSize + |excluded| <= |pool.ranked| then poolSize + |excluded| else |pool.ranked|;
    assert Take(pool.ranked, poolSize + |excluded|) == pool.ranked[..n];
    FitsInOrder(pool, excluded, n);
  }
}
