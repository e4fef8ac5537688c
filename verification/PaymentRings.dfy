/**
 Which payments can deadlock: exactly those that form a directed cycle. Freedom from deadlocks is not a
 property of the code, and the condition is one on the payments, which a caller knows beforehand.
 */
module PaymentRings {
  import opened Ledger
  import opened StoreSystem
  import opened StoreInvariant
  import opened Deadlock
  import SerialIds
  import SoloRuns
  import Sums

  // ---- Whatever can form a ring can deadlock ----

  /** The i-th payment of the ring: each user pays the next, and the last the first. */
  function Order(ring: seq<UserId>, amounts: seq<int>, i: nat): Transfer
    requires i < |ring| == |amounts|
  {
    Transfer(ring[i], ring[After(ring, i)], amounts[i])
  }

  /** The calls of the ring can be made in s0: no user is busy, each can afford the amount, and ids are left. */
  ghost predicate CanPay(s0: State, ring: seq<UserId>, amounts: seq<int>, base: ReqId)
  {
    && Reachable(s0) && |ring| == |amounts| >= 2 && Distinct(ring)
    && s0.serials.accounts + 2 * |ring| <= INT_MAX
    && (forall i | 0 <= i < |ring| ::
          ring[i] !in s0.locks && 0 <= amounts[i] <= INT_MAX && amounts[i] <= SoloRuns.Affords(s0, ring[i]))
    && (forall r | r in s0.sessions :: r < base)
    && (forall u | u in s0.locks :: s0.locks[u] in s0.sessions)
  }

  /** The first n payments are requests base, base + 1, ..., which have got to their credits. */
  ghost predicate CallsMade(before: map<ReqId, Session>, now: map<ReqId, Session>,
                            ring: seq<UserId>, amounts: seq<int>, base: ReqId, n: nat)
    requires n <= |ring| == |amounts|
  {
    && (forall r :: r in now <==> r in before || base <= r < base + n)
    && (forall r | r in before && r in now && r < base :: now[r] == before[r])
    && (forall i | 0 <= i < n :: AtCredit(now, ring, amounts, base, i))
  }

  predicate AtCredit(now: map<ReqId, Session>, ring: seq<UserId>, amounts: seq<int>, base: ReqId, i: nat)
    requires i < |ring| == |amounts|
  {
    base + i in now && now[base + i].pc.Credit? && now[base + i].job == Some(Move(Order(ring, amounts, i)))
  }

  /** They hold the rows of the first n users, and no row besides those that were held before. */
  ghost predicate RowsTaken(before: map<UserId, ReqId>, now: map<UserId, ReqId>, ring: seq<UserId>, base: ReqId, n: nat)
    requires n <= |ring|
  {
    && (forall i | 0 <= i < n :: ring[i] in now && now[ring[i]] == base + i)
    && (forall u | u in now :: (u in before && now[u] == before[u]) || u in ring[..n])
  }

  ghost predicate Underway(s0: State, s: State, ring: seq<UserId>, amounts: seq<int>, base: ReqId, n: nat)
    requires n <= |ring| == |amounts|
  {
    && Reachable(s) && Leads(s0, s) && s.serials.accounts <= s0.serials.accounts + 2 * n
    && CallsMade(s0.sessions, s.sessions, ring, amounts, base, n)
    && RowsTaken(s0.locks, s.locks, ring, base, n)
    && forall u :: SoloRuns.Affords(s, u) == SoloRuns.Affords(s0, u)
  }

  lemma OpeningIsAffordable(s: State, s': State, a: UserId, b: UserId)
    requires SoloRuns.Opened(s, s', a, b)
    ensures forall u :: SoloRuns.Affords(s', u) == SoloRuns.Affords(s, u)
    ensures s'.serials.accounts <= s.serials.accounts + 2
  {
  }

  lemma FreshCall(before: map<ReqId, Session>, now: map<ReqId, Session>, ring: seq<UserId>, amounts: seq<int>, base: ReqId, n: nat)
    requires n <= |ring| == |amounts| && CallsMade(before, now, ring, amounts, base, n) && forall r | r in before :: r < base
    ensures base + n !in now
  {
  }

  lemma OneMoreCall(before: map<ReqId, Session>, now: map<ReqId, Session>, after: map<ReqId, Session>,
                    ring: seq<UserId>, amounts: seq<int>, base: ReqId, n: nat)
    requires n < |ring| == |amounts| && CallsMade(before, now, ring, amounts, base, n) && forall r | r in before :: r < base
    requires after.Keys == now.Keys + {base + n} && forall r | r in now :: after[r] == now[r]
    requires AtCredit(after, ring, amounts, base, n)
    ensures CallsMade(before, after, ring, amounts, base, n + 1)
  {
    forall r
      ensures r in after <==> r in before || base <= r < base + (n + 1)
    {
      assert r in after.Keys <==> r in now.Keys + {base + n};
    }
    forall i | 0 <= i < n + 1
      ensures AtCredit(after, ring, amounts, base, i)
    {
      if i < n { assert AtCredit(now, ring, amounts, base, i); }
    }
  }

  lemma NotAgain(ring: seq<UserId>, n: nat)
    requires n < |ring| && Distinct(ring)
    ensures ring[n] !in ring[..n] && ring[..n + 1] == ring[..n] + [ring[n]]
  {
    forall i | 0 <= i < n
      ensures ring[..n][i] != ring[n]
    {
      assert ring[i] != ring[n];
    }
  }

  lemma FreshRow(before: map<UserId, ReqId>, now: map<UserId, ReqId>, ring: seq<UserId>, base: ReqId, n: nat)
    requires n < |ring| && Distinct(ring) && RowsTaken(before, now, ring, base, n) && ring[n] !in before
    ensures ring[n] !in now && RowsTaken(before, now[ring[n] := base + n], ring, base, n + 1)
  {
    NotAgain(ring, n);
    var after := now[ring[n] := base + n];
    forall i | 0 <= i < n + 1
      ensures ring[i] in after && after[ring[i]] == base + i
    {
      if i < n { assert ring[..n][i] == ring[i]; }
    }
    forall u | u in after
      ensures (u in before && after[u] == before[u]) || u in ring[..n + 1]
    {
      if u != ring[n] { assert u in now && after[u] == now[u]; }
    }
  }

  lemma StillUnderway(s0: State, s: State, s': State, ring: seq<UserId>, amounts: seq<int>, base: ReqId, n: nat)
    requires CanPay(s0, ring, amounts, base) && n < |ring| && Underway(s0, s, ring, amounts, base, n)
    requires Reachable(s') && Leads(s, s') && SoloRuns.Opened(s, s', ring[n], ring[After(ring, n)])
    requires s'.sessions.Keys == s.sessions.Keys + {base + n} && forall q | q in s.sessions :: s'.sessions[q] == s.sessions[q]
    requires AtCredit(s'.sessions, ring, amounts, base, n) && s'.locks == s.locks[ring[n] := base + n]
    ensures Underway(s0, s', ring, amounts, base, n + 1)
  {
    hide Reachable, Leads, SoloRuns.Affords, SoloRuns.Opened, CallsMade, RowsTaken, AtCredit, Distinct;
    LeadsOn(s0, s, s');
    OpeningIsAffordable(s, s', ring[n], ring[After(ring, n)]);
    OneMoreCall(s0.sessions, s.sessions, s'.sessions, ring, amounts, base, n);
    FreshRow(s0.locks, s.locks, ring, base, n);
  }

  lemma CallIsPossible(s0: State, s: State, ring: seq<UserId>, amounts: seq<int>, base: ReqId, n: nat)
    requires CanPay(s0, ring, amounts, base) && n < |ring| && Underway(s0, s, ring, amounts, base, n)
    ensures Reachable(s) && base + n !in s.sessions && s.serials.accounts + 2 <= INT_MAX
    ensures ring[n] != ring[After(ring, n)] && ring[n] !in s.locks
    ensures |amounts| == |ring| && 0 <= amounts[n] <= INT_MAX && amounts[n] <= SoloRuns.Affords(s, ring[n])
  {
    hide Reachable, Leads, SoloRuns.Affords, CallsMade, RowsTaken;
    FreshCall(s0.sessions, s.sessions, ring, amounts, base, n);
    FreshRow(s0.locks, s.locks, ring, base, n);
  }

  /** The next payment gets to its credit as well. */
  lemma OneMore(s0: State, s: State, ring: seq<UserId>, amounts: seq<int>, names: seq<string>, base: ReqId, n: nat)
      returns (s': State)
    requires CanPay(s0, ring, amounts, base) && n < |ring| == |names| && Underway(s0, s, ring, amounts, base, n)
    ensures |amounts| == |ring| && Underway(s0, s', ring, amounts, base, n + 1)
  {
    hide Reachable, Leads, SoloRuns.Affords, SoloRuns.Opened, Underway, CanPay, After;
    CallIsPossible(s0, s, ring, amounts, base, n);
    s' := SoloRuns.RunsToCredit(s, base + n, Transfer(ring[n], ring[After(ring, n)], amounts[n]), names[n]);
    StillUnderway(s0, s, s', ring, amounts, base, n);
  }

  lemma NoneUnderway(s0: State, ring: seq<UserId>, amounts: seq<int>, base: ReqId)
    requires CanPay(s0, ring, amounts, base)
    ensures Underway(s0, s0, ring, amounts, base, 0)
  {
    LeadsNowhere(s0);
    hide Reachable, Leads, SoloRuns.Affords;
  }

  lemma AllIsGiven(s0: State, ring: seq<UserId>, amounts: seq<int>, base: ReqId)
    requires CanPay(s0, ring, amounts, base)
    ensures |ring| == |amounts| >= 2
  {
  }

  lemma {:induction false} AllUnderway(s0: State, ring: seq<UserId>, amounts: seq<int>, names: seq<string>, base: ReqId, n: nat)
      returns (s: State)
    requires CanPay(s0, ring, amounts, base) && n <= |ring| == |names|
    ensures Underway(s0, s, ring, amounts, base, n)
  {
    hide CanPay, Underway;
    AllIsGiven(s0, ring, amounts, base);
    if n == 0 {
      s := s0;
      NoneUnderway(s0, ring, amounts, base);
    } else {
      var before := AllUnderway(s0, ring, amounts, names, base, n - 1);
      s := OneMore(s0, before, ring, amounts, names, base, n - 1);
    }
  }

  lemma {:induction false} FreshId(ids: set<ReqId>) returns (base: ReqId)
    ensures forall r | r in ids :: r < base
    decreases |ids|
  {
    base := 0;
    if r0: ReqId :| r0 in ids {
      var other := FreshId(ids - {r0});
      base := if r0 < other then other else r0 + 1;
      forall r | r in ids
        ensures r < base
      {
        assert r == r0 || r in ids - {r0};
      }
    }
  }

  /** The requests of the ring, in its order. */
  function Members(base: ReqId, n: nat): seq<ReqId>
  {
    seq(n, i requires 0 <= i => base + i)
  }

  lemma MembersCount(base: ReqId, n: nat)
    ensures |Members(base, n)| == n && forall i | 0 <= i < n :: Members(base, n)[i] == base + i
  {
  }

  /** A half-done transfer holds its own row and nothing else. */
  lemma HoldsOwnRow(s0: State, s: State, ring: seq<UserId>, amounts: seq<int>, base: ReqId, i: nat)
    requires CanPay(s0, ring, amounts, base) && Underway(s0, s, ring, amounts, base, |ring|) && i < |ring|
    ensures HalfDone(s, base + i) && Payment(s, base + i) == Order(ring, amounts, i)
    ensures Payment(s, base + i).from == ring[i] && Payment(s, base + i).to == ring[After(ring, i)]
  {
    hide Reachable, Leads, SoloRuns.Affords;
    assert AtCredit(s.sessions, ring, amounts, base, i);
    assert ring[..|ring|] == ring;
    forall u | u in s.locks
      ensures s.locks[u] == base + i <==> u == ring[i]
    {
      if u in ring[..|ring|] {
        var j :| 0 <= j < |ring| && ring[j] == u;
        assert s.locks[ring[j]] == base + j;
      }
    }
  }

  lemma RingOfHalfDone(s: State, c: seq<ReqId>, ring: seq<UserId>)
    requires |c| == |ring| >= 2
    requires forall i | 0 <= i < |c| :: HalfDone(s, c[i])
    requires forall i | 0 <= i < |c| :: Payment(s, c[i]).from == ring[i] && Payment(s, c[i]).to == ring[After(ring, i)]
    ensures PaymentRing(s, c)
  {
    hide HalfDone, Payment;
  }

  lemma MemberHoldsOwnRow(s0: State, s: State, ring: seq<UserId>, amounts: seq<int>, base: ReqId, c: seq<ReqId>, i: nat)
    requires CanPay(s0, ring, amounts, base) && Underway(s0, s, ring, amounts, base, |ring|)
    requires c == Members(base, |ring|) && i < |c|
    ensures |c| == |ring| && HalfDone(s, c[i]) && Payment(s, c[i]) == Order(ring, amounts, i)
    ensures Payment(s, c[i]).from == ring[i] && Payment(s, c[i]).to == ring[After(ring, i)]
  {
    hide CanPay, Underway, HalfDone, Payment, Order, Members;
    MembersCount(base, |ring|);
    HoldsOwnRow(s0, s, ring, amounts, base, i);
  }

  lemma MembersRing(s0: State, s: State, ring: seq<UserId>, amounts: seq<int>, base: ReqId, c: seq<ReqId>)
    requires CanPay(s0, ring, amounts, base) && Underway(s0, s, ring, amounts, base, |ring|) && c == Members(base, |ring|)
    ensures |c| == |ring| && PaymentRing(s, c) && forall i | 0 <= i < |ring| :: Payment(s, c[i]) == Order(ring, amounts, i)
  {
    hide CanPay, Underway, HalfDone, Payment, PaymentRing, Order, Members, After;
    AllIsGiven(s0, ring, amounts, base);
    MembersCount(base, |ring|);
    forall i | 0 <= i < |c|
      ensures HalfDone(s, c[i]) && Payment(s, c[i]) == Order(ring, amounts, i)
      ensures Payment(s, c[i]).from == ring[i] && Payment(s, c[i]).to == ring[After(ring, i)]
    {
      MemberHoldsOwnRow(s0, s, ring, amounts, base, c, i);
    }
    RingOfHalfDone(s, c, ring);
  }

  lemma OnlyMembersAreNew(s0: State, s: State, ring: seq<UserId>, amounts: seq<int>, base: ReqId)
    requires CanPay(s0, ring, amounts, base) && Underway(s0, s, ring, amounts, base, |ring|)
    ensures forall r | r in s.sessions :: r in s0.sessions || r in Members(base, |ring|)
    ensures forall r | r in s0.sessions :: r in s.sessions && s.sessions[r] == s0.sessions[r]
  {
    hide Reachable, Leads, SoloRuns.Affords;
    var c := Members(base, |ring|);
    forall r | r in s.sessions && r !in s0.sessions
      ensures r in c
    {
      assert c[r - base] == r;
    }
  }

  lemma RingIsStuck(s: State, c: seq<ReqId>)
    requires WaitRing(s, c) && forall r | r in s.sessions && Live(s.sessions[r].pc) :: r in c
    ensures Stuck(s)
  {
    assert Waits(s, c[0], c[After(c, 0)]);
    forall r | r in s.sessions && Live(s.sessions[r].pc)
      ensures Blocked(s, r)
    {
      var i :| 0 <= i < |c| && c[i] == r;
      assert Waits(s, c[i], c[After(c, i)]);
    }
  }

  /**
   From any state in which the users of a ring are not busy and can afford it, calls by which each pays
   the next can end in a deadlock of just these payments. If no other call is pending, nothing can step.
   */
  lemma RingCanDeadlock(s0: State, ring: seq<UserId>, amounts: seq<int>, names: seq<string>) returns (s: State, c: seq<ReqId>)
    requires Reachable(s0) && |ring| == |amounts| == |names| >= 2 && Distinct(ring)
    requires s0.serials.accounts + 2 * |ring| <= INT_MAX
    requires forall i | 0 <= i < |ring| ::
               ring[i] !in s0.locks && 0 <= amounts[i] <= INT_MAX && amounts[i] <= SoloRuns.Affords(s0, ring[i])
    ensures Reachable(s) && Leads(s0, s) && |c| == |ring| && PaymentRing(s, c) && WaitRing(s, c)
    ensures forall i | 0 <= i < |ring| :: Payment(s, c[i]) == Order(ring, amounts, i)
    ensures (forall r | r in s0.sessions :: !Live(s0.sessions[r].pc)) ==> Stuck(s)
    ensures forall r | r in s0.sessions :: r in s.sessions && s.sessions[r] == s0.sessions[r]
    ensures forall r | r in s.sessions :: r in s0.sessions || r in c
  {
    var base := FreshId(s0.sessions.Keys);
    ReachableInv(s0);
    assert CanPay(s0, ring, amounts, base);
    s := AllUnderway(s0, ring, amounts, names, base, |ring|);
    c := Members(base, |ring|);
    MembersRing(s0, s, ring, amounts, base, c);
    hide Reachable, Leads, Inv, SoloRuns.Affords, PaymentRing, WaitRing, Stuck;
    DeadlockShape(s, c);
    OnlyMembersAreNew(s0, s, ring, amounts, base);
    if forall r | r in s0.sessions :: !Live(s0.sessions[r].pc) {
      RingIsStuck(s, c);
    }
  }

  /** The smallest case: any two users who can afford what they pay each other at the same time. */
  lemma MutualPaymentsDeadlock(s0: State, a: UserId, b: UserId, amount: int, back: int) returns (s: State, q: ReqId, r: ReqId)
    requires Reachable(s0) && a != b && a !in s0.locks && b !in s0.locks && s0.serials.accounts + 4 <= INT_MAX
    requires 0 <= amount <= INT_MAX && amount <= SoloRuns.Affords(s0, a)
    requires 0 <= back <= INT_MAX && back <= SoloRuns.Affords(s0, b)
    ensures Reachable(s) && Leads(s0, s) && WaitRing(s, [q, r])
    ensures Payment(s, q) == Transfer(a, b, amount) && Payment(s, r) == Transfer(b, a, back)
    // Nothing but the failure of one of them ever ends this.
    ensures forall events: seq<Event> | forall e | e in events :: !(e.Fail? && e.r in [q, r]) :: WaitRing(Exec(s, events), [q, r])
  {
    var ring, amounts := [a, b], [amount, back];
    var c;
    s, c := RingCanDeadlock(s0, ring, amounts, ["", ""]);
    q, r := c[0], c[1];
    assert c == [q, r];
    assert Payment(s, c[0]) == Order(ring, amounts, 0) && Payment(s, c[1]) == Order(ring, amounts, 1);
    hide Reachable, Leads, WaitRing, Exec, Payment, SoloRuns.Affords;
    forall events: seq<Event> | forall e | e in events :: !(e.Fail? && e.r in [q, r])
      ensures WaitRing(Exec(s, events), [q, r])
    {
      RingWaitsForGood(s, events, [q, r]);
    }
  }

  // ---- Only what forms a ring can deadlock ----

  /** All pending transfers are between users whom the relation permits to pay one another. */
  ghost predicate Within(s: State, pays: (UserId, UserId) -> bool)
  {
    forall r | r in s.sessions && Live(s.sessions[r].pc) && s.sessions[r].job.Some? && s.sessions[r].job.value.Move? ::
      pays(s.sessions[r].job.value.transfer.from, s.sessions[r].job.value.transfer.to)
  }

  /** A directed cycle of payments among distinct users, not too long for the ids of the accounts. */
  predicate Cycle(pays: (UserId, UserId) -> bool, ring: seq<UserId>)
  {
    && |ring| >= 2 && Distinct(ring) && 2 * |ring| <= INT_MAX
    && forall i | 0 <= i < |ring| :: pays(ring[i], ring[After(ring, i)])
  }

  lemma {:induction false} DistinctSize(c: seq<ReqId>, members: set<ReqId>)
    requires Distinct(c) && forall r :: r in members <==> r in c
    ensures |members| == |c|
  {
    if c == [] {
      if members != {} { var r := Sums.SomeMember(members); }
    } else {
      DistinctSize(Front(c), members - {Last(c)});
    }
  }

  lemma SendersAreDistinct(s: State, c: seq<ReqId>, ring: seq<UserId>)
    requires Inv(s) && Distinct(c) && |ring| == |c|
    requires forall i | 0 <= i < |c| :: HalfDone(s, c[i]) && ring[i] == Payment(s, c[i]).from
    ensures Distinct(ring)
  {
    hide Inv, HalfDone, Payment;
    forall i, j | 0 <= i < j < |ring|
      ensures ring[i] != ring[j]
    {
      HalfDoneHolds(s, c[i]);
      HalfDoneHolds(s, c[j]);
    }
  }

  lemma MembersArePermitted(s: State, pays: (UserId, UserId) -> bool, r: ReqId)
    requires Within(s, pays) && HalfDone(s, r)
    ensures pays(Payment(s, r).from, Payment(s, r).to)
  {
  }

  lemma RingIsNumbered(s: State, c: seq<ReqId>)
    requires Reachable(s) && PaymentRing(s, c) && Distinct(c)
    ensures 2 * |c| <= INT_MAX
  {
    hide Reachable;
    var members := set r | r in c;
    DistinctSize(c, members);
    forall r | r in members
      ensures HalfDone(s, r)
    {
      var i :| 0 <= i < |c| && c[i] == r;
    }
    SerialIds.PendingCreditsAreNumbered(s, members);
  }

  /** A stuck state shows a cycle in whatever relation its payments keep to. */
  lemma StuckShowsCycle(s: State, pays: (UserId, UserId) -> bool) returns (ring: seq<UserId>)
    requires Reachable(s) && Stuck(s) && Within(s, pays)
    ensures Cycle(pays, ring)
  {
    hide Reachable, Inv, Stuck, Within, HalfDone, Payment;
    StuckMeansPaymentRing(s);
    var c: seq<ReqId> :| PaymentRing(s, c) && Distinct(c);
    ReachableInv(s);
    RingIsNumbered(s, c);
    ring := seq(|c|, i requires 0 <= i < |c| => Payment(s, c[i]).from);
    SendersAreDistinct(s, c, ring);
    forall i | 0 <= i < |ring|
      ensures pays(ring[i], ring[After(ring, i)])
    {
      MembersArePermitted(s, pays, c[i]);
    }
  }

  ghost predicate CanDeadlock(pays: (UserId, UserId) -> bool)
  {
    exists s :: Reachable(s) && Stuck(s) && Within(s, pays)
  }

  lemma RingPaysWithin(s: State, c: seq<ReqId>, pays: (UserId, UserId) -> bool, ring: seq<UserId>)
    requires |c| == |ring| && forall i | 0 <= i < |ring| :: pays(ring[i], ring[After(ring, i)])
    requires forall i | 0 <= i < |ring| :: Payment(s, c[i]).from == ring[i] && Payment(s, c[i]).to == ring[After(ring, i)]
    requires forall r | r in s.sessions :: r in c
    ensures Within(s, pays)
  {
    hide After;
    forall r | r in s.sessions && s.sessions[r].job.Some? && s.sessions[r].job.value.Move?
      ensures pays(s.sessions[r].job.value.transfer.from, s.sessions[r].job.value.transfer.to)
    {
      assert r in c;
      var i :| 0 <= i < |c| && c[i] == r;
      assert Payment(s, c[i]) == s.sessions[r].job.value.transfer;
    }
  }

  lemma NobodyYet() returns (s: State)
    ensures Reachable(s) && s.sessions == map[] && s.locks == map[] && s.serials.accounts == 0
    ensures forall u :: SoloRuns.Affords(s, u) == START_BALANCE
  {
    s := Init(map[]);
    assert s == Exec(Init(s.goods), []);
  }

  lemma CycleCanDeadlock(pays: (UserId, UserId) -> bool, ring: seq<UserId>)
    requires Cycle(pays, ring)
    ensures CanDeadlock(pays)
  {
    hide Reachable, Leads, Stuck, PaymentRing, WaitRing, Within, Distinct, After, Payment, SoloRuns.Affords;
    var amounts := seq(|ring|, _ => 1);
    var s0 := NobodyYet();
    var s, c := RingCanDeadlock(s0, ring, amounts, seq(|ring|, _ => ""));
    forall i | 0 <= i < |ring|
      ensures Payment(s, c[i]).from == ring[i] && Payment(s, c[i]).to == ring[After(ring, i)]
    {
      assert Payment(s, c[i]) == Order(ring, amounts, i);
    }
    RingPaysWithin(s, c, pays, ring);
  }

  /**
   The exact condition for freedom from deadlocks: payments can deadlock if and only if they permit a
   directed cycle. Who pays whom is known before any call is made.
   */
  lemma DeadlockIffCycle(pays: (UserId, UserId) -> bool)
    ensures CanDeadlock(pays) <==> exists ring :: Cycle(pays, ring)
  {
    hide Cycle;
    if CanDeadlock(pays) {
      var s :| Reachable(s) && Stuck(s) && Within(s, pays);
      var ring := StuckShowsCycle(s, pays);
    }
    if ring :| Cycle(pays, ring) {
      CycleCanDeadlock(pays, ring);
    }
  }
}
