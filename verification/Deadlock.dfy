/**
 Who waits for whom. The rules of section 13.3.4 of the PostgreSQL 16 documentation resolve a
 deadlock by aborting a transaction; here it is shown which deadlocks there are, and when there are none.
 */
module Deadlock {
  import opened Sums
  import opened Ledger
  import opened StoreSystem
  import opened StoreInvariant
  import Outcomes

  /** The row whose lock the next statement of r needs. */
  function Needs(s: State, r: ReqId): Option<UserId>
    requires r in s.sessions
  {
    var ss := s.sessions[r];
    if ss.job.None? then None
    else
      var u := if ss.pc.Credit? && ss.job.value.Move? then ss.job.value.transfer.to else Payer(ss.job.value);
      if (ss.pc.Lock? || ss.pc.Debit? || ss.pc.Credit?) && u in s.tables.balances then Some(u) else None
  }

  /** a cannot go on before b has ended. */
  predicate Waits(s: State, a: ReqId, b: ReqId)
  {
    a in s.sessions && Needs(s, a).Some? && HeldByOther(s, a, Needs(s, a).value) && s.locks[Needs(s, a).value] == b
  }

  predicate Blocked(s: State, r: ReqId)
    requires r in s.sessions
  {
    Needs(s, r).Some? && HeldByOther(s, r, Needs(s, r).value)
  }

  /** The next thing that happens to r when nothing fails; the auth service answers from its directory. */
  function Step(s: State, r: ReqId, directory: map<string, UserId>): Event
    requires r in s.sessions
  {
    var ss := s.sessions[r];
    if ss.pc.Resolve? && ss.request.SendCoins? then
      Answer(r, if ss.request.toUsername in directory then Some(directory[ss.request.toUsername]) else None)
    else Advance(r)
  }

  /** How many steps a request at this point has left at most. */
  function Remaining(pc: Pc): nat
  {
    match pc
    case Intercept => 11
    case Resolve => 10
    case OpenRecipient => 9
    case Begin => 8
    case Lock => 7
    case Check => 6
    case Debit => 5
    case Credit => 4
    case Record => 3
    case Commit => 2
    case Rollback(_) => 1
    case Done(_) => 0
  }

  /** The request has moved on, or nothing has happened at all. */
  predicate MovedOn(s: State, s': State, r: ReqId)
    requires r in s.sessions && r in s'.sessions
  {
    s' == s || Remaining(s'.sessions[r].pc) < Remaining(s.sessions[r].pc)
  }

  lemma DebitMovesOn(s: State, r: ReqId)
    requires r in s.sessions && s.sessions[r].job.Some?
    ensures s.sessions[r].pc.Lock? ==>
              MovedOn(s, LockPayer(s, r), r) && (LockPayer(s, r) == s <==> Blocked(s, r))
    ensures s.sessions[r].pc.Debit? ==>
              && MovedOn(s, DebitPayer(s, r), r)
              && (s.sessions[r].due <= INT_MAX ==> (DebitPayer(s, r) == s <==> Blocked(s, r)))
  {
  }

  lemma CreditMovesOn(s: State, r: ReqId)
    requires r in s.sessions && s.sessions[r].job.Some? && s.sessions[r].pc.Credit? && s.sessions[r].job.value.Move?
    ensures MovedOn(s, CreditRecipient(s, r), r)
    ensures s.sessions[r].due <= INT_MAX ==> (CreditRecipient(s, r) == s <==> Blocked(s, r))
  {
    hide Row;
  }

  lemma RecordMovesOn(s: State, r: ReqId)
    requires r in s.sessions && s.sessions[r].job.Some? && s.sessions[r].pc.Record?
    ensures MovedOn(s, InsertRecord(s, r), r)
    ensures !s.sessions[r].job.value.Open? ==> Remaining(InsertRecord(s, r).sessions[r].pc) < Remaining(Record)
  {
  }

  lemma ResolveMovesOn(s: State, r: ReqId, user: Option<UserId>)
    requires r in s.sessions && s.sessions[r].pc.Resolve?
    ensures s.sessions[r].request.SendCoins? ==>
              Remaining(AnswerRecipient(s, r, user).sessions[r].pc) < Remaining(Resolve)
    ensures s.sessions[r].request.BuyItem? ==>
              Remaining(LookUpGood(s, r).sessions[r].pc) < Remaining(Resolve)
  {
  }

  lemma EndMovesOn(s: State, r: ReqId, o: Outcome)
    requires r in s.sessions
    ensures EndTx(s, r, o).sessions[r].pc == Done(o)
    ensures s.sessions[r].job.Some? ==> CommitTx(s, r, o).sessions[r].pc == Done(o)
  {
  }

  lemma ExecuteMovesOn(s: State, r: ReqId)
    requires r in s.sessions
    ensures MovedOn(s, Execute(s, r), r)
  {
    var ss := s.sessions[r];
    hide LockPayer, DebitPayer, CreditRecipient, LookUpGood, InsertRecord, EndTx, CommitTx;
    match ss.pc {
      case Resolve => ResolveMovesOn(s, r, None);
      case Lock => if ss.job.Some? { DebitMovesOn(s, r); }
      case Debit => if ss.job.Some? { DebitMovesOn(s, r); }
      case Credit => if ss.job.Some? && ss.job.value.Move? { CreditMovesOn(s, r); }
      case Record => if ss.job.Some? { RecordMovesOn(s, r); }
      case Commit => EndMovesOn(s, r, Ok);
      case Rollback(why) => EndMovesOn(s, r, why);
      case _ =>
    }
  }

  lemma FailureMovesOn(s: State, r: ReqId)
    requires r in s.sessions
    ensures MovedOn(s, Vanish(s, r), r) && MovedOn(s, Break(s, r), r)
  {
    hide CommitTx;
    if s.sessions[r].job.Some? { EndMovesOn(s, r, Failure); }
  }

  /** Every event but an arrival takes its request forward, or does nothing. */
  lemma EffectiveStep(s: State, e: Event)
    requires e.r in s.sessions
    ensures MovedOn(s, Next(s, e), e.r)
  {
    hide Execute, Vanish, Break, AnswerRecipient, MovedOn;
    ExecuteMovesOn(s, e.r);
    FailureMovesOn(s, e.r);
    assert MovedOn(s, s, e.r) by { Stutters(s, e.r); }
    if e.Answer? && s.sessions[e.r].pc.Resolve? {
      ResolveMovesOn(s, e.r, e.user);
      if s.sessions[e.r].request.SendCoins? { Answered(s, e); }
    }
  }

  lemma Stutters(s: State, r: ReqId)
    requires r in s.sessions
    ensures MovedOn(s, s, r)
  {
  }

  lemma Answered(s: State, e: Event)
    requires e.r in s.sessions && e.Answer? && s.sessions[e.r].pc.Resolve? && s.sessions[e.r].request.SendCoins?
    ensures MovedOn(s, Next(s, e), e.r)
  {
    ResolveMovesOn(s, e.r, e.user);
    hide AnswerRecipient;
  }

  /** Waiting for a row is the only thing that keeps a live request from its next step. */
  lemma BlockedIffNoStep(s: State, r: ReqId, directory: map<string, UserId>)
    requires Inv(s) && r in s.sessions && Live(s.sessions[r].pc)
    ensures Blocked(s, r) <==> Next(s, Step(s, r, directory)) == s
  {
    var ss := s.sessions[r];
    InvAt(s, r);
    CostFits(s, r);
    hide Inv, SessionFits, Sound, LockPayer, DebitPayer, CreditRecipient, LookUpGood, AnswerRecipient, InsertRecord;
    hide EndTx, CommitTx, OpenThen, Blocked, MovedOn;
    match ss.pc {
      case Resolve => ResolveMovesOn(s, r, if ss.request.SendCoins? then Step(s, r, directory).user else None);
      case Lock => DebitMovesOn(s, r);
      case Debit => DebitMovesOn(s, r);
      case Credit => CreditMovesOn(s, r);
      case Record => RecordMovesOn(s, r);
      case Commit => EndMovesOn(s, r, Ok);
      case Rollback(why) => EndMovesOn(s, r, why);
      case _ =>
    }
    if !ss.pc.Lock? && !ss.pc.Debit? && !ss.pc.Credit? { NotWaiting(s, r); }
  }

  lemma NotWaiting(s: State, r: ReqId)
    requires r in s.sessions && !s.sessions[r].pc.Lock? && !s.sessions[r].pc.Debit? && !s.sessions[r].pc.Credit?
    ensures !Blocked(s, r)
  {
  }

  lemma CostFits(s: State, r: ReqId)
    requires Inv(s) && r in s.sessions
    ensures var ss := s.sessions[r];
            && (ss.pc.Debit? || ss.pc.Credit? ==> ss.due <= INT_MAX)
            && (ss.job.Some? ==> !ss.job.value.Open?)
  {
  }

  // ---- The shape of deadlocks ----

  /** The place after i, going round. */
  function After<T>(c: seq<T>, i: nat): (j: nat)
    requires i < |c|
    ensures j < |c|
  {
    if i + 1 < |c| then i + 1 else 0
  }

  predicate Distinct<T(==)>(c: seq<T>)
  {
    forall i, j | 0 <= i < j < |c| :: c[i] != c[j]
  }

  /** Each request of the ring waits for the one after it, and the last for the first. */
  ghost predicate WaitRing(s: State, c: seq<ReqId>)
  {
    c != [] && forall i | 0 <= i < |c| :: Waits(s, c[i], c[After(c, i)])
  }

  /** A transfer that has debited its sender, owns just that row, and is about to credit another. */
  ghost predicate HalfDone(s: State, r: ReqId)
  {
    && r in s.sessions && s.sessions[r].pc.Credit? && s.sessions[r].job.Some? && s.sessions[r].job.value.Move?
    && forall u | u in s.locks :: s.locks[u] == r <==> u == Payer(s.sessions[r].job.value)
  }

  /** The payment that a request has resolved to, if it is a transfer. */
  function Payment(s: State, r: ReqId): Transfer
  {
    if r in s.sessions && s.sessions[r].job.Some? && s.sessions[r].job.value.Move?
    then s.sessions[r].job.value.transfer else Transfer(0, 0, 0)
  }

  /** At least two half-done transfers, each paying to the sender of the next: a directed cycle of payments. */
  ghost predicate PaymentRing(s: State, c: seq<ReqId>)
  {
    && |c| >= 2
    && (forall i | 0 <= i < |c| :: HalfDone(s, c[i]))
    && (forall i | 0 <= i < |c| :: Payment(s, c[i]).to == Payment(s, c[After(c, i)]).from)
  }

  /** Whoever waits while another waits for it is a half-done transfer: purchases wait empty-handed. */
  lemma MiddleIsHalfDone(s: State, a: ReqId, b: ReqId, c: ReqId)
    requires Inv(s) && Waits(s, a, b) && Waits(s, b, c)
    ensures a in s.sessions && b in s.sessions
    ensures HalfDone(s, b) && Needs(s, a) == Some(Payment(s, b).from) && Needs(s, b) == Some(Payment(s, b).to) && a != b
  {
    InvAt(s, b);
    var u := Needs(s, a).value;
    assert u in s.locks && MayHold(s.sessions[b], u);
    assert !s.sessions[b].pc.Lock?;
    assert s.sessions[b].pc.Credit?;
    assert forall v | v in s.locks && s.locks[v] == b :: MayHold(s.sessions[b], v);
  }

  /** Whoever waits holds nothing, or is a transfer that holds just its own sender's row. */
  lemma WaiterHolds(s: State, a: ReqId, b: ReqId, u: UserId)
    requires Reachable(s) && Waits(s, a, b) && u in s.locks && s.locks[u] == a
    ensures s.sessions[a].request.SendCoins? && s.sessions[a].pc.Credit? && u == s.sessions[a].request.from
  {
    ReachableInv(s);
    LockHygiene(s, u);
    InvAt(s, a);
  }

  /** The row of a half-done transfer's sender exists and is its own. */
  lemma HalfDoneHolds(s: State, r: ReqId)
    requires Inv(s) && HalfDone(s, r)
    ensures var t := Payment(s, r);
            t.from in s.locks && s.locks[t.from] == r && t.from != t.to && t.to in s.tables.balances
  {
    InvAt(s, r);
  }

  lemma WaitRingPays(s: State, c: seq<ReqId>)
    requires Inv(s) && WaitRing(s, c)
    ensures PaymentRing(s, c)
  {
    hide Inv, Waits, HalfDone, Needs;
    forall i | 0 <= i < |c|
      ensures HalfDone(s, c[After(c, i)]) && c[i] != c[After(c, i)] && c[i] in s.sessions
      ensures Needs(s, c[i]) == Some(Payment(s, c[After(c, i)]).from)
      ensures c[After(c, i)] in s.sessions && Needs(s, c[After(c, i)]) == Some(Payment(s, c[After(c, i)]).to)
    {
      MiddleIsHalfDone(s, c[i], c[After(c, i)], c[After(c, After(c, i))]);
    }
    forall j | 0 <= j < |c|
      ensures HalfDone(s, c[j]) && Payment(s, c[j]).to == Payment(s, c[After(c, j)]).from
    {
      var i := if j == 0 then |c| - 1 else j - 1;
      assert After(c, i) == j;
    }
    assert c[0] != c[After(c, 0)];
  }

  lemma PaymentRingWaits(s: State, c: seq<ReqId>)
    requires Inv(s) && PaymentRing(s, c)
    ensures WaitRing(s, c)
  {
    hide Inv, Waits, HalfDone;
    forall i | 0 <= i < |c|
      ensures Waits(s, c[i], c[After(c, i)])
    {
      RingWaits(s, c[i], c[After(c, i)]);
    }
  }

  /** The exact shape of deadlocks: wait rings are payment rings. */
  lemma DeadlockShape(s: State, c: seq<ReqId>)
    requires Reachable(s)
    ensures WaitRing(s, c) <==> PaymentRing(s, c)
  {
    ReachableInv(s);
    hide Inv, WaitRing, PaymentRing;
    if WaitRing(s, c) { WaitRingPays(s, c); }
    if PaymentRing(s, c) { PaymentRingWaits(s, c); }
  }

  lemma RingWaits(s: State, a: ReqId, b: ReqId)
    requires Inv(s) && HalfDone(s, a) && HalfDone(s, b) && Payment(s, a).to == Payment(s, b).from
    ensures Waits(s, a, b)
  {
    HalfDoneHolds(s, a);
    HalfDoneHolds(s, b);
  }

  // ---- A ring waits for good ----

  /** What another request's step leaves alone: q's session, its locks, and all accounts. */
  ghost predicate LeftAlone(s: State, s': State, q: ReqId)
    requires q in s.sessions
  {
    && q in s'.sessions && s'.sessions[q] == s.sessions[q]
    && s.tables.balances.Keys <= s'.tables.balances.Keys
    && forall u | u in s.locks && s.locks[u] == q :: u in s'.locks && s'.locks[u] == q
  }

  lemma UpdatesLeaveAlone(s: State, r: ReqId, q: ReqId)
    requires r in s.sessions && s.sessions[r].job.Some? && q in s.sessions && q != r
    ensures LeftAlone(s, LockPayer(s, r), q) && LeftAlone(s, DebitPayer(s, r), q) && LeftAlone(s, InsertRecord(s, r), q)
    ensures s.sessions[r].job.value.Move? ==> LeftAlone(s, CreditRecipient(s, r), q)
  {
    hide Row;
  }

  lemma OthersLeaveAlone(s: State, r: ReqId, q: ReqId, u: UserId, next: Pc, o: Outcome)
    requires r in s.sessions && q in s.sessions && q != r
    ensures LeftAlone(s, OpenThen(s, r, u, next), q) && LeftAlone(s, EndTx(s, r, o), q)
    ensures s.sessions[r].job.Some? ==> LeftAlone(s, CommitTx(s, r, o), q)
    ensures s.sessions[r].request.BuyItem? ==> LeftAlone(s, LookUpGood(s, r), q)
  {
  }

  lemma ExecuteLeavesAlone(s: State, r: ReqId, q: ReqId)
    requires r in s.sessions && q in s.sessions && q != r
    ensures LeftAlone(s, Execute(s, r), q)
  {
    var ss := s.sessions[r];
    hide LockPayer, DebitPayer, CreditRecipient, LookUpGood, InsertRecord, EndTx, CommitTx, OpenThen;
    if ss.job.Some? { UpdatesLeaveAlone(s, r, q); }
    match ss.pc {
      case Intercept => OthersLeaveAlone(s, r, q, Caller(ss.request), Resolve, Ok);
      case Resolve => OthersLeaveAlone(s, r, q, 0, Resolve, Ok);
      case OpenRecipient =>
        if ss.job.Some? && ss.job.value.Move? { OthersLeaveAlone(s, r, q, ss.job.value.transfer.to, Begin, Ok); }
      case Commit => OthersLeaveAlone(s, r, q, 0, Resolve, Ok);
      case Rollback(why) => OthersLeaveAlone(s, r, q, 0, Resolve, why);
      case _ =>
    }
  }

  lemma VanishLeavesAlone(s: State, r: ReqId, q: ReqId)
    requires r in s.sessions && q in s.sessions && q != r
    ensures LeftAlone(s, Vanish(s, r), q)
  {
    var ss := s.sessions[r];
    hide CommitTx, OpenThen;
    match ss.pc {
      case Intercept => OthersLeaveAlone(s, r, q, Caller(ss.request), Done(Failure), Failure);
      case OpenRecipient =>
        if ss.job.Some? && ss.job.value.Move? { OthersLeaveAlone(s, r, q, ss.job.value.transfer.to, Done(Failure), Failure); }
      case Commit => OthersLeaveAlone(s, r, q, 0, Resolve, Failure);
      case _ =>
    }
  }

  lemma NextLeavesAlone(s: State, e: Event, q: ReqId)
    requires q in s.sessions && q != e.r
    ensures LeftAlone(s, Next(s, e), q)
  {
    hide Execute, Vanish;
    if e.r in s.sessions {
      ExecuteLeavesAlone(s, e.r, q);
      VanishLeavesAlone(s, e.r, q);
    }
  }

  /** A blocked request stays where it is, whatever happens to it short of a failure. */
  lemma BlockedStays(s: State, e: Event)
    requires Inv(s) && e.r in s.sessions && Blocked(s, e.r) && !e.Fail?
    ensures Next(s, e) == s
  {
    InvAt(s, e.r);
    CostFits(s, e.r);
    hide Inv, SessionFits, Sound;
  }

  lemma WaitStays(s: State, e: Event, a: ReqId, b: ReqId)
    requires Inv(s) && Waits(s, a, b) && b in s.sessions && Blocked(s, b)
    requires e.Fail? ==> e.r != a && e.r != b
    ensures Waits(Next(s, e), a, b) && Next(s, e).sessions[a] == s.sessions[a]
  {
    if e.r == a || e.r == b {
      BlockedStays(s, e);
    } else {
      NextLeavesAlone(s, e, a);
      NextLeavesAlone(s, e, b);
    }
    hide Inv, Next;
  }

  /** A ring survives every event but the failure of one of its members. */
  lemma RingStays(s: State, e: Event, c: seq<ReqId>)
    requires Inv(s) && WaitRing(s, c) && !(e.Fail? && e.r in c)
    ensures WaitRing(Next(s, e), c)
    ensures forall r | r in c :: r in s.sessions && r in Next(s, e).sessions && Next(s, e).sessions[r] == s.sessions[r]
  {
    hide Inv, Next, Needs;
    forall i | 0 <= i < |c|
      ensures Waits(Next(s, e), c[i], c[After(c, i)])
      ensures c[i] in s.sessions && c[i] in Next(s, e).sessions && Next(s, e).sessions[c[i]] == s.sessions[c[i]]
    {
      var j := After(c, i);
      assert Waits(s, c[j], c[After(c, j)]);
      WaitStays(s, e, c[i], c[j]);
    }
  }

  /** Without a failure of one of them, its members wait for good, whatever else the run brings. */
  lemma {:induction false} RingWaitsForGood(s: State, events: seq<Event>, c: seq<ReqId>)
    requires Reachable(s) && WaitRing(s, c) && forall e | e in events :: !(e.Fail? && e.r in c)
    ensures WaitRing(Exec(s, events), c)
    ensures forall r | r in c :: r in s.sessions && r in Exec(s, events).sessions && Exec(s, events).sessions[r] == s.sessions[r]
  {
    hide Reachable, Next, WaitRing, Inv;
    if events == [] {
      MembersAreThere(s, c);
    } else {
      var front, e := Front(events), Last(events);
      assert forall d | d in front :: d in events;
      assert e in events;
      RingWaitsForGood(s, front, c);
      ReachableExec(s, front);
      ReachableInv(Exec(s, front));
      RingStays(Exec(s, front), e, c);
    }
  }

  lemma MembersAreThere(s: State, c: seq<ReqId>)
    requires WaitRing(s, c)
    ensures forall r | r in c :: r in s.sessions
  {
    forall r | r in c
      ensures r in s.sessions
    {
      var i :| 0 <= i < |c| && c[i] == r;
      assert Waits(s, c[i], c[After(c, i)]);
    }
  }

  // ---- Deadlocks are the only way to get stuck ----

  ghost predicate Stuck(s: State)
  {
    && (exists r :: r in s.sessions && Live(s.sessions[r].pc))
    && (forall r | r in s.sessions && Live(s.sessions[r].pc) :: Blocked(s, r))
  }

  /** A walk along the waiting relation. */
  ghost predicate Walk(s: State, p: seq<ReqId>)
  {
    p != [] && forall i | 0 <= i < |p| - 1 :: Waits(s, p[i], p[i + 1])
  }

  lemma StuckWaits(s: State, r: ReqId) returns (b: ReqId)
    requires Inv(s) && Stuck(s) && r in s.sessions && Live(s.sessions[r].pc)
    ensures Waits(s, r, b) && b in s.sessions && Live(s.sessions[b].pc)
  {
    b := s.locks[Needs(s, r).value];
  }

  /** A walk that returns to a request it has visited contains a ring. */
  lemma WalkReturns(s: State, p: seq<ReqId>, k: nat)
    requires Walk(s, p) && k < |p| && Waits(s, Last(p), p[k])
    ensures WaitRing(s, p[k..]) && (Distinct(p) ==> Distinct(p[k..]))
  {
    hide Waits;
    var c := p[k..];
    forall i | 0 <= i < |c|
      ensures Waits(s, c[i], c[After(c, i)])
    {
      assert c[i] == p[k + i];
    }
  }

  /** A walk among finitely many requests that all wait comes back to where it has been. */
  lemma {:induction false} WalkCloses(s: State, p: seq<ReqId>, seen: set<ReqId>) returns (c: seq<ReqId>)
    requires Inv(s) && Stuck(s) && Walk(s, p) && Distinct(p)
    requires forall x :: x in seen <==> x in p
    requires Last(p) in s.sessions && Live(s.sessions[Last(p)].pc)
    ensures WaitRing(s, c) && Distinct(c)
    decreases s.sessions.Keys - seen
  {
    hide Inv, Waits, Stuck, WaitRing;
    var b := StuckWaits(s, Last(p));
    if b in seen {
      var k :| 0 <= k < |p| && p[k] == b;
      WalkReturns(s, p, k);
      c := p[k..];
    } else {
      assert b in s.sessions.Keys - seen && b !in s.sessions.Keys - (seen + {b});
      c := WalkCloses(s, p + [b], seen + {b});
    }
  }

  /** If no request can step, the payments of some of them form a directed cycle. */
  lemma StuckMeansPaymentRing(s: State)
    requires Reachable(s) && Stuck(s)
    ensures exists c: seq<ReqId> :: PaymentRing(s, c) && Distinct(c)
  {
    ReachableInv(s);
    hide Inv, Reachable, WaitRing, PaymentRing, Blocked;
    var r :| r in s.sessions && Live(s.sessions[r].pc);
    var c := RingFrom(s, r);
    DeadlockShape(s, c);
  }

  lemma RingFrom(s: State, r: ReqId) returns (c: seq<ReqId>)
    requires Inv(s) && Stuck(s) && r in s.sessions && Live(s.sessions[r].pc)
    ensures WaitRing(s, c) && Distinct(c)
  {
    hide Inv, Stuck, Waits, WaitRing;
    assert Walk(s, [r]);
    c := WalkCloses(s, [r], {r});
  }

  // ---- Without payment cycles there are no deadlocks ----

  /** The users can be ranked so that every pending transfer pays upwards; those not yet resolved included. */
  ghost predicate PaysUpward(s: State, directory: map<string, UserId>, rank: UserId -> int)
  {
    forall r | r in s.sessions && Live(s.sessions[r].pc) && s.sessions[r].request.SendCoins? ::
      var ss := s.sessions[r];
      if ss.job.Some? then ss.job.value.Move? ==> rank(ss.job.value.transfer.from) < rank(ss.job.value.transfer.to)
      else
        ss.request.toUsername in directory ==>
          directory[ss.request.toUsername] == ss.request.from
          || rank(ss.request.from) < rank(directory[ss.request.toUsername])
  }

  /** Each payment of the ring goes up. */
  lemma RingStepUp(s: State, c: seq<ReqId>, directory: map<string, UserId>, rank: UserId -> int, i: nat)
    requires Inv(s) && PaymentRing(s, c) && PaysUpward(s, directory, rank) && i < |c|
    ensures rank(Payment(s, c[i]).from) < rank(Payment(s, c[After(c, i)]).from)
  {
    assert HalfDone(s, c[i]);
    InvAt(s, c[i]);
    assert s.sessions[c[i]].request.SendCoins?;
  }

  lemma {:induction false} RankClimbs(s: State, c: seq<ReqId>, directory: map<string, UserId>, rank: UserId -> int, i: nat)
    requires Inv(s) && PaymentRing(s, c) && PaysUpward(s, directory, rank) && i < |c|
    ensures rank(Payment(s, c[0]).from) <= rank(Payment(s, c[i]).from)
  {
    hide Inv, PaymentRing, PaysUpward, Payment;
    if i > 0 {
      RankClimbs(s, c, directory, rank, i - 1);
      RingStepUp(s, c, directory, rank, i - 1);
    }
  }

  lemma NoRingUpward(s: State, c: seq<ReqId>, directory: map<string, UserId>, rank: UserId -> int)
    requires Inv(s) && PaysUpward(s, directory, rank)
    ensures !PaymentRing(s, c)
  {
    if PaymentRing(s, c) {
      RankClimbs(s, c, directory, rank, |c| - 1);
      RingStepUp(s, c, directory, rank, |c| - 1);
    }
  }

  /** Progress: if pending payments go upward, some live request can take its next step. */
  lemma Progress(s: State, directory: map<string, UserId>, rank: UserId -> int) returns (r: ReqId)
    requires Reachable(s) && PaysUpward(s, directory, rank)
    requires exists q :: q in s.sessions && Live(s.sessions[q].pc)
    ensures r in s.sessions && Live(s.sessions[r].pc) && !Blocked(s, r)
  {
    ReachableInv(s);
    if Stuck(s) {
      StuckMeansPaymentRing(s);
      var c :| PaymentRing(s, c);
      NoRingUpward(s, c, directory, rank);
    }
    r :| r in s.sessions && Live(s.sessions[r].pc) && !Blocked(s, r);
  }

  // ---- Every run without new arrivals ends ----

  ghost function Work(s: State): map<ReqId, int>
  {
    map r | r in s.sessions :: Remaining(s.sessions[r].pc)
  }

  /** The steps that all requests together have left at most. */
  ghost function Measure(s: State): int
  {
    Sum(Work(s))
  }

  lemma MeasureIsNatural(s: State)
    ensures 0 <= Measure(s)
  {
    SumNonNegative(Work(s));
  }

  /** Whatever the event, if it changes anything it uses up a step. */
  lemma MeasureDecreases(s: State, e: Event)
    requires !e.Arrive? && Next(s, e) != s
    ensures Measure(Next(s, e)) < Measure(s)
  {
    assert e.r in s.sessions;
    var s' := Next(s, e);
    EffectiveStep(s, e);
    Outcomes.NextIsOwn(s, e);
    hide Next;
    assert Work(s') == Work(s)[e.r := Remaining(s'.sessions[e.r].pc)];
    SumUpdate(Work(s), e.r, Remaining(s'.sessions[e.r].pc));
  }

  /** Every event of the sequence changes the state it meets. */
  ghost predicate Effective(s: State, events: seq<Event>)
  {
    events == [] || (Effective(s, Front(events)) && Exec(s, events) != Exec(s, Front(events)))
  }

  /** Termination: after the last arrival at most Measure(s) more things can happen, failures included. */
  lemma {:induction false} RunsAreBounded(s: State, events: seq<Event>)
    requires Effective(s, events) && forall e | e in events :: !e.Arrive?
    ensures Measure(Exec(s, events)) + |events| <= Measure(s)
    ensures |events| <= Measure(s)
  {
    hide Next, Measure;
    MeasureIsNatural(Exec(s, events));
    if events != [] {
      assert events[|events| - 1] in events;
      RunsAreBounded(s, Front(events));
      MeasureDecreases(Exec(s, Front(events)), Last(events));
    }
  }

  lemma StepKeepsUpward(s: State, r: ReqId, directory: map<string, UserId>, rank: UserId -> int)
    requires Inv(s) && PaysUpward(s, directory, rank) && r in s.sessions && Live(s.sessions[r].pc)
    requires Outcomes.AccountedFor(s.journal, r, s.sessions[r])
    ensures PaysUpward(Next(s, Step(s, r, directory)), directory, rank)
  {
    var s' := Next(s, Step(s, r, directory));
    var ss, ss' := s.sessions[r], s'.sessions[r];
    if ss.pc.Resolve? && ss.request.SendCoins? {
    } else {
      Outcomes.ExecuteBooks(s, r);
      hide Execute, Inv;
      assert ss'.request == ss.request && (ss.job.Some? ==> ss'.job == ss.job);
    }
  }

  /** No arrival and no failure: each event is the next step of a request that is already there. */
  ghost predicate Clean(s: State, events: seq<Event>, directory: map<string, UserId>)
    decreases |events|
  {
    events == [] ||
    (events[0].r in s.sessions && events[0] == Step(s, events[0].r, directory)
     && Clean(Next(s, events[0]), events[1..], directory))
  }

  /** Completion: if pending payments go upward, all requests can be brought to their answers, no one being aborted. */
  lemma {:induction false} Completion(s: State, directory: map<string, UserId>, rank: UserId -> int)
      returns (events: seq<Event>)
    requires Reachable(s) && PaysUpward(s, directory, rank)
    ensures Clean(s, events, directory)
    ensures forall q | q in Exec(s, events).sessions :: !Live(Exec(s, events).sessions[q].pc)
    decreases Measure(s)
  {
    hide Reachable, Next, PaysUpward, Step, Blocked;
    events := [];
    if exists q :: q in s.sessions && Live(s.sessions[q].pc) {
      var r := Progress(s, directory, rank);
      var e := Step(s, r, directory);
      var s' := Next(s, e);
      StepIsProgress(s, r, directory, rank);
      var rest := Completion(s', directory, rank);
      events := [e] + rest;
      ExecConcat(s, [e], rest);
      assert Exec(s, [e]) == s' by { ExecAppend(s, [], e); assert [] + [e] == [e]; }
      assert events[1..] == rest;
    }
  }

  lemma StepIsProgress(s: State, r: ReqId, directory: map<string, UserId>, rank: UserId -> int)
    requires Reachable(s) && PaysUpward(s, directory, rank)
    requires r in s.sessions && Live(s.sessions[r].pc) && !Blocked(s, r)
    ensures var s' := Next(s, Step(s, r, directory));
            Step(s, r, directory).r == r && Reachable(s') && PaysUpward(s', directory, rank)
            && 0 <= Measure(s') < Measure(s)
  {
    var e := Step(s, r, directory);
    Outcomes.ReachableAccounted(s);
    BlockedIffNoStep(s, r, directory);
    assert !e.Arrive?;
    assert Outcomes.AccountedFor(s.journal, r, s.sessions[r]);
    hide Inv, Outcomes.Accounted, Next, PaysUpward, Measure;
    ReachableNext(s, e);
    StepKeepsUpward(s, r, directory, rank);
    MeasureDecreases(s, e);
    MeasureIsNatural(Next(s, e));
  }

  // ---- So does every schedule ----

  lemma ExecFront(s: State, events: seq<Event>)
    requires events != []
    ensures Exec(s, events) == Exec(Next(s, events[0]), events[1..])
  {
    hide Next, Exec;
    assert events == [events[0]] + events[1..];
    ExecConcat(s, [events[0]], events[1..]);
    assert Exec(s, [events[0]]) == Next(s, events[0]) by { OneEvent(s, events[0]); }
  }

  lemma OneEvent(s: State, e: Event)
    ensures Exec(s, [e]) == Next(s, e)
  {
    ExecAppend(s, [], e);
    assert [] + [e] == [e];
  }

  lemma StepStaysUpward(s: State, r: ReqId, directory: map<string, UserId>, rank: UserId -> int)
    requires Reachable(s) && PaysUpward(s, directory, rank) && r in s.sessions
    ensures var s' := Next(s, Step(s, r, directory)); Reachable(s') && PaysUpward(s', directory, rank)
  {
    hide Next, PaysUpward, Inv, Reachable, Outcomes.Accounted, Step;
    ReachableNext(s, Step(s, r, directory));
    if Live(s.sessions[r].pc) {
      Outcomes.ReachableAccounted(s);
      assert Outcomes.AccountedFor(s.journal, r, s.sessions[r]) by { AccountedAt(s, r); }
      StepKeepsUpward(s, r, directory, rank);
    } else {
      EndedStepsNowhere(s, r, directory);
    }
  }

  lemma AccountedAt(s: State, r: ReqId)
    requires Outcomes.Accounted(s) && r in s.sessions
    ensures Outcomes.AccountedFor(s.journal, r, s.sessions[r])
  {
  }

  lemma EndedStepsNowhere(s: State, r: ReqId, directory: map<string, UserId>)
    requires r in s.sessions && !Live(s.sessions[r].pc)
    ensures Next(s, Step(s, r, directory)) == s
  {
  }

  lemma {:induction false} ScheduleStaysUpward(s: State, events: seq<Event>, directory: map<string, UserId>, rank: UserId -> int)
    requires Reachable(s) && PaysUpward(s, directory, rank) && Clean(s, events, directory)
    ensures Reachable(Exec(s, events)) && PaysUpward(Exec(s, events), directory, rank)
    ensures forall e | e in events :: !e.Arrive?
    decreases |events|
  {
    hide Reachable, Next, PaysUpward;
    if events != [] {
      StepStaysUpward(s, events[0].r, directory, rank);
      ScheduleStaysUpward(Next(s, events[0]), events[1..], directory, rank);
      ExecFront(s, events);
      assert events == [events[0]] + events[1..];
    }
  }

  lemma NothingExecuted(s: State)
    ensures Exec(s, []) == s
  {
  }

  lemma {:induction false} CleanConcat(s: State, es: seq<Event>, fs: seq<Event>, directory: map<string, UserId>)
    requires Clean(s, es, directory) && Clean(Exec(s, es), fs, directory)
    ensures Clean(s, es + fs, directory)
    decreases |es|
  {
    hide Next, Step, Exec;
    if es == [] {
      NothingExecuted(s);
      assert es + fs == fs;
    } else {
      ExecFront(s, es);
      CleanConcat(Next(s, es[0]), es[1..], fs, directory);
      assert (es + fs)[0] == es[0] && (es + fs)[1..] == es[1..] + fs;
    }
  }

  /**
   If pending payments go upward, every abort-free schedule completes: however far it has got, and in
   whatever order, it can go on until all are answered; it comes to a halt only there; and it has at
   most Measure(s) steps that do anything.
   */
  lemma EveryScheduleCompletes(s: State, events: seq<Event>, directory: map<string, UserId>, rank: UserId -> int)
      returns (more: seq<Event>)
    requires Reachable(s) && PaysUpward(s, directory, rank) && Clean(s, events, directory)
    ensures Clean(s, events + more, directory)
    ensures var end := Exec(s, events + more); forall q | q in end.sessions :: !Live(end.sessions[q].pc)
    ensures var now := Exec(s, events);
            (forall r | r in now.sessions && Live(now.sessions[r].pc) :: Next(now, Step(now, r, directory)) == now)
            ==> forall r | r in now.sessions :: !Live(now.sessions[r].pc)
    ensures Effective(s, events) ==> |events| <= Measure(s)
  {
    hide Reachable, Next, Exec, PaysUpward, Step, Clean, Effective, Measure, Blocked, Inv;
    var now := Exec(s, events);
    ScheduleStaysUpward(s, events, directory, rank);
    more := Completion(now, directory, rank);
    CleanConcat(s, events, more, directory);
    ExecConcat(s, events, more);
    if exists q :: q in now.sessions && Live(now.sessions[q].pc) {
      var r := Progress(now, directory, rank);
      ReachableInv(now);
      BlockedIffNoStep(now, r, directory);
    }
    if Effective(s, events) { RunsAreBounded(s, events); }
  }
}
