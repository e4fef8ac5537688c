/**
 The concurrent store refines the atomic ledger: every step commits at most one operation, the
 ledger accepts it where it stands, and every answer a client gets is the one that the ledger, asked
 at one moment during the call, would have given.
 */
module Refinement {
  import opened Ledger
  import opened StoreSystem
  import opened StoreInvariant

  function Ops(journal: seq<Entry>): seq<Op>
  {
    if journal == [] then [] else Ops(Front(journal)) + [Last(journal).op]
  }

  lemma OpsAppend(journal: seq<Entry>, e: Entry)
    ensures Ops(journal + [e]) == Ops(journal) + [e.op]
  {
    assert Front(journal + [e]) == journal && Last(journal + [e]) == e;
  }

  /** The committed tables are what the journal builds serially, each entry being accepted in its place. */
  ghost predicate Serialized(s: State)
  {
    Serial(s.goods, Ops(s.journal)) && s.tables == Replay(s.goods, Ops(s.journal))
  }

  /** No commit, or one commit that the serial ledger accepts on the tables committed so far. */
  ghost predicate AtomicStep(s: State, s': State)
  {
    || (s'.tables == s.tables && s'.journal == s.journal)
    || exists e: Entry ::
         && s'.journal == s.journal + [e]
         && Judge(s.goods, s.tables, e.op) == Accepted
         && s'.tables == Apply(s.goods, s.tables, e.op)
  }

  lemma OpeningIsAtomic(s: State, r: ReqId, u: UserId)
    ensures AtomicStep(s, EnsureBalanceCreated(s, r, u).0)
  {
    var s' := EnsureBalanceCreated(s, r, u).0;
    if s'.journal != s.journal {
      var e := Entry(r, Open(u));
      assert s'.journal == s.journal + [e];
    }
  }

  lemma CommitIsAtomic(s: State, r: ReqId, o: Outcome)
    requires Inv(s) && r in s.sessions && s.sessions[r].pc.Commit?
    ensures AtomicStep(s, CommitTx(s, r, o))
  {
    InvAt(s, r);
    CommitApplies(s, r);
    var e := Entry(r, s.sessions[r].job.value);
    assert CommitTx(s, r, o).journal == s.journal + [e];
  }

  /** Executing or losing a statement commits at most once, and only where it opens an account or commits. */
  lemma ExecuteIsAtomic(s: State, r: ReqId)
    requires Inv(s) && r in s.sessions
    ensures AtomicStep(s, Execute(s, r)) && Execute(s, r).goods == s.goods
    ensures AtomicStep(s, Vanish(s, r)) && Vanish(s, r).goods == s.goods
  {
    var ss := s.sessions[r];
    hide Inv, LookUpGood, LockPayer, CheckBalance, DebitPayer, CreditRecipient, InsertRecord, EndTx;
    match ss.pc {
      case Intercept => OpeningIsAtomic(s, r, Caller(ss.request));
      case OpenRecipient =>
        if ss.job.Some? && ss.job.value.Move? { OpeningIsAtomic(s, r, ss.job.value.transfer.to); }
      case Commit =>
        hide AtomicStep, CommitTx;
        InvAt(s, r);
        CommitIsAtomic(s, r, Ok);
        CommitIsAtomic(s, r, Failure);
        StutterIsAtomic(s, s);
      case _ =>
    }
  }

  lemma StutterIsAtomic(s: State, s': State)
    requires s'.tables == s.tables && s'.journal == s.journal
    ensures AtomicStep(s, s')
  {
  }

  /** Simulation: one event of the store is one step of the ledger, or none. */
  lemma NextIsAtomic(s: State, e: Event)
    requires Inv(s)
    ensures AtomicStep(s, Next(s, e)) && Next(s, e).goods == s.goods
  {
    var s' := Next(s, e);
    hide Inv, AtomicStep, Execute, Vanish;
    if (e.Advance? || e.LoseAck?) && e.r in s.sessions {
      ExecuteIsAtomic(s, e.r);
    } else {
      StutterIsAtomic(s, s');
    }
  }

  lemma AtomicStepSerializes(s: State, s': State)
    requires Serialized(s) && AtomicStep(s, s') && s'.goods == s.goods
    ensures Serialized(s')
  {
    if s'.journal != s.journal {
      var e: Entry :| s'.journal == s.journal + [e] && Judge(s.goods, s.tables, e.op) == Accepted
                      && s'.tables == Apply(s.goods, s.tables, e.op);
      OpsAppend(s.journal, e);
      ReplayAppend(s.goods, Ops(s.journal), e.op);
    }
  }

  /** Serializability: after any run the tables are those of a serial execution, in commit order. */
  lemma {:induction false} RunIsSerializable(s: State, events: seq<Event>)
    requires Inv(s) && Serialized(s)
    ensures Serialized(Exec(s, events)) && s.journal <= Exec(s, events).journal
    ensures Exec(s, events).goods == s.goods
  {
    if events != [] {
      var s' := Exec(s, Front(events));
      RunIsSerializable(s, Front(events));
      RunKeepsInv(s, Front(events));
      NextIsAtomic(s', Last(events));
      AtomicStepSerializes(s', Next(s', Last(events)));
    }
  }

  lemma ReachableSerialized(s: State)
    requires Reachable(s)
    ensures Inv(s) && Serialized(s)
  {
    var events :| s == Exec(Init(s.goods), events);
    ReachableInv(s);
    RunIsSerializable(Init(s.goods), events);
  }

  /** Per-user reconciliation of every committed state that any interleaving reaches. */
  lemma BalancesReconcile(s: State, u: UserId)
    requires Reachable(s) && u in s.tables.balances
    ensures s.tables.balances[u] == Statement(s.goods, s.tables, u)
    ensures Openings(Ops(s.journal), u) == 1
  {
    ReachableSerialized(s);
    Reconciles(s.goods, Ops(s.journal), u);
    OpenedOnce(s.goods, Ops(s.journal), u);
  }

  lemma AtomicStepKeepsAccounts(s: State, s': State, u: UserId)
    requires AtomicStep(s, s') && u in s.tables.balances
    ensures u in s'.tables.balances
  {
  }

  /** Account rows are never deleted. */
  lemma {:induction false} AccountsStay(s: State, events: seq<Event>, u: UserId)
    requires Reachable(s) && u in s.tables.balances
    ensures u in Exec(s, events).tables.balances
  {
    hide Reachable, Next, Inv, AtomicStep;
    if events != [] {
      var s' := Exec(s, Front(events));
      AccountsStay(s, Front(events), u);
      ReachableExec(s, Front(events));
      ReachableInv(s');
      NextIsAtomic(s', Last(events));
      AtomicStepKeepsAccounts(s', Next(s', Last(events)), u);
    }
  }

  // ---- Answers ----

  /** A transaction that commits does what the serial ledger does on the tables committed so far. */
  lemma AcceptedIsSerial(s: State, r: ReqId)
    requires Reachable(s) && r in s.sessions && s.sessions[r].pc.Commit?
    ensures s.sessions[r].job.Some?
    ensures var op := s.sessions[r].job.value;
            && Judge(s.goods, s.tables, op) == Accepted
            && Next(s, Advance(r)).tables == Apply(s.goods, s.tables, op)
            && Next(s, Advance(r)).sessions[r].pc == Done(Ok)
  {
    ReachableInv(s);
    InvAt(s, r);
    CommitApplies(s, r);
  }

  /**
   A request turns to an insufficient-balance answer only at its own check, and exactly when the serial
   ledger, asked at that moment, says the same. This is where the lock matters: the balance that was
   read is still the committed one.
   */
  lemma RefusedIsSerial(s: State, r: ReqId)
    requires Reachable(s) && r in s.sessions && Live(s.sessions[r].pc) && !s.sessions[r].pc.Rollback?
    ensures Next(s, Advance(r)).sessions[r].pc == Rollback(InsufficientBalance)
       <==> s.sessions[r].pc.Check? && s.sessions[r].job.Some? && Judge(s.goods, s.tables, s.sessions[r].job.value) == Insufficient
  {
    var ss := s.sessions[r];
    ReachableInv(s);
    InvAt(s, r);
    hide Inv, Reachable, LookUpGood, EnsureBalanceCreated, DebitPayer, CreditRecipient, InsertRecord, CommitTx;
    match ss.pc {
      case Lock => LockKnowsPayer(s, r);
      case Check => CheckJudges(s, r);
      case Debit => DebitNeverRefused(s, r);
      case Credit => CreditNeverMisses(s, r);
      case Resolve => if ss.request.BuyItem? { LookUpIsNoRefusal(s, r); }
      case Record => InsertIsNoRefusal(s, r);
      case _ =>
    }
  }

  lemma LookUpIsNoRefusal(s: State, r: ReqId)
    requires r in s.sessions && s.sessions[r].request.BuyItem?
    ensures LookUpGood(s, r).sessions[r].pc != Rollback(InsufficientBalance)
  {
  }

  lemma InsertIsNoRefusal(s: State, r: ReqId)
    requires r in s.sessions && s.sessions[r].job.Some? && s.sessions[r].pc.Record?
    ensures InsertRecord(s, r).sessions[r].pc != Rollback(InsufficientBalance)
  {
  }

  lemma LockKnowsPayer(s: State, r: ReqId)
    requires Inv(s) && r in s.sessions && s.sessions[r].pc.Lock? && s.sessions[r].job.Some?
    ensures LockPayer(s, r).sessions[r].pc != Rollback(InsufficientBalance)
  {
  }

  lemma CheckJudges(s: State, r: ReqId)
    requires Inv(s) && r in s.sessions && s.sessions[r].pc.Check? && s.sessions[r].job.Some?
    ensures CheckBalance(s, r).sessions[r].pc == Rollback(InsufficientBalance)
       <==> Judge(s.goods, s.tables, s.sessions[r].job.value) == Insufficient
  {
  }

  /** The balance check is repeated in the UPDATE, but after the lock it can never fail there. */
  lemma DebitNeverRefused(s: State, r: ReqId)
    requires Reachable(s) && r in s.sessions && s.sessions[r].pc.Debit?
    ensures s.sessions[r].job.Some?
    ensures var ss := s.sessions[r];
            var s' := Next(s, Advance(r));
            var u := Payer(ss.job.value);
            && u in s.tables.balances && ss.due <= INT_MAX
            && s'.sessions[r].pc == (if ss.job.value.Move? then Credit else Record)
            && s'.sessions[r].tx.writes == map[u := s.tables.balances[u] - ss.due]
            && 0 <= s'.sessions[r].tx.writes[u]
  {
    hide Inv, Reachable, Sound, SessionFits, DebitPayer, Next;
    ReachableInv(s);
    InvAt(s, r);
    AdvanceDebits(s, r);
    DebitWrites(s, r, s.sessions[r]);
    NothingWritten(s, r);
  }

  lemma AdvanceDebits(s: State, r: ReqId)
    requires r in s.sessions && s.sessions[r].pc.Debit? && s.sessions[r].job.Some?
    ensures Next(s, Advance(r)) == DebitPayer(s, r)
  {
  }

  lemma NothingWritten(s: State, r: ReqId)
    requires r in s.sessions && s.sessions[r].pc.Debit? && SessionFits(s, r, s.sessions[r])
    ensures s.sessions[r].tx.writes == map[]
  {
    assert forall u :: u !in s.sessions[r].tx.writes;
  }

  /** The credit is not checked for having hit a row; it waits, overflows INTEGER, or hits exactly one. */
  lemma CreditNeverMisses(s: State, r: ReqId)
    requires Reachable(s) && r in s.sessions && s.sessions[r].pc.Credit?
    ensures s.sessions[r].job.Some? && s.sessions[r].job.value.Move?
    ensures var ss := s.sessions[r];
            var t := ss.job.value.transfer;
            var s' := Next(s, Advance(r));
            && t.from in s.tables.balances && t.to in s.tables.balances && t.to != t.from
            && (HeldByOther(s, r, t.to) ==> s' == s)
            && (!HeldByOther(s, r, t.to) ==>
                  if s.tables.balances[t.to] + t.amount > INT_MAX then s'.sessions[r].pc == Rollback(Failure)
                  else s'.sessions[r].pc == Record
                       && s'.sessions[r].tx.writes == map[t.from := s.tables.balances[t.from] - t.amount,
                                                          t.to := s.tables.balances[t.to] + t.amount])
  {
    hide Inv, Reachable, Sound, SessionFits, CreditRecipient, Next, Row, HeldByOther;
    ReachableInv(s);
    InvAt(s, r);
    AdvanceCredits(s, r);
    CreditCases(s, r, s.sessions[r]);
  }

  lemma AdvanceCredits(s: State, r: ReqId)
    requires r in s.sessions && s.sessions[r].pc.Credit? && s.sessions[r].job.Some? && s.sessions[r].job.value.Move?
    ensures Next(s, Advance(r)) == CreditRecipient(s, r)
  {
  }

  /** The foreign keys of the new row always hold: it is refused only when the id sequence is used up. */
  lemma RecordNeverDangles(s: State, r: ReqId)
    requires Reachable(s) && r in s.sessions && s.sessions[r].pc.Record?
    ensures s.sessions[r].job.Some?
    ensures var op := s.sessions[r].job.value;
            var drawn := if op.Move? then s.serials.transfers else s.serials.purchases;
            Next(s, Advance(r)).sessions[r].pc == if drawn < INT_MAX then Commit else Rollback(Failure)
  {
    ReachableInv(s);
    InvAt(s, r);
  }
}
