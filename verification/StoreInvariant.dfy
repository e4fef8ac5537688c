/** What every reachable state of the store keeps: lock discipline, transaction shape and history. */
module StoreInvariant {
  import opened Ledger
  import opened StoreSystem

  /** The request runs inside a database transaction and may hold locks. */
  predicate InTx(pc: Pc)
  {
    pc.Check? || pc.Debit? || pc.Credit? || pc.Record? || pc.Commit? || pc.Rollback?
  }

  predicate Live(pc: Pc)
  {
    !pc.Done?
  }

  /** The job is the one the request asks for, at the price of the catalogue. */
  predicate JobFits(goods: Catalogue, ss: Session)
  {
    match ss.job
    case None => true
    case Some(Open(_)) => false
    case Some(Move(t)) =>
      ss.request.SendCoins? && t.from == ss.request.from && t.amount == ss.request.amount == ss.due && t.to != t.from
    case Some(Buy(p)) =>
      && ss.request.BuyItem? && p.user == ss.request.user
      && p.good in goods && goods[p.good].name == ss.request.item && ss.due == goods[p.good].price >= 0
  }

  predicate Debited(ss: Session)
    requires ss.job.Some?
  {
    Payer(ss.job.value) in ss.tx.writes
  }

  predicate Credited(ss: Session)
    requires ss.job.Some?
  {
    ss.job.value.Move? && ss.job.value.transfer.to in ss.tx.writes
  }

  predicate Recorded(ss: Session)
  {
    ss.tx.transfers != [] || ss.tx.purchases != []
  }

  /** Whether the request may own the row: the payer's row, or a recipient's row it has credited. */
  predicate MayHold(ss: Session, u: UserId)
  {
    InTx(ss.pc) && ss.job.Some? && (u == Payer(ss.job.value) || (Credited(ss) && u == ss.job.value.transfer.to))
  }

  /** The staged writes are exactly a prefix of debit, credit and record, made on rows that are locked. */
  ghost predicate TxFits(s: State, r: ReqId, ss: Session)
    requires ss.job.Some?
  {
    var op, b := ss.job.value, s.tables.balances;
    && (forall u | u in ss.tx.writes :: u in b && u in s.locks && s.locks[u] == r)
    && (forall u | u in ss.tx.writes :: u == Payer(op) || (op.Move? && u == op.transfer.to))
    && (Debited(ss) ==> ss.due <= b[Payer(op)] && ss.tx.writes[Payer(op)] == b[Payer(op)] - ss.due)
    && (Credited(ss) ==>
          && Debited(ss) && b[op.transfer.to] + ss.due <= INT_MAX
          && ss.tx.writes[op.transfer.to] == b[op.transfer.to] + ss.due)
    && (ss.tx.transfers == [] || (op.Move? && Credited(ss) && ss.tx.transfers == [op.transfer]))
    && (ss.tx.purchases == [] || (op.Buy? && Debited(ss) && ss.tx.purchases == [op.purchase]))
  }

  /** Where the request stands tells how much of its transaction is done, and what it has read. */
  ghost predicate StageFits(s: State, r: ReqId, ss: Session)
    requires ss.job.Some?
  {
    var u := Payer(ss.job.value);
    && (!ss.pc.Rollback? ==> u in s.tables.balances && u in s.locks && s.locks[u] == r && ss.read == s.tables.balances[u])
    && (ss.pc.Check? || ss.pc.Debit? ==> !Debited(ss) && !Recorded(ss))
    && (ss.pc.Debit? ==> ss.due <= ss.read)
    && (ss.pc.Credit? ==> ss.job.value.Move? && Debited(ss) && !Credited(ss) && !Recorded(ss))
    && (ss.pc.Record? ==> Debited(ss) && (ss.job.value.Move? ==> Credited(ss)) && !Recorded(ss))
    && (ss.pc.Commit? ==> Debited(ss) && (ss.job.value.Move? ==> Credited(ss)) && Recorded(ss))
  }

  ghost predicate SessionFits(s: State, r: ReqId, ss: Session)
  {
    && JobFits(s.goods, ss)
    && (!ss.pc.Intercept? && !ss.pc.Done? ==> Caller(ss.request) in s.tables.balances)
    && (ss.pc.OpenRecipient? ==> ss.job.Some? && ss.job.value.Move?)
    && (ss.pc.Begin? || ss.pc.Lock? || InTx(ss.pc) ==>
          ss.job.Some? && (ss.job.value.Move? ==> ss.job.value.transfer.to in s.tables.balances))
    && (if InTx(ss.pc) then TxFits(s, r, ss) && StageFits(s, r, ss) else ss.tx == NO_WRITES)
  }

  ghost predicate LocksFit(s: State)
  {
    forall u | u in s.locks :: u in s.tables.balances && s.locks[u] in s.sessions && MayHold(s.sessions[s.locks[u]], u)
  }

  ghost predicate Inv(s: State)
  {
    && LocksFit(s)
    && Sound(s.goods, s.tables)
    && forall r | r in s.sessions :: SessionFits(s, r, s.sessions[r])
  }

  lemma InvAt(s: State, r: ReqId)
    requires Inv(s) && r in s.sessions
    ensures Sound(s.goods, s.tables) && SessionFits(s, r, s.sessions[r])
    ensures var ss := s.sessions[r];
            && (ss.pc.Begin? || ss.pc.Lock? || InTx(ss.pc) || ss.pc.OpenRecipient? ==> ss.job.Some?)
            && (ss.pc.Credit? || ss.pc.OpenRecipient? ==> ss.job.value.Move?)
  {
  }

  /** Everything that request q relies on is as it was. */
  ghost predicate Undisturbed(s: State, s': State, q: ReqId)
  {
    && s'.goods == s.goods
    && s.tables.balances.Keys <= s'.tables.balances.Keys
    && (forall u | u in s.locks && s.locks[u] == q && u in s.tables.balances ::
          u in s'.locks && s'.locks[u] == q && s'.tables.balances[u] == s.tables.balances[u])
  }

  lemma UndisturbedFits(s: State, s': State, q: ReqId, ss: Session)
    requires SessionFits(s, q, ss)
    requires Undisturbed(s, s', q)
    ensures SessionFits(s', q, ss)
  {
  }

  /** A step of request r that stays away from the rows of all others, and leaves its own session in order. */
  lemma StepKeepsInv(s: State, s': State, r: ReqId)
    requires Inv(s)
    requires s'.sessions.Keys == s.sessions.Keys + {r}
    requires forall q | q in s.sessions && q != r :: s'.sessions[q] == s.sessions[q] && Undisturbed(s, s', q)
    requires SessionFits(s', r, s'.sessions[r])
    requires LocksFit(s') && Sound(s'.goods, s'.tables)
    ensures Inv(s')
  {
    forall q | q in s'.sessions
      ensures SessionFits(s', q, s'.sessions[q])
    {
      if q != r { UndisturbedFits(s, s', q, s.sessions[q]); }
    }
  }

  // ---- Each statement keeps the invariant ----

  /** Steps that touch nothing but the session itself, outside or inside a transaction. */
  lemma SessionStep(s: State, r: ReqId, ss: Session)
    requires Inv(s) && r in s.sessions
    requires SessionFits(s, r, ss)
    requires InTx(s.sessions[r].pc) ==> InTx(ss.pc) && ss.job == s.sessions[r].job && ss.tx == s.sessions[r].tx
    ensures Inv(Put(s, r, ss))
  {
    var s' := Put(s, r, ss);
    assert SessionFits(s', r, ss);
    StepKeepsInv(s, s', r);
  }

  lemma SerialStep(s: State, serials: Serials)
    requires Inv(s)
    ensures Inv(s.(serials := serials))
  {
    var s' := s.(serials := serials);
    forall q | q in s'.sessions
      ensures SessionFits(s', q, s'.sessions[q])
    {
      UndisturbedFits(s, s', q, s.sessions[q]);
    }
  }

  lemma NewAccountStep(s: State, r: ReqId, u: UserId)
    requires Inv(s) && u !in s.tables.balances
    ensures Inv(s.(tables := s.tables.(balances := s.tables.balances[u := START_BALANCE]),
                   journal := s.journal + [Entry(r, Open(u))]))
  {
    var s' := s.(tables := s.tables.(balances := s.tables.balances[u := START_BALANCE]),
                 journal := s.journal + [Entry(r, Open(u))]);
    assert s'.tables == Apply(s.goods, s.tables, Open(u));
    ApplyKeepsSound(s.goods, s.tables, Open(u));
    forall q | q in s'.sessions
      ensures SessionFits(s', q, s'.sessions[q])
    {
      UndisturbedFits(s, s', q, s.sessions[q]);
    }
  }

  lemma OpeningStep(s: State, r: ReqId, u: UserId)
    requires Inv(s)
    ensures var s' := EnsureBalanceCreated(s, r, u).0;
            Inv(s') && s'.sessions == s.sessions && s'.goods == s.goods
            && s.tables.balances.Keys <= s'.tables.balances.Keys
            && (EnsureBalanceCreated(s, r, u).1 ==> u in s'.tables.balances)
  {
    if s.serials.accounts < INT_MAX {
      var serials := s.serials.(accounts := s.serials.accounts + 1);
      SerialStep(s, serials);
      hide Inv;
      if u !in s.tables.balances {
        NewAccountStep(s.(serials := serials), r, u);
      }
    }
  }

  lemma OpenThenStep(s: State, r: ReqId, u: UserId, next: Pc)
    requires Inv(s) && r in s.sessions && !InTx(s.sessions[r].pc)
    requires var ss := s.sessions[r];
             || next.Done?
             || (next.Resolve? && u == Caller(ss.request))
             || (next.Begin? && ss.pc.OpenRecipient? && u == ss.job.value.transfer.to)
    ensures Inv(OpenThen(s, r, u, next))
  {
    var (s', ok) := EnsureBalanceCreated(s, r, u);
    OpeningStep(s, r, u);
    if ok {
      SessionStep(s', r, s'.sessions[r].(pc := next));
    } else {
      SessionStep(s', r, s'.sessions[r].(pc := Done(Failure)));
    }
  }

  lemma LockStep(s: State, r: ReqId)
    requires Inv(s) && r in s.sessions && s.sessions[r].pc.Lock?
    ensures Inv(LockPayer(s, r))
  {
    var ss := s.sessions[r];
    var u := Payer(ss.job.value);
    assert u == Caller(ss.request) && u in s.tables.balances;
    if !HeldByOther(s, r, u) {
      var s' := LockPayer(s, r);
      assert s'.locks == s.locks[u := r];
      assert SessionFits(s', r, s'.sessions[r]);
      assert LocksFit(s');
      StepKeepsInv(s, s', r);
    }
  }

  lemma CheckStep(s: State, r: ReqId)
    requires Inv(s) && r in s.sessions && s.sessions[r].pc.Check?
    ensures Inv(CheckBalance(s, r))
  {
    var ss := s.sessions[r];
    SessionStep(s, r, ss.(pc := if ss.read < ss.due then Rollback(InsufficientBalance) else Debit));
  }

  /** The debit always goes through: neither the CHECK constraint nor the WHERE clause can refuse it. */
  lemma DebitWrites(s: State, r: ReqId, ss: Session)
    requires Sound(s.goods, s.tables)
    requires SessionFits(s, r, ss) && ss.pc.Debit? && r in s.sessions && s.sessions[r] == ss
    ensures var u := Payer(ss.job.value);
            && u in s.tables.balances && u in s.locks && s.locks[u] == r && !HeldByOther(s, r, u)
            && ss.due <= Row(s, r, u) == s.tables.balances[u] && ss.due <= INT_MAX
            && DebitPayer(s, r) == Write(s, r, u, s.tables.balances[u] - ss.due, if ss.job.value.Move? then Credit else Record)
  {
  }

  lemma DebitFits(s: State, r: ReqId, ss: Session, pc: Pc)
    requires SessionFits(s, r, ss) && ss.pc.Debit? && r in s.sessions && s.sessions[r] == ss
    requires pc == if ss.job.value.Move? then Credit else Record
    ensures var u := Payer(ss.job.value);
            var s' := Write(s, r, u, s.tables.balances[u] - ss.due, pc);
            SessionFits(s', r, s'.sessions[r]) && MayHold(s'.sessions[r], u)
  {
    assert forall u :: u !in ss.tx.writes;
  }

  lemma DebitStep(s: State, r: ReqId)
    requires Inv(s) && r in s.sessions && s.sessions[r].pc.Debit?
    ensures Inv(DebitPayer(s, r))
  {
    var ss, s' := s.sessions[r], DebitPayer(s, r);
    DebitWrites(s, r, ss);
    DebitFits(s, r, ss, if ss.job.value.Move? then Credit else Record);
    hide DebitPayer, SessionFits, Sound, Row;
    assert LocksFit(s');
    StepKeepsInv(s, s', r);
  }

  /** Giving up is always in order: with a rollback inside the transaction, with a reply outside. */
  lemma GiveUpFits(s: State, r: ReqId, ss: Session, pc: Pc)
    requires SessionFits(s, r, ss)
    requires if InTx(ss.pc) || ss.pc.Lock? then pc.Rollback? else pc.Done?
    ensures SessionFits(s, r, ss.(pc := pc))
  {
  }

  lemma CreditFits(s: State, r: ReqId, ss: Session)
    requires SessionFits(s, r, ss) && ss.pc.Credit? && r in s.sessions && s.sessions[r] == ss
    requires s.tables.balances[ss.job.value.transfer.to] + ss.due <= INT_MAX
    ensures var u := ss.job.value.transfer.to;
            var s' := Write(s, r, u, s.tables.balances[u] + ss.due, Record);
            SessionFits(s', r, s'.sessions[r]) && MayHold(s'.sessions[r], u)
  {
  }

  /** The recipient's row exists, so the credit waits, overflows, or writes exactly that row. */
  lemma CreditCases(s: State, r: ReqId, ss: Session)
    requires Sound(s.goods, s.tables)
    requires SessionFits(s, r, ss) && ss.pc.Credit? && r in s.sessions && s.sessions[r] == ss
    ensures var u := ss.job.value.transfer.to;
            && u in s.tables.balances && ss.due <= INT_MAX
            && ss.job.value.transfer.from in s.tables.balances
            && ss.tx.writes == map[ss.job.value.transfer.from := s.tables.balances[ss.job.value.transfer.from] - ss.due]
            && ss.job.value.transfer.amount == ss.due && u != ss.job.value.transfer.from
            && CreditRecipient(s, r) ==
                 if HeldByOther(s, r, u) then s
                 else if s.tables.balances[u] + ss.due > INT_MAX then Goto(s, r, Rollback(Failure))
                 else Write(s, r, u, s.tables.balances[u] + ss.due, Record)
  {
    assert forall v :: v in ss.tx.writes <==> v == ss.job.value.transfer.from;
  }

  lemma CreditStep(s: State, r: ReqId)
    requires Inv(s) && r in s.sessions && s.sessions[r].pc.Credit?
    ensures Inv(CreditRecipient(s, r))
  {
    var ss, s' := s.sessions[r], CreditRecipient(s, r);
    CreditCases(s, r, ss);
    var u := ss.job.value.transfer.to;
    hide CreditRecipient, SessionFits, Sound, Row;
    if !HeldByOther(s, r, u) {
      if s.tables.balances[u] + ss.due > INT_MAX {
        GiveUpFits(s, r, ss, Rollback(Failure));
        SessionStep(s, r, ss.(pc := Rollback(Failure)));
      } else {
        CreditFits(s, r, ss);
        assert LocksFit(s');
        StepKeepsInv(s, s', r);
      }
    }
  }

  lemma RecordFits(s: State, s': State, r: ReqId, ss: Session)
    requires SessionFits(s, r, ss) && ss.pc.Record? && r in s.sessions && s.sessions[r] == ss
    requires s' == InsertRecord(s, r)
    ensures s' == s.(serials := s'.serials, sessions := s.sessions[r := s'.sessions[r]])
    ensures SessionFits(s', r, s'.sessions[r])
    ensures s'.sessions[r].pc.Commit? || (s'.sessions[r].pc.Rollback? && s'.sessions[r].tx == ss.tx)
    ensures InTx(s'.sessions[r].pc) && s'.sessions[r].job == ss.job && s'.sessions[r].tx.writes == ss.tx.writes
  {
  }

  lemma RecordStep(s: State, r: ReqId)
    requires Inv(s) && r in s.sessions && s.sessions[r].pc.Record?
    ensures Inv(InsertRecord(s, r))
  {
    var ss, s' := s.sessions[r], InsertRecord(s, r);
    RecordFits(s, s', r, ss);
    assert LocksFit(s');
    StepKeepsInv(s, s', r);
  }

  lemma EndStep(s: State, r: ReqId, o: Outcome)
    requires Inv(s) && r in s.sessions && InTx(s.sessions[r].pc)
    ensures Inv(EndTx(s, r, o))
  {
    StepKeepsInv(s, EndTx(s, r, o), r);
  }

  /** What a commit installs is one accepted ledger operation on the tables committed so far. */
  lemma CommitApplies(s: State, r: ReqId)
    requires Sound(s.goods, s.tables) && r in s.sessions && s.sessions[r].pc.Commit? && SessionFits(s, r, s.sessions[r])
    ensures var ss := s.sessions[r];
            && Judge(s.goods, s.tables, ss.job.value) == Accepted
            && Install(s.tables, ss.tx) == Apply(s.goods, s.tables, ss.job.value)
  {
    var ss := s.sessions[r];
    var op := ss.job.value;
    assert forall u :: u in ss.tx.writes <==> u == Payer(op) || (op.Move? && u == op.transfer.to);
    assert Install(s.tables, ss.tx).balances == Apply(s.goods, s.tables, op).balances;
  }

  lemma CommitStep(s: State, r: ReqId, o: Outcome)
    requires Inv(s) && r in s.sessions && s.sessions[r].pc.Commit?
    ensures Inv(CommitTx(s, r, o))
  {
    var ss := s.sessions[r];
    InvAt(s, r);
    CommitApplies(s, r);
    ApplyKeepsSound(s.goods, s.tables, ss.job.value);
    var s' := CommitTx(s, r, o);
    hide Sound, Apply, Judge;
    assert LocksFit(s');
    StepKeepsInv(s, s', r);
  }

  // ---- Every event keeps the invariant ----

  lemma ResolvedFits(s: State, r: ReqId, ss: Session)
    requires SessionFits(s, r, ss) && r in s.sessions && s.sessions[r] == ss && ss.pc.Resolve?
    ensures ss.request.BuyItem? ==>
              var s' := LookUpGood(s, r);
              s' == Put(s, r, s'.sessions[r]) && SessionFits(s, r, s'.sessions[r])
    ensures ss.request.SendCoins? ==> forall user ::
              var s' := AnswerRecipient(s, r, user);
              s' == Put(s, r, s'.sessions[r]) && SessionFits(s, r, s'.sessions[r])
  {
  }

  lemma BeginFits(s: State, r: ReqId, ss: Session)
    requires SessionFits(s, r, ss) && ss.pc.Begin?
    ensures SessionFits(s, r, ss.(pc := Lock))
  {
  }

  lemma ExecuteKeepsInv(s: State, r: ReqId)
    requires Inv(s) && r in s.sessions
    ensures Inv(Execute(s, r))
  {
    var ss := s.sessions[r];
    InvAt(s, r);
    hide SessionFits, Sound, LocksFit, Inv;
    hide LockPayer, CheckBalance, DebitPayer, CreditRecipient, InsertRecord, CommitTx, EndTx, OpenThen, LookUpGood;
    match ss.pc {
      case Intercept => OpenThenStep(s, r, Caller(ss.request), Resolve);
      case Resolve =>
        if ss.request.BuyItem? {
          ResolvedFits(s, r, ss);
          SessionStep(s, r, LookUpGood(s, r).sessions[r]);
        }
      case OpenRecipient => OpenThenStep(s, r, ss.job.value.transfer.to, Begin);
      case Begin =>
        BeginFits(s, r, ss);
        SessionStep(s, r, ss.(pc := Lock));
      case Lock => LockStep(s, r);
      case Check => CheckStep(s, r);
      case Debit => DebitStep(s, r);
      case Credit => CreditStep(s, r);
      case Record => RecordStep(s, r);
      case Commit => CommitStep(s, r, Ok);
      case Rollback(why) => EndStep(s, r, why);
      case Done(_) =>
    }
  }

  lemma BreakFits(s: State, r: ReqId, ss: Session)
    requires SessionFits(s, r, ss) && r in s.sessions && s.sessions[r] == ss
    ensures var s' := Break(s, r);
            SessionFits(s, r, s'.sessions[r]) && s' == Put(s, r, s'.sessions[r])
            && s'.sessions[r] == ss.(pc := s'.sessions[r].pc) && (InTx(ss.pc) ==> InTx(s'.sessions[r].pc))
  {
    hide SessionFits;
    var pc := Break(s, r).sessions[r].pc;
    if pc != ss.pc { GiveUpFits(s, r, ss, pc); }
  }

  lemma BreakKeepsInv(s: State, r: ReqId)
    requires Inv(s) && r in s.sessions
    ensures Inv(Break(s, r))
  {
    var ss := s.sessions[r];
    InvAt(s, r);
    hide Inv;
    BreakFits(s, r, ss);
    hide SessionFits, Sound, Break;
    SessionStep(s, r, Break(s, r).sessions[r]);
  }

  lemma VanishKeepsInv(s: State, r: ReqId)
    requires Inv(s) && r in s.sessions
    ensures Inv(Vanish(s, r))
  {
    var ss := s.sessions[r];
    assert SessionFits(s, r, ss);
    hide SessionFits, Sound, LocksFit, Inv, CommitTx, OpenThen;
    match ss.pc {
      case Intercept => OpenThenStep(s, r, Caller(ss.request), Done(Failure));
      case OpenRecipient =>
        if ss.job.Some? && ss.job.value.Move? { OpenThenStep(s, r, ss.job.value.transfer.to, Done(Failure)); }
      case Commit =>
        if ss.job.Some? { CommitStep(s, r, Failure); }
      case _ =>
    }
  }

  lemma ArriveKeepsInv(s: State, r: ReqId, q: Request)
    requires Inv(s)
    ensures Inv(Next(s, Arrive(r, q)))
  {
    if r !in s.sessions {
      StepKeepsInv(s, Next(s, Arrive(r, q)), r);
    }
  }

  lemma NextKeepsInv(s: State, e: Event)
    requires Inv(s)
    ensures Inv(Next(s, e))
  {
    hide SessionFits, Sound, LocksFit, Execute, Break, Vanish, AnswerRecipient;
    match e {
      case Arrive(r, q) => ArriveKeepsInv(s, r, q);
      case Answer(r, user) =>
        if r in s.sessions && s.sessions[r].pc == Resolve && s.sessions[r].request.SendCoins? {
          assert SessionFits(s, r, s.sessions[r]);
          ResolvedFits(s, r, s.sessions[r]);
          SessionStep(s, r, AnswerRecipient(s, r, user).sessions[r]);
        }
      case Advance(r) => if r in s.sessions { ExecuteKeepsInv(s, r); }
      case Fail(r) => if r in s.sessions { BreakKeepsInv(s, r); }
      case LoseAck(r) => if r in s.sessions { VanishKeepsInv(s, r); }
    }
  }

  /** Every state of every run satisfies the invariant. */
  lemma {:induction false} RunKeepsInv(s: State, events: seq<Event>)
    requires Inv(s)
    ensures Inv(Exec(s, events))
  {
    if events != [] {
      RunKeepsInv(s, Front(events));
      NextKeepsInv(Exec(s, Front(events)), Last(events));
    }
  }

  lemma ReachableInv(s: State)
    requires Reachable(s)
    ensures Inv(s)
  {
    var events :| s == Exec(Init(s.goods), events);
    RunKeepsInv(Init(s.goods), events);
  }

  /** A lock belongs to a request inside its transaction that has acquired it, and to no request that has ended. */
  lemma LockHygiene(s: State, u: UserId)
    requires Reachable(s) && u in s.locks
    ensures var r := s.locks[u];
            && r in s.sessions && InTx(s.sessions[r].pc) && s.sessions[r].job.Some? && u in s.tables.balances
            && (u == Payer(s.sessions[r].job.value) ||
                (Credited(s.sessions[r]) && u == s.sessions[r].job.value.transfer.to))
  {
    ReachableInv(s);
    assert MayHold(s.sessions[s.locks[u]], u);
  }

  /** What a transaction has read under its lock stays the committed balance until it commits or gives up. */
  lemma ReadStaysCurrent(s: State, r: ReqId)
    requires Reachable(s) && r in s.sessions && InTx(s.sessions[r].pc) && !s.sessions[r].pc.Rollback?
    ensures s.sessions[r].job.Some?
    ensures var u := Payer(s.sessions[r].job.value);
            u in s.tables.balances && s.sessions[r].read == s.tables.balances[u] && u in s.locks && s.locks[u] == r
  {
    ReachableInv(s);
    InvAt(s, r);
  }
}
