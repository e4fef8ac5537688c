/** The SERIAL ids bound the number of rows: every row, committed or staged, has drawn an id of its own. */
module SerialIds {
  import opened Sums
  import opened Ledger
  import opened StoreSystem
  import opened StoreInvariant
  import Outcomes

  datatype Kind = Accounts | Transfers | Purchases

  function Committed(s: State, k: Kind): nat
  {
    match k
    case Accounts => 0
    case Transfers => |s.tables.transactions|
    case Purchases => |s.tables.purchases|
  }

  function Drawn(s: State, k: Kind): nat
  {
    match k
    case Accounts => s.serials.accounts
    case Transfers => s.serials.transfers
    case Purchases => s.serials.purchases
  }

  /** How many accounts the pending request has made sure of, drawing an id for each. */
  function AccountsEnsured(ss: Session): nat
  {
    if ss.pc.Intercept? || ss.pc.Done? then 0
    else if ss.pc.Resolve? || ss.pc.OpenRecipient? then 1
    else if ss.job.Some? && ss.job.value.Move? then 2
    else 1
  }

  /** The rows that a transaction has staged, or the accounts that its request has made sure of. */
  function StagedRows(ss: Session, k: Kind): nat
  {
    match k
    case Accounts => AccountsEnsured(ss)
    case Transfers => |ss.tx.transfers|
    case Purchases => |ss.tx.purchases|
  }

  function AllStaged(s: State, k: Kind): map<ReqId, int>
  {
    map r | r in s.sessions :: StagedRows(s.sessions[r], k)
  }

  ghost predicate Covered(s: State, k: Kind)
  {
    Committed(s, k) + Sum(AllStaged(s, k)) <= Drawn(s, k) <= INT_MAX
  }

  /** A step of r adds no more rows than it draws ids. */
  ghost predicate DrawsEnough(s: State, s': State, r: ReqId, k: Kind)
    requires r in s.sessions && r in s'.sessions
  {
    && Committed(s', k) + StagedRows(s'.sessions[r], k) - Drawn(s', k)
       <= Committed(s, k) + StagedRows(s.sessions[r], k) - Drawn(s, k)
    && (Drawn(s, k) <= INT_MAX ==> Drawn(s', k) <= INT_MAX)
  }

  lemma InsertDraws(s: State, r: ReqId, k: Kind)
    requires r in s.sessions && s.sessions[r].job.Some? && s.sessions[r].pc.Record?
    ensures DrawsEnough(s, InsertRecord(s, r), r, k)
  {
  }

  lemma EndDraws(s: State, r: ReqId, o: Outcome, k: Kind)
    requires r in s.sessions
    ensures DrawsEnough(s, EndTx(s, r, o), r, k)
    ensures s.sessions[r].job.Some? ==> DrawsEnough(s, CommitTx(s, r, o), r, k)
  {
  }

  lemma DebitDraws(s: State, r: ReqId, k: Kind)
    requires r in s.sessions && s.sessions[r].job.Some?
    ensures s.sessions[r].pc.Lock? ==> DrawsEnough(s, LockPayer(s, r), r, k)
    ensures s.sessions[r].pc.Debit? ==> DrawsEnough(s, DebitPayer(s, r), r, k)
  {
  }

  lemma CreditDraws(s: State, r: ReqId, k: Kind)
    requires r in s.sessions && s.sessions[r].job.Some? && s.sessions[r].job.value.Move? && s.sessions[r].pc.Credit?
    ensures DrawsEnough(s, CreditRecipient(s, r), r, k)
  {
  }

  lemma ResolveDraws(s: State, r: ReqId, user: Option<UserId>, k: Kind)
    requires r in s.sessions && s.sessions[r].pc.Resolve?
    ensures s.sessions[r].request.BuyItem? ==> DrawsEnough(s, LookUpGood(s, r), r, k)
    ensures s.sessions[r].request.SendCoins? ==> DrawsEnough(s, AnswerRecipient(s, r, user), r, k)
  {
  }

  lemma OpenDraws(s: State, r: ReqId, u: UserId, next: Pc, k: Kind)
    requires r in s.sessions && (s.sessions[r].pc.Intercept? || s.sessions[r].pc.OpenRecipient?)
    requires next.Done? || (next.Resolve? && s.sessions[r].pc.Intercept?) || (next.Begin? && s.sessions[r].pc.OpenRecipient?)
    ensures DrawsEnough(s, OpenThen(s, r, u, next), r, k)
  {
  }

  lemma ExecuteDraws(s: State, r: ReqId, k: Kind)
    requires r in s.sessions
    ensures DrawsEnough(s, Execute(s, r), r, k)
  {
    var ss := s.sessions[r];
    hide LookUpGood, LockPayer, DebitPayer, CreditRecipient, InsertRecord, EndTx, CommitTx, OpenThen;
    match ss.pc {
      case Intercept => OpenDraws(s, r, Caller(ss.request), Resolve, k);
      case Resolve => ResolveDraws(s, r, None, k);
      case OpenRecipient =>
        if ss.job.Some? && ss.job.value.Move? { OpenDraws(s, r, ss.job.value.transfer.to, Begin, k); }
      case Lock => if ss.job.Some? { DebitDraws(s, r, k); }
      case Debit => if ss.job.Some? { DebitDraws(s, r, k); }
      case Credit => if ss.job.Some? && ss.job.value.Move? { CreditDraws(s, r, k); }
      case Record => if ss.job.Some? { InsertDraws(s, r, k); }
      case Commit => EndDraws(s, r, Ok, k);
      case Rollback(why) => EndDraws(s, r, why, k);
      case _ =>
    }
  }

  lemma VanishDraws(s: State, r: ReqId, k: Kind)
    requires r in s.sessions
    ensures DrawsEnough(s, Vanish(s, r), r, k)
  {
    var ss := s.sessions[r];
    hide CommitTx, OpenThen;
    match ss.pc {
      case Intercept => OpenDraws(s, r, Caller(ss.request), Done(Failure), k);
      case OpenRecipient =>
        if ss.job.Some? && ss.job.value.Move? { OpenDraws(s, r, ss.job.value.transfer.to, Done(Failure), k); }
      case Commit => EndDraws(s, r, Failure, k);
      case _ =>
    }
  }

  lemma NextDraws(s: State, e: Event, k: Kind)
    requires e.r in s.sessions
    ensures DrawsEnough(s, Next(s, e), e.r, k)
  {
    hide Execute, Vanish, AnswerRecipient;
    ExecuteDraws(s, e.r, k);
    VanishDraws(s, e.r, k);
    if e.Answer? && s.sessions[e.r].pc.Resolve? { ResolveDraws(s, e.r, e.user, k); }
  }

  lemma NextKeepsCovered(s: State, e: Event, k: Kind)
    requires Covered(s, k)
    ensures Covered(Next(s, e), k)
  {
    var s' := Next(s, e);
    hide Execute, Vanish, Break, AnswerRecipient;
    if e.r in s.sessions {
      NextDraws(s, e, k);
      Outcomes.NextIsOwn(s, e);
      hide Next, Committed, Drawn, StagedRows;
      assert AllStaged(s', k) == AllStaged(s, k)[e.r := StagedRows(s'.sessions[e.r], k)];
      SumUpdate(AllStaged(s, k), e.r, StagedRows(s'.sessions[e.r], k));
    } else if e.Arrive? {
      assert AllStaged(s', k) == AllStaged(s, k)[e.r := 0];
      SumUpdate(AllStaged(s, k), e.r, 0);
    }
  }

  lemma {:induction false} RunKeepsCovered(s: State, events: seq<Event>, k: Kind)
    requires Covered(s, k)
    ensures Covered(Exec(s, events), k)
  {
    hide Next, Covered;
    if events != [] {
      RunKeepsCovered(s, Front(events), k);
      NextKeepsCovered(Exec(s, Front(events)), Last(events), k);
    }
  }

  lemma ReachableCovered(s: State, k: Kind)
    requires Reachable(s)
    ensures Covered(s, k)
  {
    var events :| s == Exec(Init(s.goods), events);
    assert AllStaged(Init(s.goods), k) == map[];
    RunKeepsCovered(Init(s.goods), events, k);
  }

  /** No table of a reachable state has more rows than an INTEGER id can number. */
  lemma RowsAreNumbered(s: State)
    requires Reachable(s)
    ensures |s.tables.transactions| <= INT_MAX && |s.tables.purchases| <= INT_MAX
  {
    forall k: Kind
      ensures Committed(s, k) <= INT_MAX
    {
      ReachableCovered(s, k);
      SumNonNegative(AllStaged(s, k));
    }
    assert Committed(s, Transfers) <= INT_MAX && Committed(s, Purchases) <= INT_MAX;
  }

  /** Each transfer at its credit has drawn two account ids, so that there cannot be more than so many at once. */
  lemma PendingCreditsAreNumbered(s: State, c: set<ReqId>)
    requires Reachable(s)
    requires forall r | r in c ::
               r in s.sessions && s.sessions[r].pc.Credit? && s.sessions[r].job.Some? && s.sessions[r].job.value.Move?
    ensures 2 * |c| <= INT_MAX
  {
    ReachableCovered(s, Accounts);
    hide Reachable;
    SumAtLeast(AllStaged(s, Accounts), c, 2);
  }

  // ---- Ids are never given back ----

  predicate NotBelow(a: Serials, b: Serials)
  {
    a.accounts <= b.accounts && a.transfers <= b.transfers && a.purchases <= b.purchases
  }

  lemma StatementsDrawOn(s: State, r: ReqId)
    requires r in s.sessions && s.sessions[r].job.Some?
    ensures NotBelow(s.serials, LockPayer(s, r).serials) && NotBelow(s.serials, DebitPayer(s, r).serials)
    ensures NotBelow(s.serials, InsertRecord(s, r).serials) && NotBelow(s.serials, CommitTx(s, r, Ok).serials)
    ensures s.sessions[r].job.value.Move? ==> NotBelow(s.serials, CreditRecipient(s, r).serials)
  {
    hide Row;
  }

  lemma OthersDrawOn(s: State, r: ReqId, u: UserId, next: Pc, o: Outcome)
    requires r in s.sessions
    ensures NotBelow(s.serials, OpenThen(s, r, u, next).serials) && NotBelow(s.serials, EndTx(s, r, o).serials)
    ensures s.sessions[r].job.Some? ==> NotBelow(s.serials, CommitTx(s, r, o).serials)
    ensures s.sessions[r].request.BuyItem? ==> NotBelow(s.serials, LookUpGood(s, r).serials)
  {
  }

  lemma ExecuteDrawsOn(s: State, r: ReqId)
    requires r in s.sessions
    ensures NotBelow(s.serials, Execute(s, r).serials)
  {
    hide LockPayer, DebitPayer, CreditRecipient, InsertRecord, CommitTx, OpenThen, EndTx, LookUpGood;
    var ss := s.sessions[r];
    if ss.job.Some? { StatementsDrawOn(s, r); }
    match ss.pc {
      case Intercept => OthersDrawOn(s, r, Caller(ss.request), Resolve, Ok);
      case Resolve => OthersDrawOn(s, r, 0, Resolve, Ok);
      case OpenRecipient =>
        if ss.job.Some? && ss.job.value.Move? { OthersDrawOn(s, r, ss.job.value.transfer.to, Begin, Ok); }
      case Rollback(why) => OthersDrawOn(s, r, 0, Resolve, why);
      case _ =>
    }
  }

  lemma VanishDrawsOn(s: State, r: ReqId)
    requires r in s.sessions
    ensures NotBelow(s.serials, Vanish(s, r).serials)
  {
    hide CommitTx, OpenThen;
    var ss := s.sessions[r];
    OthersDrawOn(s, r, Caller(ss.request), Done(Failure), Failure);
    if ss.job.Some? && ss.job.value.Move? { OthersDrawOn(s, r, ss.job.value.transfer.to, Done(Failure), Failure); }
  }

  lemma NextDrawsOn(s: State, e: Event)
    ensures NotBelow(s.serials, Next(s, e).serials)
  {
    hide Execute, Vanish;
    if e.r in s.sessions {
      ExecuteDrawsOn(s, e.r);
      VanishDrawsOn(s, e.r);
    }
  }

  lemma {:induction false} RunDrawsOn(s: State, events: seq<Event>)
    ensures NotBelow(s.serials, Exec(s, events).serials)
  {
    hide Next;
    if events != [] {
      RunDrawsOn(s, Front(events));
      NextDrawsOn(Exec(s, Front(events)), Last(events));
    }
  }

  /** Along a run the sequences only advance. */
  lemma SerialsGrow(s: State, s': State)
    requires Leads(s, s')
    ensures NotBelow(s.serials, s'.serials)
  {
    hide Exec, NotBelow;
    var events :| s' == Exec(s, events);
    RunDrawsOn(s, events);
  }
}
