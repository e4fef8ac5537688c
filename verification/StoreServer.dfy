/**
 The store as a program: the request handlers, use cases and repositories run their statements one by
 one against one shared database. Between any two statements any other requests may do anything;
 any statement may fail, which is an input of the call. Every method is proved to make exactly the steps of the state machine, so
 that all that holds of its runs holds of the program.
 */
module StoreServer {
  import opened Ledger
  import opened StoreSystem
  import opened StoreInvariant
  import opened Outcomes
  import Refinement
  import SerialIds
  import Victims

  /** How a statement ends: as it should, with an error and no effect, or with an effect and yet an error. */
  datatype Fault = Fine | Broken | Unheard

  /** Which statements of a call fail. Inside a transaction an error always undoes the statement. */
  datatype Faults = Faults(intercept: Fault, lookUp: bool, open: Fault, begin: bool, lock: bool,
                           debit: bool, credit: bool, record: bool, commit: Fault)

  /** A transaction that has staged one more row version. */
  function WithWrite(tx: Tx, userId: UserId, balance: int): Tx
  {
    tx.(writes := tx.writes[userId := balance])
  }

  /**
   On the way from s to s', request r got to compare its locked balance, and `at` is the state in which it
   did: the row is there and locked, and what it has read is what is committed.
   */
  ghost predicate ComparedAt(s: State, at: Option<State>, s': State, r: ReqId, userId: UserId)
  {
    at.Some? ==>
      && Leads(s, at.value) && Leads(at.value, s')
      && r in at.value.sessions && at.value.sessions[r].pc.Check?
      && userId in at.value.tables.balances && at.value.sessions[r].read == at.value.tables.balances[userId]
      && userId in at.value.locks && at.value.locks[userId] == r
  }

  lemma ComparedOn(s0: State, s: State, at: Option<State>, s': State, s'': State, r: ReqId, userId: UserId)
    requires Leads(s0, s) && ComparedAt(s, at, s', r, userId) && Leads(s', s'')
    ensures ComparedAt(s0, at, s'', r, userId)
  {
    hide Leads;
    if at.Some? {
      LeadsOn(s0, s, at.value);
      LeadsOn(at.value, s', s'');
    }
  }

  /** The same for the credit of a transfer: the state in which it is carried out, or overflows. */
  ghost predicate CreditedAt(s: State, at: Option<State>, s': State, r: ReqId, userId: UserId)
  {
    at.Some? ==>
      && Leads(s, at.value) && Leads(at.value, s')
      && r in at.value.sessions && at.value.sessions[r].pc.Credit? && userId in at.value.tables.balances
  }

  lemma CreditedOn(s0: State, s: State, at: Option<State>, s': State, s'': State, r: ReqId, userId: UserId)
    requires Leads(s0, s) && CreditedAt(s, at, s', r, userId) && Leads(s', s'')
    ensures CreditedAt(s0, at, s'', r, userId)
  {
    hide Leads;
    if at.Some? {
      LeadsOn(s0, s, at.value);
      LeadsOn(at.value, s', s'');
    }
  }

  /** In that state the row covers what is due. */
  predicate Covers(at: Option<State>, userId: UserId, due: int)
  {
    at.Some? && userId in at.value.tables.balances && due <= at.value.tables.balances[userId]
  }

  /** In that state the row has room for the amount in its INTEGER column. */
  predicate HasRoom(at: Option<State>, userId: UserId, amount: int)
  {
    at.Some? && userId in at.value.tables.balances && at.value.tables.balances[userId] + amount <= 0x7fff_ffff
  }

  class Store {
    const goods: Catalogue
    var balances: map<UserId, int>
    var transactions: seq<Transfer>
    var purchases: seq<Purchase>
    var serials: Serials
    var locks: map<UserId, ReqId>
    var sessions: map<ReqId, Session>
    var journal: seq<Entry>

    function State(): State
      reads this
    {
      StoreSystem.State(goods, Tables(balances, transactions, purchases), serials, locks, sessions, journal)
    }

    ghost predicate Valid()
      reads this
    {
      Reachable(State())
    }

    constructor (goods: Catalogue)
      ensures Valid() && this.goods == goods && State() == Init(goods)
    {
      this.goods := goods;
      balances, transactions, purchases := map[], [], [];
      serials, locks, sessions, journal := Serials(0, 0, 0), map[], map[], [];
      new;
      assert State() == Exec(Init(goods), []);
    }

    method Become(s: State)
      requires s.goods == goods
      modifies this
      ensures State() == s
    {
      balances, transactions, purchases := s.tables.balances, s.tables.transactions, s.tables.purchases;
      serials, locks, sessions, journal := s.serials, s.locks, s.sessions, s.journal;
    }

    /** Anything that requests other than r may do in the meantime. */
    method Others(r: ReqId)
      requires Valid() && r in sessions
      modifies this
      ensures Valid() && Leads(old(State()), State())
      ensures r in sessions && sessions[r] == old(sessions[r])
    {
      var events: seq<Event> := *;
      LeadsNowhere(State());
      for i := 0 to |events|
        invariant Valid() && Leads(old(State()), State())
        invariant r in sessions && sessions[r] == old(sessions[r])
      {
        if events[i].r != r {
          ReachableNext(State(), events[i]);
          LeadsByNext(old(State()), State(), events[i]);
          var s := Next(State(), events[i]);
          Become(s);
        }
      }
    }

    method Goto(r: ReqId, pc: Pc)
      requires r in sessions
      modifies this`sessions
      ensures State() == StoreSystem.Goto(old(State()), r, pc)
    {
      sessions := sessions[r := sessions[r].(pc := pc)];
    }

    /** internal/store/infrastructure/postgres/balances_repository.go: insert if absent, in a transaction of its own. */
    method EnsureBalanceCreated(r: ReqId, userId: UserId) returns (ok: bool)
      modifies this`balances, this`serials, this`journal
      ensures (State(), ok) == StoreSystem.EnsureBalanceCreated(old(State()), r, userId)
      ensures ok <==> old(serials.accounts) < 0x7fff_ffff
      ensures ok ==> balances == if userId in old(balances) then old(balances) else old(balances)[userId := 1000]
    {
      if serials.accounts >= INT_MAX {
        return false;
      }
      serials := serials.(accounts := serials.accounts + 1);
      if userId !in balances {
        balances := balances[userId := START_BALANCE];
        journal := journal + [Entry(r, Open(userId))];
      }
      ok := true;
    }

    /** The interceptor's and SendCoins' calls of EnsureBalanceCreated, which may fail or lose their answer. */
    method OpenAccount(r: ReqId, userId: UserId, next: Pc, fault: Fault) returns (o: Outcome)
      requires Valid() && r in sessions
      requires var ss := sessions[r];
               || (ss.pc.Intercept? && userId == Caller(ss.request) && next.Resolve?)
               || (ss.pc.OpenRecipient? && ss.job.Some? && ss.job.value.Move? && userId == ss.job.value.transfer.to && next.Begin?)
      modifies this
      ensures Valid() && Leads(old(State()), State())
      ensures r in sessions && sessions[r] == old(sessions[r]).(pc := if o == Ok then next else Done(o))
      ensures o == Ok || o == Failure
      ensures o == Ok <==> fault.Fine? && old(serials.accounts) < 0x7fff_ffff
      ensures o == Ok ==> userId in balances
    {
      ghost var s := State();
      if fault.Broken? {
        Goto(r, Done(Failure));
        Made(s, Fail(r));
        return Failure;
      }
      var ok := EnsureBalanceCreated(r, userId);
      if fault.Unheard? {
        Goto(r, Done(Failure));
        Made(s, LoseAck(r));
        return Failure;
      }
      o := if ok then Ok else Failure;
      Goto(r, if ok then next else Done(Failure));
      Made(s, Advance(r));
    }

    /** What has been done since s is one event. */
    lemma Made(s: State, e: Event)
      requires Reachable(s) && State() == Next(s, e)
      ensures Valid() && Leads(s, State())
    {
      ReachableNext(s, e);
      LeadsNowhere(s);
      LeadsByNext(s, s, e);
    }

    /** The holder of the row ends, if only as the victim of a deadlock or of a timeout. */
    method HolderEnds(r: ReqId, userId: UserId)
      requires Valid() && r in sessions && HeldByOther(State(), r, userId)
      modifies this
      ensures Valid() && Leads(old(State()), State())
      ensures r in sessions && sessions[r] == old(sessions[r])
      ensures !HeldByOther(State(), r, userId)
    {
      hide Reachable, Leads, Works;
      Victims.RowIsFreed(State(), r, userId);
      var s := Victims.Aborted(State(), locks[userId]);
      WorksLeads(State(), s);
      Become(s);
    }

    /** Waits until the row is free, whatever the others do meanwhile, unless the statement is aborted. */
    method AwaitRow(r: ReqId, userId: UserId, fails: bool) returns (granted: bool)
      requires Valid() && r in sessions
      modifies this
      ensures Valid() && Leads(old(State()), State())
      ensures r in sessions && sessions[r] == old(sessions[r])
      ensures granted <==> !fails
      ensures granted ==> !HeldByOther(State(), r, userId)
    {
      hide Reachable, Leads;
      LeadsNowhere(State());
      if HeldByOther(State(), r, userId) {
        Others(r);
      }
      if !fails && HeldByOther(State(), r, userId) {
        ghost var s := State();
        HolderEnds(r, userId);
        LeadsOn(old(State()), s, State());
      }
      granted := !fails;
    }

    /** An error inside the transaction; the caller will roll back. */
    method Abandon(r: ReqId)
      requires Valid() && r in sessions
      requires var pc := sessions[r].pc; pc.Lock? || pc.Debit? || pc.Credit? || pc.Record? || pc.Commit?
      modifies this
      ensures Valid() && Leads(old(State()), State())
      ensures r in sessions && State() == StoreSystem.Goto(old(State()), r, Rollback(Failure))
    {
      ghost var s := State();
      Goto(r, Rollback(Failure));
      Made(s, Fail(r));
    }

    /** internal/store/infrastructure/postgres/balances_repository.go: SELECT ... FOR UPDATE. */
    method LockAndGetUserBalance(r: ReqId, userId: UserId, fails: bool) returns (balance: int, o: Outcome)
      requires Valid() && r in sessions && sessions[r].pc.Lock? && sessions[r].job.Some?
      requires userId == Payer(sessions[r].job.value) && userId !in sessions[r].tx.writes
      modifies this
      ensures Valid() && Leads(old(State()), State()) && r in sessions
      ensures o == Ok || o == UserNotFound || o == Failure
      ensures sessions[r] == if o == Ok then old(sessions[r]).(pc := Check, read := balance)
                             else old(sessions[r]).(pc := Rollback(o))
      ensures o == Ok ==> userId in balances && balance == balances[userId] && userId in locks && locks[userId] == r
      ensures (o == Failure <==> fails) && (o == UserNotFound ==> userId !in balances)
    {
      hide Reachable, Leads;
      var granted := AwaitRow(r, userId, fails);
      ghost var s := State();
      if !granted {
        Abandon(r);
        LeadsOn(old(State()), s, State());
        return 0, Failure;
      }
      if userId !in balances {
        Goto(r, Rollback(UserNotFound));
        balance, o := 0, UserNotFound;
      } else {
        balance, o := balances[userId], Ok;
        locks := locks[userId := r];
        sessions := sessions[r := sessions[r].(pc := Check, read := balance)];
      }
      Made(s, Advance(r));
      LeadsOn(old(State()), s, State());
    }

    /** An UPDATE of a balance row gives the transaction a version of its own, and the row's lock. */
    method UpdateRow(r: ReqId, userId: UserId, balance: int, pc: Pc)
      requires r in sessions
      modifies this`locks, this`sessions
      ensures State() == Write(old(State()), r, userId, balance, pc)
    {
      locks := locks[userId := r];
      var ss := sessions[r];
      sessions := sessions[r := ss.(pc := pc, tx := ss.tx.(writes := ss.tx.writes[userId := balance]))];
    }

    /** What is about to be debited or credited has been compared with a balance, so that it fits an INTEGER. */
    lemma DueFitsInteger(s: State, r: ReqId)
      requires Reachable(s) && r in s.sessions && (s.sessions[r].pc.Debit? || s.sessions[r].pc.Credit?)
      ensures s.sessions[r].due <= INT_MAX
    {
      ReachableInv(s);
      InvAt(s, r);
    }

    lemma RecipientExists(s: State, r: ReqId)
      requires Reachable(s) && r in s.sessions && s.sessions[r].pc.Credit?
      ensures s.sessions[r].job.Some? && s.sessions[r].job.value.Move?
      ensures s.sessions[r].job.value.transfer.to in s.tables.balances
    {
      hide Reachable, Inv, SessionFits, Sound;
      Refinement.CreditNeverMisses(s, r);
    }

    /** internal/store/infrastructure/postgres/transaction_proceeder.go: the guarded debit. */
    method DebitSender(r: ReqId, amount: int, fromUserId: UserId, fails: bool) returns (o: Outcome)
      requires Valid() && r in sessions && sessions[r].pc.Debit? && sessions[r].job.Some? && sessions[r].job.value.Move?
      requires amount == sessions[r].due && fromUserId == Payer(sessions[r].job.value)
      requires fromUserId !in sessions[r].tx.writes
      modifies this
      ensures Valid() && Leads(old(State()), State()) && r in sessions
      ensures sessions[r].job == old(sessions[r]).job && sessions[r].request == old(sessions[r]).request
      // The answer "no row updated", which the code takes for an insufficient balance, never comes.
      ensures (o == Ok || o == Failure) && (o == Ok <==> !fails)
      ensures sessions[r].pc == (if o == Ok then Credit else Rollback(o))
      ensures sessions[r] == old(sessions[r]).(pc := sessions[r].pc, tx := sessions[r].tx)
      ensures o == Ok ==> fromUserId in balances && amount <= balances[fromUserId]
      ensures o == Ok ==> fromUserId in locks && locks[fromUserId] == r
      ensures sessions[r].tx == if o == Ok then WithWrite(old(sessions[r].tx), fromUserId, balances[fromUserId] - amount)
                                else old(sessions[r].tx)
    {
      hide Reachable, Leads;
      var granted := AwaitRow(r, fromUserId, fails);
      ghost var s := State();
      DueFitsInteger(s, r);
      if !granted || amount > INT_MAX {
        Abandon(r);
        LeadsOn(old(State()), s, State());
        return Failure;
      }
      var rowsAffected := 0;
      if fromUserId in balances && balances[fromUserId] >= amount {
        UpdateRow(r, fromUserId, balances[fromUserId] - amount, Credit);
        rowsAffected := 1;
      }
      if rowsAffected == 0 {
        Goto(r, Rollback(InsufficientBalance));
        o := InsufficientBalance;
      } else {
        o := Ok;
      }
      Made(s, Advance(r));
      Refinement.DebitNeverRefused(s, r);
      LeadsOn(old(State()), s, State());
    }

    /** internal/store/infrastructure/postgres/transaction_proceeder.go: the credit, whose row count is not looked at. */
    method CreditRecipient(r: ReqId, amount: int, toUserId: UserId, fails: bool)
        returns (o: Outcome, ghost at: State)
      requires Valid() && r in sessions && sessions[r].pc.Credit? && sessions[r].job.Some? && sessions[r].job.value.Move?
      requires amount == sessions[r].due && toUserId == sessions[r].job.value.transfer.to
      requires toUserId !in sessions[r].tx.writes
      modifies this
      ensures Valid() && Leads(old(State()), State()) && r in sessions
      ensures sessions[r].job == old(sessions[r]).job && sessions[r].request == old(sessions[r]).request
      ensures o == Ok || o == Failure
      ensures CreditedAt(old(State()), Some(at), State(), r, toUserId) && balances == at.tables.balances
      ensures o == Ok <==> !fails && balances[toUserId] + amount <= 0x7fff_ffff
      ensures sessions[r].pc == (if o == Ok then Record else Rollback(o))
      ensures sessions[r] == old(sessions[r]).(pc := sessions[r].pc, tx := sessions[r].tx)
      ensures sessions[r].tx == if o == Ok
                                then WithWrite(old(sessions[r].tx), toUserId, balances[toUserId] + amount)
                                else old(sessions[r].tx)
      ensures o == Ok ==> toUserId in locks && locks[toUserId] == r
    {
      hide Reachable, Leads;
      var granted := AwaitRow(r, toUserId, fails);
      ghost var s := State();
      at := s;
      DueFitsInteger(s, r);
      if !granted || amount > INT_MAX {
        RecipientExists(s, r);
        Abandon(r);
        LeadsOn(old(State()), s, State());
        o := Failure;
        return;
      }
      if toUserId !in balances {
        Goto(r, Record);
        o := Ok;
      } else if balances[toUserId] + amount > INT_MAX {
        Goto(r, Rollback(Failure));
        o := Failure;
      } else {
        UpdateRow(r, toUserId, balances[toUserId] + amount, Record);
        o := Ok;
      }
      Made(s, Advance(r));
      Refinement.CreditNeverMisses(s, r);
      LeadsOn(old(State()), s, State());
    }

    /** internal/store/infrastructure/postgres/transaction_proceeder.go: the history row. */
    method InsertTransfer(r: ReqId, t: Transfer, fails: bool) returns (o: Outcome)
      requires Valid() && r in sessions && sessions[r].pc.Record? && sessions[r].job == Some(Move(t))
      modifies this
      ensures Valid() && Leads(old(State()), State()) && r in sessions
      ensures sessions[r].job == old(sessions[r]).job && sessions[r].request == old(sessions[r]).request
      ensures o == Ok || o == Failure
      ensures o == Ok <==> !fails && old(serials.transfers) < 0x7fff_ffff
      ensures sessions[r].pc == (if o == Ok then Commit else Rollback(o))
      ensures sessions[r] == old(sessions[r]).(pc := sessions[r].pc, tx := sessions[r].tx)
      ensures sessions[r].tx == if o == Ok then old(sessions[r].tx).(transfers := old(sessions[r].tx.transfers) + [t])
                                else old(sessions[r].tx)
    {
      hide Reachable, Leads;
      ghost var s := State();
      RecordFitsInteger(s, r);
      if fails || serials.transfers >= INT_MAX || t.amount > INT_MAX {
        Abandon(r);
        return Failure;
      }
      serials := serials.(transfers := serials.transfers + 1);
      if t.from !in balances || t.to !in balances {
        Goto(r, Rollback(Failure));
        o := Failure;
      } else {
        var ss := sessions[r];
        sessions := sessions[r := ss.(pc := Commit, tx := ss.tx.(transfers := ss.tx.transfers + [t]))];
        o := Ok;
      }
      Made(s, Advance(r));
      Refinement.RecordNeverDangles(s, r);
    }

    lemma RecordFitsInteger(s: State, r: ReqId)
      requires Reachable(s) && r in s.sessions && s.sessions[r].pc.Record? && s.sessions[r].job.Some? && s.sessions[r].job.value.Move?
      ensures s.sessions[r].job.value.transfer.amount <= INT_MAX
    {
      ReachableInv(s);
      InvAt(s, r);
    }

    /** internal/store/infrastructure/postgres/transaction_proceeder.go: ProceedTransaction. */
    method ProceedTransaction(r: ReqId, amount: int, fromUserId: UserId, toUserId: UserId, faults: Faults)
        returns (o: Outcome, ghost credited: Option<State>)
      requires Valid() && r in sessions && sessions[r].pc.Debit? && amount == sessions[r].due && fromUserId != toUserId
      requires sessions[r].job == Some(Move(Transfer(fromUserId, toUserId, amount))) && sessions[r].tx == NO_WRITES
      modifies this
      ensures Valid() && Leads(old(State()), State()) && r in sessions
      ensures sessions[r].job == old(sessions[r]).job && sessions[r].request == old(sessions[r]).request
      ensures o == Ok || o == Failure
      ensures sessions[r].pc == (if o == Ok then Commit else Rollback(o))
      ensures CreditedAt(old(State()), credited, State(), r, toUserId)
      ensures credited.Some? <==> !faults.debit && !faults.credit
      // It goes through unless a statement fails, the credit overflows, or the ids run out.
      ensures o == Ok ==> HasRoom(credited, toUserId, amount) && !faults.record
      ensures HasRoom(credited, toUserId, amount) && !faults.record ==> o == Ok || serials.transfers >= 0x7fff_ffff
      ensures o == Ok ==>
                && fromUserId in balances && toUserId in balances
                && amount <= balances[fromUserId] && balances[toUserId] + amount <= INT_MAX
                && sessions[r].tx == Tx(map[fromUserId := balances[fromUserId] - amount, toUserId := balances[toUserId] + amount],
                                        [Transfer(fromUserId, toUserId, amount)], [])
    {
      hide Reachable, Leads;
      ghost var s0 := State();
      credited := None;
      o := DebitSender(r, amount, fromUserId, faults.debit);
      if o != Ok {
        return;
      }
      ghost var s1 := State();
      Others(r);
      LeadsOn(s0, s1, State());
      ghost var s2 := State();
      ghost var at;
      o, at := CreditRecipient(r, amount, toUserId, faults.credit);
      LeadsOn(s0, s2, State());
      credited := if faults.credit then None else Some(at);
      ghost var s3 := State();
      LeadsNowhere(s3);
      CreditedOn(s0, s2, credited, s3, s3, r, toUserId);
      if o != Ok {
        return;
      }
      Others(r);
      ghost var s4 := State();
      o := InsertTransfer(r, Transfer(fromUserId, toUserId, amount), faults.record);
      LeadsOn(s3, s4, State());
      LeadsOn(s0, s3, State());
      SerialIds.SerialsGrow(s4, State());
      LeadsNowhere(s0);
      CreditedOn(s0, s0, credited, s3, State(), r, toUserId);
      if o == Ok {
        StagedTransfer(State(), r);
      }
    }

    /** At its commit, a transfer has staged the debit and the credit of the committed rows, and its record. */
    lemma StagedTransfer(s: State, r: ReqId)
      requires Reachable(s) && r in s.sessions && s.sessions[r].pc.Commit? && s.sessions[r].job.Some? && s.sessions[r].job.value.Move?
      ensures var t, b := s.sessions[r].job.value.transfer, s.tables.balances;
              && t.from in b && t.to in b && t.amount <= b[t.from] && b[t.to] + t.amount <= INT_MAX
              && s.sessions[r].tx == Tx(map[t.from := b[t.from] - t.amount, t.to := b[t.to] + t.amount], [t], [])
    {
      ReachableInv(s);
      InvAt(s, r);
      var t := s.sessions[r].job.value.transfer;
      assert forall u :: u in s.sessions[r].tx.writes <==> u == t.from || u == t.to;
    }

    /** At its commit, a purchase has staged the debit of the committed row, and its record. */
    lemma StagedPurchase(s: State, r: ReqId)
      requires Reachable(s) && r in s.sessions && s.sessions[r].pc.Commit? && s.sessions[r].job.Some? && s.sessions[r].job.value.Buy?
      ensures var p, b, due := s.sessions[r].job.value.purchase, s.tables.balances, s.sessions[r].due;
              p.user in b && due <= b[p.user] && s.sessions[r].tx == Tx(map[p.user := b[p.user] - due], [], [p])
    {
      ReachableInv(s);
      InvAt(s, r);
      var p := s.sessions[r].job.value.purchase;
      assert forall u :: u in s.sessions[r].tx.writes <==> u == p.user;
    }

    /** internal/store/infrastructure/postgres/purchaser.go: the unguarded debit, whose row count is not looked at. */
    method DebitBuyer(r: ReqId, price: int, userId: UserId, fails: bool) returns (o: Outcome)
      requires Valid() && r in sessions && sessions[r].pc.Debit? && sessions[r].job.Some? && sessions[r].job.value.Buy?
      requires price == sessions[r].due && userId == Payer(sessions[r].job.value) && userId !in sessions[r].tx.writes
      modifies this
      ensures Valid() && Leads(old(State()), State()) && r in sessions
      ensures sessions[r].job == old(sessions[r]).job && sessions[r].request == old(sessions[r]).request
      // Unguarded as it is, it finds its row with enough on it: only a failure of the statement stops it.
      ensures (o == Ok || o == Failure) && (o == Ok <==> !fails)
      ensures o == Ok ==> userId in balances
      ensures sessions[r].pc == (if o == Ok then Record else Rollback(o))
      ensures sessions[r] == old(sessions[r]).(pc := sessions[r].pc, tx := sessions[r].tx)
      ensures sessions[r].tx == if o == Ok
                                then WithWrite(old(sessions[r].tx), userId, balances[userId] - price)
                                else old(sessions[r].tx)
      ensures o == Ok ==> userId in locks && locks[userId] == r && 0 <= balances[userId] - price
    {
      hide Reachable, Leads;
      var granted := AwaitRow(r, userId, fails);
      ghost var s := State();
      DueFitsInteger(s, r);
      if !granted || price > INT_MAX {
        Abandon(r);
        LeadsOn(old(State()), s, State());
        return Failure;
      }
      o := Ok;
      if userId !in balances {
        Goto(r, Record);
      } else if balances[userId] - price < 0 {
        Goto(r, Rollback(Failure));
        o := Failure;
      } else {
        UpdateRow(r, userId, balances[userId] - price, Record);
      }
      Made(s, Advance(r));
      Refinement.DebitNeverRefused(s, r);
      LeadsOn(old(State()), s, State());
    }

    /** internal/store/infrastructure/postgres/purchaser.go: ProcessPurchase. */
    method ProcessPurchase(r: ReqId, userId: UserId, good: int, price: int, faults: Faults) returns (o: Outcome)
      requires Valid() && r in sessions && sessions[r].pc.Debit? && price == sessions[r].due
      requires sessions[r].job == Some(Buy(Purchase(userId, good))) && sessions[r].tx == NO_WRITES
      modifies this
      ensures Valid() && Leads(old(State()), State()) && r in sessions
      ensures sessions[r].job == old(sessions[r]).job && sessions[r].request == old(sessions[r]).request
      ensures o == Ok || o == Failure
      ensures sessions[r].pc == (if o == Ok then Commit else Rollback(o))
      // It goes through unless a statement fails or the ids run out.
      ensures o == Ok ==> !faults.debit && !faults.record
      ensures !faults.debit && !faults.record ==> o == Ok || serials.purchases >= 0x7fff_ffff
      ensures o == Ok ==>
                && userId in balances && price <= balances[userId]
                && sessions[r].tx == Tx(map[userId := balances[userId] - price], [], [Purchase(userId, good)])
    {
      hide Reachable, Leads;
      ghost var s0 := State();
      o := DebitBuyer(r, price, userId, faults.debit);
      if o != Ok {
        return;
      }
      ghost var s1 := State();
      Others(r);
      LeadsOn(s0, s1, State());
      ghost var s2 := State();
      o := InsertPurchase(r, Purchase(userId, good), faults.record);
      LeadsOn(s0, s2, State());
      if o == Ok {
        StagedPurchase(State(), r);
      }
    }

    method InsertPurchase(r: ReqId, p: Purchase, fails: bool) returns (o: Outcome)
      requires Valid() && r in sessions && sessions[r].pc.Record? && sessions[r].job == Some(Buy(p))
      modifies this
      ensures Valid() && Leads(old(State()), State()) && r in sessions
      ensures o == Ok || o == Failure
      ensures o == Ok <==> !fails && old(serials.purchases) < 0x7fff_ffff
      ensures o != Ok && !fails ==> serials.purchases >= 0x7fff_ffff
      ensures sessions[r].pc == (if o == Ok then Commit else Rollback(o))
      ensures sessions[r] == old(sessions[r]).(pc := sessions[r].pc, tx := sessions[r].tx)
      ensures sessions[r].tx == if o == Ok then old(sessions[r].tx).(purchases := old(sessions[r].tx.purchases) + [p])
                                else old(sessions[r].tx)
    {
      hide Reachable, Leads;
      ghost var s := State();
      if fails || serials.purchases >= INT_MAX {
        Abandon(r);
        return Failure;
      }
      serials := serials.(purchases := serials.purchases + 1);
      if p.user !in balances || p.good !in goods {
        Goto(r, Rollback(Failure));
        o := Failure;
      } else {
        var ss := sessions[r];
        sessions := sessions[r := ss.(pc := Commit, tx := ss.tx.(purchases := ss.tx.purchases + [p]))];
        o := Ok;
      }
      Made(s, Advance(r));
      Refinement.RecordNeverDangles(s, r);
    }

    /** tx.Commit: the staged writes become the committed ones, all at once. Its answer may be lost. */
    method CommitTransaction(r: ReqId, lost: bool) returns (o: Outcome)
      requires Valid() && r in sessions && sessions[r].pc.Commit? && sessions[r].job.Some?
      modifies this
      ensures Valid() && Leads(old(State()), State()) && r in sessions
      ensures o == if lost then Failure else Ok
      ensures sessions[r] == old(sessions[r]).(pc := Done(o), tx := NO_WRITES)
      ensures balances == old(balances) + old(sessions[r].tx.writes)
      ensures transactions == old(transactions) + old(sessions[r].tx.transfers)
      ensures purchases == old(purchases) + old(sessions[r].tx.purchases)
      ensures journal == old(journal) + [Entry(r, sessions[r].job.value)]
      ensures locks == Release(old(locks), r)
    {
      hide Reachable, Leads;
      ghost var s := State();
      var ss := sessions[r];
      o := if lost then Failure else Ok;
      balances := balances + ss.tx.writes;
      transactions, purchases := transactions + ss.tx.transfers, purchases + ss.tx.purchases;
      journal := journal + [Entry(r, ss.job.value)];
      locks := map u | u in locks && locks[u] != r :: locks[u];
      sessions := sessions[r := ss.(pc := Done(o), tx := NO_WRITES)];
      Made(s, if lost then LoseAck(r) else Advance(r));
    }

    /** tx.Rollback: the staged writes are dropped. */
    method RollBack(r: ReqId, err: Outcome)
      requires Valid() && r in sessions && sessions[r].pc == Rollback(err)
      modifies this
      ensures Valid() && Leads(old(State()), State()) && r in sessions
      ensures State() == EndTx(old(State()), r, err)
    {
      hide Reachable, Leads;
      ghost var s := State();
      locks := map u | u in locks && locks[u] != r :: locks[u];
      sessions := sessions[r := sessions[r].(pc := Done(err), tx := NO_WRITES)];
      Made(s, Advance(r));
    }

    /** The end of WithinTransaction in internal/pkg/database/transactions.go: commit, or the deferred rollback. */
    method EndTransaction(r: ReqId, err: Outcome, fault: Fault) returns (o: Outcome)
      requires Valid() && r in sessions && sessions[r].job.Some?
      requires sessions[r].pc == if err == Ok then Commit else Rollback(err)
      modifies this
      ensures Valid() && Leads(old(State()), State()) && r in sessions
      ensures sessions[r] == old(sessions[r]).(pc := Done(o), tx := NO_WRITES) && locks == Release(old(locks), r)
      ensures o == if err == Ok && !fault.Fine? then Failure else err
      // A commit that does not fail makes the whole transaction permanent; so does one that goes unheard.
      ensures err == Ok && !fault.Broken? ==>
                && journal == old(journal) + [Entry(r, sessions[r].job.value)]
                && balances == old(balances) + old(sessions[r].tx.writes)
                && transactions == old(transactions) + old(sessions[r].tx.transfers)
                && purchases == old(purchases) + old(sessions[r].tx.purchases)
      // Anything else leaves the tables as they were.
      ensures err != Ok || fault.Broken? ==> journal == old(journal) && State().tables == old(State().tables)
    {
      hide Reachable, Leads;
      if err == Ok {
        if !fault.Broken? {
          o := CommitTransaction(r, fault.Unheard?);
        } else {
          ghost var s0 := State();
          Abandon(r);
          ghost var s1 := State();
          RollBack(r, Failure);
          LeadsOn(s0, s1, State());
          o := Failure;
        }
      } else {
        RollBack(r, err);
        o := err;
      }
    }

    /** tx.BeginTx. */
    method BeginTx(r: ReqId, fails: bool) returns (o: Outcome)
      requires Valid() && r in sessions && sessions[r].pc.Begin?
      modifies this
      ensures Valid() && Leads(old(State()), State()) && r in sessions
      ensures o == if fails then Failure else Ok
      ensures sessions[r] == old(sessions[r]).(pc := if fails then Done(Failure) else Lock)
    {
      hide Reachable, Leads;
      ghost var s := State();
      o := if fails then Failure else Ok;
      Goto(r, if fails then Done(Failure) else Lock);
      Made(s, if fails then Fail(r) else Advance(r));
    }

    /** The comparison of the locked balance with what is due. */
    method CheckBalance(r: ReqId, balance: int, due: int) returns (o: Outcome)
      requires Valid() && r in sessions && sessions[r].pc.Check? && balance == sessions[r].read && due == sessions[r].due
      modifies this
      ensures Valid() && Leads(old(State()), State()) && r in sessions
      ensures o == if balance < due then InsufficientBalance else Ok
      ensures sessions[r] == old(sessions[r]).(pc := if o == Ok then Debit else Rollback(o))
    {
      hide Reachable, Leads;
      ghost var s := State();
      o := if balance < due then InsufficientBalance else Ok;
      Goto(r, if balance < due then Rollback(InsufficientBalance) else Debit);
      Made(s, Advance(r));
    }

    /** A request that is about to lock its payer's row has opened it before, and rows stay. */
    lemma PayerExists(before: State, s: State, r: ReqId)
      requires Reachable(before) && r in before.sessions && before.sessions[r].pc.Lock? && before.sessions[r].job.Some?
      requires Leads(before, s)
      ensures Payer(before.sessions[r].job.value) in s.tables.balances
    {
      ReachableInv(before);
      InvAt(before, r);
      assert Payer(before.sessions[r].job.value) == Caller(before.sessions[r].request);
      var events :| s == Exec(before, events);
      Refinement.AccountsStay(before, events, Payer(before.sessions[r].job.value));
    }

    /** Up to the check, the closures of SendCoins and BuyItem do the same. */
    method LockAndCheck(r: ReqId, userId: UserId, due: int, fails: bool)
        returns (o: Outcome, ghost compared: Option<State>)
      requires Valid() && r in sessions && sessions[r].pc.Lock? && sessions[r].job.Some? && sessions[r].tx == NO_WRITES
      requires userId == Payer(sessions[r].job.value) && due == sessions[r].due
      modifies this
      ensures Valid() && Leads(old(State()), State()) && r in sessions
      ensures sessions[r] == old(sessions[r]).(pc := if o == Ok then Debit else Rollback(o), read := sessions[r].read)
      ensures (o == Ok || o == InsufficientBalance || o == Failure) && (o == Failure <==> fails) && (compared.Some? <==> !fails)
      ensures o == Ok ==> userId in balances && due <= balances[userId] && userId in locks && locks[userId] == r
      ensures ComparedAt(old(State()), compared, State(), r, userId)
      ensures o == InsufficientBalance <==> compared.Some? && compared.value.tables.balances[userId] < due
      ensures o == Ok ==> compared.Some? && due <= compared.value.tables.balances[userId]
    {
      hide Reachable, Leads;
      ghost var s0 := State();
      compared := None;
      var balance;
      balance, o := LockAndGetUserBalance(r, userId, fails);
      if o == Ok {
        ghost var s1 := State();
        Others(r);
        LeadsOn(s0, s1, State());
        ghost var s2 := State();
        ReadStaysCurrent(s2, r);
        compared := Some(s2);
        o := CheckBalance(r, balance, due);
        LeadsOn(s0, s2, State());
        if o == Ok {
          ReadStaysCurrent(State(), r);
        }
      } else {
        PayerExists(s0, State(), r);
      }
    }

    /** What a finished call leaves behind, in terms of the whole run. */
    lemma Settled(r: ReqId)
      requires Valid() && r in sessions && sessions[r].pc.Done?
      ensures Refinement.Serialized(State())
      ensures forall u | u in locks :: locks[u] != r
      ensures sessions[r].pc.outcome == Ok ==> sessions[r].job.Some? && Effects(journal, r) == [sessions[r].job.value]
      ensures sessions[r].pc.outcome != Ok && sessions[r].pc.outcome != Failure ==> Effects(journal, r) == []
      ensures Effects(journal, r) == [] || (sessions[r].job.Some? && Effects(journal, r) == [sessions[r].job.value])
      ensures forall op | op in Effects(journal, r) :: Matches(goods, sessions[r].request, op)
    {
      Refinement.ReachableSerialized(State());
      ReplyMatchesEffect(State(), r);
      NoLocksLeft(State(), r);
      assert AccountedFor(journal, r, sessions[r]) by { ReachableAccounted(State()); }
      hide Reachable, Inv, Leads, Effects, Matches, Refinement.Serialized, Reply;
      var effects := Effects(journal, r);
      assert effects != [] ==> effects[0] in effects && effects == [effects[0]];
    }

    lemma NoLocksLeft(s: State, r: ReqId)
      requires Reachable(s) && r in s.sessions && s.sessions[r].pc.Done?
      ensures forall u | u in s.locks :: s.locks[u] != r
    {
      forall u | u in s.locks
        ensures s.locks[u] != r
      {
        LockHygiene(s, u);
      }
    }

    /** internal/store/application/send_coins_case.go: the transaction of SendCoins. */
    method TransferInTransaction(r: ReqId, fromUserId: UserId, toUserId: UserId, amount: int, faults: Faults)
        returns (o: Outcome, ghost compared: Option<State>, ghost credited: Option<State>)
      requires Valid() && r in sessions && sessions[r].pc.Begin? && fromUserId != toUserId
      requires sessions[r].job == Some(Move(Transfer(fromUserId, toUserId, amount)))
      requires sessions[r].due == amount && sessions[r].tx == NO_WRITES
      modifies this
      ensures Valid() && Leads(old(State()), State()) && r in sessions
      ensures sessions[r].job == old(sessions[r]).job && sessions[r].request == old(sessions[r]).request
      ensures sessions[r].pc == Done(o) && (o == Ok || o == InsufficientBalance || o == Failure)
      ensures o == Ok ==> Effects(journal, r) == [Move(Transfer(fromUserId, toUserId, amount))]
      ensures o != Ok && o != Failure ==> Effects(journal, r) == []
      ensures ComparedAt(old(State()), compared, State(), r, fromUserId)
      ensures CreditedAt(old(State()), credited, State(), r, toUserId)
      ensures compared.Some? <==> !faults.begin && !faults.lock
      ensures o == InsufficientBalance <==> compared.Some? && !Covers(compared, fromUserId, amount)
      ensures credited.Some? <==> Covers(compared, fromUserId, amount) && !faults.debit && !faults.credit
      ensures o == Ok ==> HasRoom(credited, toUserId, amount) && !faults.record && faults.commit.Fine?
      ensures HasRoom(credited, toUserId, amount) && !faults.record && faults.commit.Fine?
              ==> o == Ok || serials.transfers >= 0x7fff_ffff
      ensures forall u | u in locks :: locks[u] != r
    {
      hide Reachable, Leads, Effects, Matches, Refinement.Serialized;
      ghost var s0 := State();
      compared, credited := None, None;
      o := BeginTx(r, faults.begin);
      if o != Ok {
        Settled(r);
        return;
      }
      ghost var s1 := State();
      Others(r);
      LeadsOn(s0, s1, State());
      ghost var s2 := State();
      o, compared := LockAndCheck(r, fromUserId, amount, faults.lock);
      LeadsOn(s0, s2, State());
      ghost var s3 := State();
      LeadsNowhere(s3);
      if o == Ok {
        Others(r);
        ghost var s4 := State();
        o, credited := ProceedTransaction(r, amount, fromUserId, toUserId, faults);
        LeadsOn(s3, s4, State());
        LeadsOn(s0, s3, s4);
        LeadsNowhere(State());
        CreditedOn(s0, s4, credited, State(), State(), r, toUserId);
      }
      ghost var s5 := State();
      LeadsOn(s0, s3, s5);
      LeadsNowhere(s0);
      Others(r);
      LeadsOn(s3, s5, State());
      ghost var s6 := State();
      o := EndTransaction(r, o, faults.commit);
      LeadsOn(s3, s6, State());
      LeadsOn(s5, s6, State());
      LeadsOn(s0, s3, State());
      SerialIds.SerialsGrow(s5, State());
      ComparedOn(s0, s2, compared, s3, State(), r, fromUserId);
      CreditedOn(s0, s0, credited, s5, State(), r, toUserId);
      Settled(r);
    }

    /** internal/store/application/purchase_case.go: the transaction of BuyItem. */
    method PurchaseInTransaction(r: ReqId, userId: UserId, good: int, price: int, faults: Faults)
        returns (o: Outcome, ghost compared: Option<State>)
      requires Valid() && r in sessions && sessions[r].pc.Begin?
      requires sessions[r].job == Some(Buy(Purchase(userId, good)))
      requires sessions[r].due == price && sessions[r].tx == NO_WRITES
      modifies this
      ensures Valid() && Leads(old(State()), State()) && r in sessions
      ensures sessions[r].job == old(sessions[r]).job && sessions[r].request == old(sessions[r]).request
      ensures sessions[r].pc == Done(o) && (o == Ok || o == InsufficientBalance || o == Failure)
      ensures o == Ok ==> Effects(journal, r) == [Buy(Purchase(userId, good))]
      ensures o != Ok && o != Failure ==> Effects(journal, r) == []
      ensures ComparedAt(old(State()), compared, State(), r, userId)
      ensures compared.Some? <==> !faults.begin && !faults.lock
      ensures o == InsufficientBalance <==> compared.Some? && !Covers(compared, userId, price)
      ensures o == Ok ==> Covers(compared, userId, price) && !faults.debit && !faults.record && faults.commit.Fine?
      ensures Covers(compared, userId, price) && !faults.debit && !faults.record && faults.commit.Fine?
              ==> o == Ok || serials.purchases >= 0x7fff_ffff
      ensures forall u | u in locks :: locks[u] != r
    {
      hide Reachable, Leads, Effects, Matches, Refinement.Serialized;
      ghost var s0 := State();
      compared := None;
      o := BeginTx(r, faults.begin);
      if o != Ok {
        Settled(r);
        return;
      }
      ghost var s1 := State();
      Others(r);
      LeadsOn(s0, s1, State());
      ghost var s2 := State();
      o, compared := LockAndCheck(r, userId, price, faults.lock);
      LeadsOn(s0, s2, State());
      ghost var s3 := State();
      LeadsNowhere(s3);
      if o == Ok {
        Others(r);
        ghost var s4 := State();
        o := ProcessPurchase(r, userId, good, price, faults);
        LeadsOn(s3, s4, State());
      }
      ghost var s5 := State();
      Others(r);
      LeadsOn(s3, s5, State());
      ghost var s6 := State();
      o := EndTransaction(r, o, faults.commit);
      LeadsOn(s3, s6, State());
      LeadsOn(s5, s6, State());
      LeadsOn(s0, s3, State());
      SerialIds.SerialsGrow(s5, State());
      ComparedOn(s0, s2, compared, s3, State(), r, userId);
      Settled(r);
    }

    /** A call comes in, and its interceptor opens the caller's account. */
    method Admit(r: ReqId, request: Request, fault: Fault) returns (o: Outcome)
      requires Valid() && r !in sessions
      modifies this
      ensures Valid() && Leads(old(State()), State()) && r in sessions
      ensures o == Ok || o == Failure
      ensures o == Ok ==> fault.Fine?
      ensures fault.Fine? ==> o == Ok || serials.accounts >= 0x7fff_ffff
      ensures sessions[r] == Session(request, if o == Ok then Resolve else Done(o), None, 0, 0, NO_WRITES)
    {
      hide Reachable, Leads;
      ghost var s0 := State();
      sessions := sessions[r := Session(request, Intercept, None, 0, 0, NO_WRITES)];
      Made(s0, Arrive(r, request));
      ghost var s1 := State();
      Others(r);
      LeadsOn(s0, s1, State());
      ghost var s2 := State();
      o := OpenAccount(r, Caller(request), Resolve, fault);
      LeadsOn(s0, s2, State());
      SerialIds.SerialsGrow(s2, State());
    }

    /**
     internal/store/grpc/store_service.go and internal/store/application/send_coins_case.go: SendCoins.
     `answer` is what the auth service says when it is asked for the recipient, if it says anything, and
     `faults` are the failures of the call's own statements. `compared` and `credited` are the states in which
     the sender's balance was compared and the recipient's row credited, if it came to that.
     */
    method SendCoins(r: ReqId, fromUserId: UserId, toUsername: string, amount: uint32, answer: Option<UserId>, faults: Faults)
        returns (code: Code, ghost compared: Option<State>, ghost credited: Option<State>)
      requires Valid() && r !in sessions
      modifies this
      ensures Valid() && Leads(old(State()), State()) && Refinement.Serialized(State())
      ensures r in sessions && sessions[r].request == Request.SendCoins(fromUserId, toUsername, amount)
      ensures forall u | u in locks :: locks[u] != r
      // The answer and the end of the request.
      ensures && (code == OK <==> sessions[r].pc == Done(Ok))
              && (code == InvalidArgument <==> sessions[r].pc == Done(InvalidArguments))
              && (code == NotFound <==> sessions[r].pc == Done(UserNotFound))
              && (code == FailedPrecondition <==> sessions[r].pc == Done(InsufficientBalance))
              && (code == Internal <==> sessions[r].pc == Done(Failure))
      // The answer and its effect.
      ensures code == OK ==> answer.Some? && Effects(journal, r) == [Move(Transfer(fromUserId, answer.value, amount))]
      ensures code != OK && code != Internal ==> Effects(journal, r) == []
      ensures code == Internal ==>
                || Effects(journal, r) == []
                || (answer.Some? && Effects(journal, r) == [Move(Transfer(fromUserId, answer.value, amount))])
      // The answer and its cause: each code comes exactly where it should, while ids are left; all else is Internal.
      ensures ComparedAt(old(State()), compared, State(), r, fromUserId)
      ensures CreditedAt(old(State()), credited, State(), r, if answer.Some? then answer.value else 0)
      ensures (code == NotFound ==> answer == None) && (code == InvalidArgument ==> answer == Some(fromUserId))
      ensures code == FailedPrecondition <==> compared.Some? && !Covers(compared, fromUserId, amount)
      ensures serials.accounts < 0x7fff_ffff && serials.transfers < 0x7fff_ffff ==>
                && (code == NotFound <==> faults.intercept.Fine? && answer == None)
                && (code == InvalidArgument <==> faults.intercept.Fine? && answer == Some(fromUserId))
                && (compared.Some? <==> && faults.intercept.Fine? && answer.Some? && answer.value != fromUserId
                                        && faults.open.Fine? && !faults.begin && !faults.lock)
                && (credited.Some? <==> Covers(compared, fromUserId, amount) && !faults.debit && !faults.credit)
                && (code == OK <==> answer.Some? && HasRoom(credited, answer.value, amount) && !faults.record && faults.commit.Fine?)
    {
      hide Reachable, Leads, Effects, Matches, Refinement.Serialized;
      ghost var s0 := State();
      compared, credited := None, None;
      var o := Admit(r, Request.SendCoins(fromUserId, toUsername, amount), faults.intercept);
      if o == Ok {
        ghost var s1 := State();
        o, compared, credited := ResolveAndSend(r, fromUserId, amount, answer, faults);
        LeadsOn(s0, s1, State());
        LeadsNowhere(State());
        SerialIds.SerialsGrow(s1, State());
        ComparedOn(s0, s1, compared, State(), State(), r, fromUserId);
        CreditedOn(s0, s1, credited, State(), State(), r, if answer.Some? then answer.value else 0);
      }
      code := SendCode(o);
      Settled(r);
    }

    /** The recipient's id is taken, unless the lookup has failed or named the caller. */
    method ResolveRecipient(r: ReqId, fromUserId: UserId, amount: uint32, answer: Option<UserId>) returns (o: Outcome)
      requires Valid() && r in sessions && sessions[r].pc.Resolve? && sessions[r].tx == NO_WRITES && sessions[r].job.None?
      requires sessions[r].request.SendCoins? && sessions[r].request.from == fromUserId && sessions[r].request.amount == amount
      modifies this
      ensures Valid() && Leads(old(State()), State()) && r in sessions
      ensures o == if answer.None? then UserNotFound else if answer.value == fromUserId then InvalidArguments else Ok
      ensures sessions[r] ==
                if o == Ok then old(sessions[r]).(pc := OpenRecipient, due := amount,
                                                  job := Some(Move(Transfer(fromUserId, answer.value, amount))))
                else old(sessions[r]).(pc := Done(o))
    {
      hide Reachable, Leads;
      ghost var s1 := State();
      match answer {
        case None => o := UserNotFound;
        case Some(toUserId) => o := if toUserId == fromUserId then InvalidArguments else Ok;
      }
      var ss := sessions[r];
      if o == Ok {
        sessions := sessions[r := ss.(pc := OpenRecipient, due := amount,
                                      job := Some(Move(Transfer(fromUserId, answer.value, amount))))];
      } else {
        Goto(r, Done(o));
      }
      Made(s1, if answer.None? then Fail(r) else Answer(r, answer));
    }

    method ResolveAndSend(r: ReqId, fromUserId: UserId, amount: uint32, answer: Option<UserId>, faults: Faults)
        returns (o: Outcome, ghost compared: Option<State>, ghost credited: Option<State>)
      requires Valid() && r in sessions && sessions[r].pc.Resolve? && sessions[r].tx == NO_WRITES && sessions[r].job.None?
      requires sessions[r].request.SendCoins? && sessions[r].request.from == fromUserId && sessions[r].request.amount == amount
      modifies this
      ensures Valid() && Leads(old(State()), State()) && r in sessions && sessions[r].request == old(sessions[r]).request
      ensures sessions[r].pc == Done(o) && o != GoodNotFound
      ensures ComparedAt(old(State()), compared, State(), r, fromUserId)
      ensures CreditedAt(old(State()), credited, State(), r, if answer.Some? then answer.value else 0)
      ensures answer == None <==> o == UserNotFound
      ensures answer == Some(fromUserId) <==> o == InvalidArguments
      ensures o == InsufficientBalance <==> compared.Some? && !Covers(compared, fromUserId, amount)
      ensures compared.Some? ==> answer.Some? && answer.value != fromUserId && faults.open.Fine? && !faults.begin && !faults.lock
      ensures answer.Some? && answer.value != fromUserId && faults.open.Fine? && !faults.begin && !faults.lock
              ==> compared.Some? || serials.accounts >= 0x7fff_ffff
      ensures credited.Some? <==> Covers(compared, fromUserId, amount) && !faults.debit && !faults.credit
      ensures o == Ok ==> HasRoom(credited, answer.value, amount) && !faults.record && faults.commit.Fine?
      ensures answer.Some? && HasRoom(credited, answer.value, amount) && !faults.record && faults.commit.Fine?
              ==> o == Ok || serials.transfers >= 0x7fff_ffff
      ensures sessions[r].job == if answer.Some? && answer.value != fromUserId
                                 then Some(Move(Transfer(fromUserId, answer.value, amount))) else None
    {
      hide Reachable, Leads;
      ghost var s0 := State();
      compared, credited := None, None;
      Others(r);
      ghost var s1 := State();
      o := ResolveRecipient(r, fromUserId, amount, answer);
      LeadsOn(s0, s1, State());
      if o != Ok {
        return;
      }
      ghost var s2 := State();
      Others(r);
      LeadsOn(s0, s2, State());
      ghost var s3 := State();
      o := OpenAccount(r, answer.value, Begin, faults.open);
      LeadsOn(s0, s3, State());
      SerialIds.SerialsGrow(s3, State());
      if o != Ok {
        return;
      }
      ghost var s4 := State();
      Others(r);
      LeadsOn(s0, s4, State());
      ghost var s5 := State();
      o, compared, credited := TransferInTransaction(r, fromUserId, answer.value, amount, faults);
      LeadsOn(s0, s5, State());
      LeadsNowhere(State());
      ComparedOn(s0, s5, compared, State(), State(), r, fromUserId);
      CreditedOn(s0, s5, credited, State(), State(), r, answer.value);
    }

    /**
     internal/store/grpc/store_service.go and internal/store/application/purchase_case.go: BuyItem, with the
     failures of its statements, and the state in which the balance was compared, if it came to that.
     */
    method BuyItem(r: ReqId, userId: UserId, item: string, faults: Faults)
        returns (code: Code, ghost compared: Option<State>)
      requires Valid() && r !in sessions
      modifies this
      ensures Valid() && Leads(old(State()), State()) && Refinement.Serialized(State())
      ensures r in sessions && sessions[r].request == Request.BuyItem(userId, item)
      ensures forall u | u in locks :: locks[u] != r
      // The answer and the end of the request.
      ensures && (code == OK <==> sessions[r].pc == Done(Ok))
              && (code == InvalidArgument <==> sessions[r].pc == Done(GoodNotFound))
              && (code == FailedPrecondition <==> sessions[r].pc == Done(InsufficientBalance))
              && (code == Internal <==> sessions[r].pc == Done(Failure))
              && code != NotFound
      // The answer and its effect.
      ensures code == OK ==> |Effects(journal, r)| == 1
      ensures code != OK && code != Internal ==> Effects(journal, r) == []
      ensures forall op | op in Effects(journal, r) :: Matches(goods, sessions[r].request, op)
      ensures forall g | g in goods && goods[g].name == item :: goods[g].price < 0 ==> Effects(journal, r) == []
      // The answer and its cause: each code comes exactly where it should, while ids are left; all else is Internal.
      ensures ComparedAt(old(State()), compared, State(), r, userId)
      ensures code == InvalidArgument ==> forall g | g in goods :: goods[g].name != item
      ensures serials.accounts < 0x7fff_ffff && serials.purchases < 0x7fff_ffff ==>
                && (code == InvalidArgument <==> && faults.intercept.Fine? && !faults.lookUp
                                                 && forall g | g in goods :: goods[g].name != item)
                && (forall g | g in goods && goods[g].name == item ::
                      && (compared.Some? <==> && faults.intercept.Fine? && !faults.lookUp && 0 <= goods[g].price
                                              && !faults.begin && !faults.lock)
                      && (code == FailedPrecondition <==> compared.Some? && !Covers(compared, userId, goods[g].price))
                      && (code == OK <==> && Covers(compared, userId, goods[g].price)
                                          && !faults.debit && !faults.record && faults.commit.Fine?))
    {
      hide Reachable, Leads, Effects, Matches, Refinement.Serialized, FindGood;
      ghost var s0 := State();
      compared := None;
      var o := Admit(r, Request.BuyItem(userId, item), faults.intercept);
      if o == Ok {
        ghost var s1 := State();
        o, compared := LookUpAndBuy(r, userId, item, faults);
        LeadsOn(s0, s1, State());
        LeadsNowhere(State());
        SerialIds.SerialsGrow(s1, State());
        ComparedOn(s0, s1, compared, State(), State(), r, userId);
      }
      code := BuyCode(o);
      Settled(r);
      GoodIsFound(goods, item);
    }

    /** A name is found exactly if a row has it, and then it is the only row that has. */
    lemma GoodIsFound(goods: Catalogue, item: string)
      ensures FindGood(goods, item).None? <==> forall g | g in goods :: goods[g].name != item
      ensures FindGood(goods, item).Some? ==>
                var g := FindGood(goods, item).value;
                g in goods && goods[g].name == item && Price(goods, g) == goods[g].price
      ensures forall g | g in goods && goods[g].name == item :: FindGood(goods, item) == Some(g)
    {
    }

    method LookUpAndBuy(r: ReqId, userId: UserId, item: string, faults: Faults)
        returns (o: Outcome, ghost compared: Option<State>)
      requires Valid() && r in sessions && sessions[r].pc.Resolve? && sessions[r].tx == NO_WRITES && sessions[r].job.None?
      requires sessions[r].request == Request.BuyItem(userId, item)
      modifies this
      ensures Valid() && Leads(old(State()), State()) && r in sessions
      ensures sessions[r].request == old(sessions[r]).request
      ensures sessions[r].pc == Done(o)
      ensures o == Ok || o == GoodNotFound || o == InsufficientBalance || o == Failure
      ensures ComparedAt(old(State()), compared, State(), r, userId)
      ensures o == GoodNotFound <==> !faults.lookUp && forall g | g in goods :: goods[g].name != item
      ensures (forall g | g in goods :: goods[g].name != item) ==> compared.None? && o != Ok && o != InsufficientBalance
      // A negative price fails before there is a transaction.
      ensures forall g | g in goods && goods[g].name == item ::
                && (goods[g].price < 0 ==> o == Failure && sessions[r].job.None?)
                && (compared.Some? <==> !faults.lookUp && 0 <= goods[g].price && !faults.begin && !faults.lock)
                && (o == InsufficientBalance <==> compared.Some? && !Covers(compared, userId, goods[g].price))
                && (o == Ok ==> Covers(compared, userId, goods[g].price) && !faults.debit && !faults.record && faults.commit.Fine?)
                && (Covers(compared, userId, goods[g].price) && !faults.debit && !faults.record && faults.commit.Fine?
                    ==> o == Ok || serials.purchases >= 0x7fff_ffff)
    {
      hide Reachable, Leads, FindGood;
      GoodIsFound(goods, item);
      ghost var s0 := State();
      compared := None;
      Others(r);
      ghost var s1 := State();
      var found := FindGood(goods, item);
      o := if faults.lookUp then Failure
           else if found.None? then GoodNotFound
           else if Price(goods, found.value) < 0 then Failure
           else Ok;
      if o == Ok {
        var ss := sessions[r];
        sessions := sessions[r := ss.(pc := Begin, due := Price(goods, found.value),
                                      job := Some(Buy(Purchase(userId, found.value))))];
      } else {
        Goto(r, Done(o));
      }
      Made(s1, if faults.lookUp then Fail(r) else Advance(r));
      LeadsOn(s0, s1, State());
      if o != Ok {
        return;
      }
      ghost var s2 := State();
      Others(r);
      LeadsOn(s0, s2, State());
      ghost var s3 := State();
      o, compared := PurchaseInTransaction(r, userId, found.value, Price(goods, found.value), faults);
      LeadsOn(s0, s3, State());
      LeadsNowhere(State());
      ComparedOn(s0, s3, compared, State(), State(), r, userId);
    }
  }
}
