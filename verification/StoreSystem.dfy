/**
 The store service as a state machine: any number of SendCoins and BuyItem requests, each
 advancing one SQL statement (or one remote call) at a time, in any order, over one database.

 Row locks follow sections 13.2.1 and 13.3.2 of the PostgreSQL 16 documentation: a row that was
 selected FOR UPDATE or updated belongs to its transaction until that ends, and other transactions
 go on reading the last committed version. The share locks that foreign keys take fall on rows the
 transaction already owns, or on goods, which nobody writes.
 */
module StoreSystem {
  import opened Ledger

  type ReqId = nat

  /** How the application ends a request; Outcomes turns it into a gRPC code. */
  datatype Outcome = Ok | InvalidArguments | UserNotFound | InsufficientBalance | GoodNotFound | Failure

  datatype Request =
    | SendCoins(from: UserId, toUsername: string, amount: uint32)
    | BuyItem(user: UserId, item: string)

  function Caller(q: Request): UserId
  {
    match q
    case SendCoins(from, _, _) => from
    case BuyItem(user, _) => user
  }

  /** The statement a request executes next. */
  datatype Pc =
    | Intercept        // the interceptor opens the caller's account
    | Resolve          // ask for the recipient's id, or look the good up
    | OpenRecipient    // open the recipient's account
    | Begin            // begin the transaction
    | Lock             // SELECT balance ... FOR UPDATE
    | Check            // compare the balance that was read
    | Debit            // UPDATE the payer's row
    | Credit           // UPDATE the recipient's row
    | Record           // INSERT the transfer or the purchase
    | Commit
    | Rollback(why: Outcome)
    | Done(outcome: Outcome)

  /** The uncommitted writes of a transaction: new row versions and new rows. */
  datatype Tx = Tx(writes: map<UserId, int>, transfers: seq<Transfer>, purchases: seq<Purchase>)

  const NO_WRITES: Tx := Tx(map[], [], [])

  datatype Option<T> = None | Some(value: T)

  /** `job` is what the request turned out to ask for, `due` what it costs, `read` the balance it locked. */
  datatype Session = Session(request: Request, pc: Pc, job: Option<Op>, due: int, read: int, tx: Tx)

  /** Which request committed an operation. */
  datatype Entry = Entry(req: ReqId, op: Op)

  /** The id sequences behind the SERIAL columns. They advance even when the insert is undone. */
  datatype Serials = Serials(accounts: nat, transfers: nat, purchases: nat)

  /** `journal` is a history variable: the operations in the order in which they committed. */
  datatype State = State(
    goods: Catalogue,
    tables: Tables,
    serials: Serials,
    locks: map<UserId, ReqId>,
    sessions: map<ReqId, Session>,
    journal: seq<Entry>)

  datatype Event =
    | Arrive(r: ReqId, request: Request)           // an authenticated call comes in
    | Answer(r: ReqId, user: Option<UserId>)       // the auth service names the recipient, or the call fails
    | Advance(r: ReqId)                            // the next statement is executed
    | Fail(r: ReqId)                               // it fails: SQL error, timeout, deadlock victim, lost connection
    | LoseAck(r: ReqId)                            // it takes effect, but the caller sees an error

  function Init(goods: Catalogue): State
  {
    State(goods, EMPTY, Serials(0, 0, 0), map[], map[], [])
  }

  /** From s to s', request r has changed nothing but its own session. */
  ghost predicate OwnSession(s: State, s': State, r: ReqId)
  {
    r in s'.sessions && s'.goods == s.goods && s'.sessions == s.sessions[r := s'.sessions[r]]
  }

  /** As above, and nothing is committed either. */
  ghost predicate Uncommitted(s: State, s': State, r: ReqId)
  {
    OwnSession(s, s', r) && s'.tables == s.tables && s'.journal == s.journal
  }

  function Put(s: State, r: ReqId, ss: Session): State
  {
    s.(sessions := s.sessions[r := ss])
  }

  function Goto(s: State, r: ReqId, pc: Pc): State
    requires r in s.sessions
  {
    Put(s, r, s.sessions[r].(pc := pc))
  }

  /** The row version that transaction r works on. */
  function Row(s: State, r: ReqId, u: UserId): int
    requires r in s.sessions && u in s.tables.balances
  {
    if u in s.sessions[r].tx.writes then s.sessions[r].tx.writes[u] else s.tables.balances[u]
  }

  predicate HeldByOther(s: State, r: ReqId, u: UserId)
  {
    u in s.locks && s.locks[u] != r
  }

  function Release(locks: map<UserId, ReqId>, r: ReqId): map<UserId, ReqId>
  {
    map u | u in locks && locks[u] != r :: locks[u]
  }

  /** Locks the row and replaces its version within transaction r. */
  function Write(s: State, r: ReqId, u: UserId, v: int, pc: Pc): State
    requires r in s.sessions
  {
    var ss := s.sessions[r];
    Put(s.(locks := s.locks[u := r]), r, ss.(pc := pc, tx := ss.tx.(writes := ss.tx.writes[u := v])))
  }

  /** INSERT ... ON CONFLICT DO NOTHING, in a transaction of its own. It draws an id even if the row exists. */
  function EnsureBalanceCreated(s: State, r: ReqId, u: UserId): (State, bool)
  {
    if s.serials.accounts >= INT_MAX then (s, false)
    else
      var s := s.(serials := s.serials.(accounts := s.serials.accounts + 1));
      if u in s.tables.balances then (s, true)
      else
        (s.(tables := s.tables.(balances := s.tables.balances[u := START_BALANCE]),
            journal := s.journal + [Entry(r, Open(u))]), true)
  }

  function OpenThen(s: State, r: ReqId, u: UserId, next: Pc): (s': State)
    requires r in s.sessions
    ensures OwnSession(s, s', r)
  {
    var (after, ok) := EnsureBalanceCreated(s, r, u);
    Goto(after, r, if ok then next else Done(Failure))
  }

  /** SELECT id, name, price FROM goods WHERE name = ...; the price must scan into a uint32. */
  function FindGood(goods: Catalogue, item: string): Option<int>
  {
    if exists g :: g in goods && goods[g].name == item then
      var g :| g in goods && goods[g].name == item;
      Some(g)
    else None
  }

  function LookUpGood(s: State, r: ReqId): (s': State)
    requires r in s.sessions && s.sessions[r].request.BuyItem?
    ensures Uncommitted(s, s', r)
  {
    var ss := s.sessions[r];
    match FindGood(s.goods, ss.request.item)
    case None => Goto(s, r, Done(GoodNotFound))
    case Some(g) =>
      if Price(s.goods, g) < 0 then Goto(s, r, Done(Failure))
      else Put(s, r, ss.(pc := Begin, job := Some(Buy(Purchase(ss.request.user, g))), due := Price(s.goods, g)))
  }

  function AnswerRecipient(s: State, r: ReqId, user: Option<UserId>): (s': State)
    requires r in s.sessions && s.sessions[r].request.SendCoins?
    ensures Uncommitted(s, s', r)
  {
    var ss := s.sessions[r];
    match user
    case None => Goto(s, r, Done(UserNotFound))
    case Some(to) =>
      if to == ss.request.from then Goto(s, r, Done(InvalidArguments))
      else
        Put(s, r, ss.(pc := OpenRecipient, job := Some(Move(Transfer(ss.request.from, to, ss.request.amount))),
                      due := ss.request.amount))
  }

  function LockPayer(s: State, r: ReqId): (s': State)
    requires r in s.sessions && s.sessions[r].job.Some?
    ensures Uncommitted(s, s', r)
  {
    var ss := s.sessions[r];
    var u := Payer(ss.job.value);
    if u !in s.tables.balances then Goto(s, r, Rollback(UserNotFound))
    else if HeldByOther(s, r, u) then s
    else Put(s.(locks := s.locks[u := r]), r, ss.(pc := Check, read := Row(s, r, u)))
  }

  function CheckBalance(s: State, r: ReqId): (s': State)
    requires r in s.sessions
    ensures Uncommitted(s, s', r)
  {
    var ss := s.sessions[r];
    Goto(s, r, if ss.read < ss.due then Rollback(InsufficientBalance) else Debit)
  }

  /**
   The debit of a transfer repeats the balance check in its WHERE clause and takes "no row updated"
   for an insufficient balance. The debit of a purchase has no such clause and does not look at the
   number of rows. The column's CHECK constraint stands behind both.
   */
  function DebitPayer(s: State, r: ReqId): (s': State)
    requires r in s.sessions && s.sessions[r].job.Some?
    ensures Uncommitted(s, s', r)
  {
    var ss := s.sessions[r];
    var u := Payer(ss.job.value);
    if ss.due > INT_MAX then Goto(s, r, Rollback(Failure))
    else if u !in s.tables.balances then
      Goto(s, r, if ss.job.value.Move? then Rollback(InsufficientBalance) else Record)
    else if HeldByOther(s, r, u) then s
    else if ss.job.value.Move? && Row(s, r, u) < ss.due then Goto(s, r, Rollback(InsufficientBalance))
    else if Row(s, r, u) - ss.due < 0 then Goto(s, r, Rollback(Failure))
    else Write(s, r, u, Row(s, r, u) - ss.due, if ss.job.value.Move? then Credit else Record)
  }

  /** The number of credited rows is not looked at. A sum beyond INTEGER is an SQL error. */
  function CreditRecipient(s: State, r: ReqId): (s': State)
    requires r in s.sessions && s.sessions[r].job.Some? && s.sessions[r].job.value.Move?
    ensures Uncommitted(s, s', r)
  {
    var ss := s.sessions[r];
    var u := ss.job.value.transfer.to;
    if ss.due > INT_MAX then Goto(s, r, Rollback(Failure))
    else if u !in s.tables.balances then Goto(s, r, Record)
    else if HeldByOther(s, r, u) then s
    else if Row(s, r, u) + ss.due > INT_MAX then Goto(s, r, Rollback(Failure))
    else Write(s, r, u, Row(s, r, u) + ss.due, Record)
  }

  /** The foreign keys of the new row are checked after its id has been drawn. */
  function InsertRecord(s: State, r: ReqId): (s': State)
    requires r in s.sessions && s.sessions[r].job.Some?
    ensures Uncommitted(s, s', r)
  {
    var ss := s.sessions[r];
    match ss.job.value
    case Move(t) =>
      if s.serials.transfers >= INT_MAX || t.amount > INT_MAX then Goto(s, r, Rollback(Failure))
      else
        var s := s.(serials := s.serials.(transfers := s.serials.transfers + 1));
        if t.from !in s.tables.balances || t.to !in s.tables.balances then Goto(s, r, Rollback(Failure))
        else Put(s, r, ss.(pc := Commit, tx := ss.tx.(transfers := ss.tx.transfers + [t])))
    case Buy(p) =>
      if s.serials.purchases >= INT_MAX then Goto(s, r, Rollback(Failure))
      else
        var s := s.(serials := s.serials.(purchases := s.serials.purchases + 1));
        if p.user !in s.tables.balances || p.good !in s.goods then Goto(s, r, Rollback(Failure))
        else Put(s, r, ss.(pc := Commit, tx := ss.tx.(purchases := ss.tx.purchases + [p])))
    case Open(_) => s
  }

  /** Ends the transaction: the locks go, and so do the staged writes. */
  function EndTx(s: State, r: ReqId, o: Outcome): (s': State)
    requires r in s.sessions
    ensures Uncommitted(s, s', r)
  {
    Put(s.(locks := Release(s.locks, r)), r, s.sessions[r].(pc := Done(o), tx := NO_WRITES))
  }

  /** Makes the staged writes the committed ones. */
  function Install(t: Tables, tx: Tx): Tables
  {
    Tables(t.balances + tx.writes, t.transactions + tx.transfers, t.purchases + tx.purchases)
  }

  function CommitTx(s: State, r: ReqId, o: Outcome): (s': State)
    requires r in s.sessions && s.sessions[r].job.Some?
    ensures OwnSession(s, s', r)
  {
    var ss := s.sessions[r];
    EndTx(s.(tables := Install(s.tables, ss.tx), journal := s.journal + [Entry(r, ss.job.value)]), r, o)
  }

  /** One request executes its next statement, or stands still if it has to wait for a row. */
  function Execute(s: State, r: ReqId): (s': State)
    requires r in s.sessions
    ensures OwnSession(s, s', r)
  {
    var ss := s.sessions[r];
    match ss.pc
    case Intercept => OpenThen(s, r, Caller(ss.request), Resolve)
    case Resolve => if ss.request.BuyItem? then LookUpGood(s, r) else s
    case OpenRecipient =>
      if ss.job.Some? && ss.job.value.Move? then OpenThen(s, r, ss.job.value.transfer.to, Begin) else s
    case Begin => Goto(s, r, Lock)
    case Lock => if ss.job.Some? then LockPayer(s, r) else s
    case Check => CheckBalance(s, r)
    case Debit => if ss.job.Some? then DebitPayer(s, r) else s
    case Credit => if ss.job.Some? && ss.job.value.Move? then CreditRecipient(s, r) else s
    case Record => if ss.job.Some? then InsertRecord(s, r) else s
    case Commit => if ss.job.Some? then CommitTx(s, r, Ok) else s
    case Rollback(why) => EndTx(s, r, why)
    case Done(_) => s
  }

  /** The pending statement reports an error and has no effect. Inside a transaction, a rollback follows. */
  function Break(s: State, r: ReqId): (s': State)
    requires r in s.sessions
    ensures Uncommitted(s, s', r)
  {
    var ss := s.sessions[r];
    match ss.pc
    case Intercept => Goto(s, r, Done(Failure))
    case Resolve => Goto(s, r, Done(if ss.request.SendCoins? then UserNotFound else Failure))
    case OpenRecipient => Goto(s, r, Done(Failure))
    case Begin => Goto(s, r, Done(Failure))
    case Lock => Goto(s, r, Rollback(Failure))
    case Debit => Goto(s, r, Rollback(Failure))
    case Credit => Goto(s, r, Rollback(Failure))
    case Record => Goto(s, r, Rollback(Failure))
    case Commit => Goto(s, r, Rollback(Failure))
    case _ => s
  }

  /** The pending autocommitted statement or commit takes effect, but its acknowledgement is lost. */
  function Vanish(s: State, r: ReqId): (s': State)
    requires r in s.sessions
    ensures OwnSession(s, s', r)
  {
    var ss := s.sessions[r];
    match ss.pc
    case Intercept => OpenThen(s, r, Caller(ss.request), Done(Failure))
    case OpenRecipient =>
      if ss.job.Some? && ss.job.value.Move? then OpenThen(s, r, ss.job.value.transfer.to, Done(Failure)) else s
    case Commit => if ss.job.Some? then CommitTx(s, r, Failure) else s
    case _ => s
  }

  function Next(s: State, e: Event): (s': State)
    ensures s.sessions.Keys <= s'.sessions.Keys && s'.goods == s.goods
    ensures forall q | q in s.sessions && q != e.r :: s'.sessions[q] == s.sessions[q]
  {
    match e
    case Arrive(r, q) =>
      if r in s.sessions then s else Put(s, r, Session(q, Intercept, None, 0, 0, NO_WRITES))
    case Answer(r, user) =>
      if r in s.sessions && s.sessions[r].pc == Resolve && s.sessions[r].request.SendCoins?
      then AnswerRecipient(s, r, user) else s
    case Advance(r) => if r in s.sessions then Execute(s, r) else s
    case Fail(r) => if r in s.sessions then Break(s, r) else s
    case LoseAck(r) => if r in s.sessions then Vanish(s, r) else s
  }

  /** An event that is not possible where it stands changes nothing, so every sequence of events is a run. */
  function Exec(s: State, events: seq<Event>): State
  {
    if events == [] then s else Next(Exec(s, Front(events)), Last(events))
  }

  lemma ExecAppend(s: State, events: seq<Event>, e: Event)
    ensures Exec(s, events + [e]) == Next(Exec(s, events), e)
  {
    assert Front(events + [e]) == events && Last(events + [e]) == e;
  }

  lemma {:induction false} ExecConcat(s: State, es: seq<Event>, fs: seq<Event>)
    ensures Exec(s, es + fs) == Exec(Exec(s, es), fs)
  {
    if fs == [] {
      assert es + fs == es;
    } else {
      hide Exec, Next;
      var front, e := Front(fs), Last(fs);
      ExecConcat(s, es, front);
      ExecAppend(s, es + front, e);
      ExecAppend(Exec(s, es), front, e);
      assert es + fs == (es + front) + [e];
    }
  }

  /** The states that some run of the store reaches. */
  ghost predicate Reachable(s: State)
  {
    exists events :: s == Exec(Init(s.goods), events)
  }

  lemma ReachableNext(s: State, e: Event)
    requires Reachable(s)
    ensures Reachable(Next(s, e))
  {
    hide Next;
    var events :| s == Exec(Init(s.goods), events);
    ExecAppend(Init(s.goods), events, e);
  }

  lemma {:induction false} ReachableExec(s: State, events: seq<Event>)
    requires Reachable(s)
    ensures Reachable(Exec(s, events))
  {
    hide Next, Reachable;
    if events != [] {
      ReachableExec(s, Front(events));
      ReachableNext(Exec(s, Front(events)), Last(events));
    }
  }

  /** Some run takes s to s'. */
  ghost predicate Leads(s: State, s': State)
  {
    exists events :: s' == Exec(s, events)
  }

  lemma LeadsByNext(s: State, s': State, e: Event)
    requires Leads(s, s')
    ensures Leads(s, Next(s', e))
  {
    hide Next;
    var events :| s' == Exec(s, events);
    ExecAppend(s, events, e);
  }

  lemma LeadsNowhere(s: State)
    ensures Leads(s, s)
  {
    assert s == Exec(s, []);
  }

  lemma LeadsOn(s: State, s': State, s'': State)
    requires Leads(s, s') && Leads(s', s'')
    ensures Leads(s, s'')
  {
    hide Next;
    var es :| s' == Exec(s, es);
    var fs :| s'' == Exec(s', fs);
    ExecConcat(s, es, fs);
  }

  lemma ReachableLeads(s: State, s': State)
    requires Reachable(s) && Leads(s, s')
    ensures Reachable(s')
  {
    hide Next;
    var events :| s' == Exec(s, events);
    ReachableExec(s, events);
  }

  /** Some run in which nobody calls and nobody is answered takes s to s'. */
  ghost predicate Works(s: State, s': State)
  {
    exists events: seq<Event> :: (forall e | e in events :: !e.Arrive? && !e.Answer?) && s' == Exec(s, events)
  }

  lemma WorksLeads(s: State, s': State)
    requires Works(s, s')
    ensures Leads(s, s')
  {
  }

  lemma WorksNowhere(s: State)
    ensures Works(s, s)
  {
    assert s == Exec(s, []);
  }

  lemma WorksByNext(s: State, s': State, e: Event)
    requires Works(s, s') && !e.Arrive? && !e.Answer?
    ensures Works(s, Next(s', e))
  {
    hide Next;
    var events: seq<Event> :| (forall e | e in events :: !e.Arrive? && !e.Answer?) && s' == Exec(s, events);
    ExecAppend(s, events, e);
  }

  lemma WorksOn(s: State, s': State, s'': State)
    requires Works(s, s') && Works(s', s'')
    ensures Works(s, s'')
  {
    hide Next;
    var es: seq<Event> :| (forall e | e in es :: !e.Arrive? && !e.Answer?) && s' == Exec(s, es);
    var fs: seq<Event> :| (forall e | e in fs :: !e.Arrive? && !e.Answer?) && s'' == Exec(s', fs);
    ExecConcat(s, es, fs);
  }
}
