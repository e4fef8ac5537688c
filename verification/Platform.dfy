/**
 Both services together: store requests carry tokens that the auth service has issued, and recipients
 are looked up in its table. Every user id that the store holds is the id of a registered user.
 */
module Platform {
  import opened Ledger
  import opened StoreSystem
  import opened StoreInvariant
  import opened AuthSystem
  import Outcomes
  import Refinement

  datatype Platform = Platform(auth: AuthState, store: State)

  datatype PlatformEvent =
    | OfAuth(step: AuthEvent)
    | Call(r: ReqId, login: ReqId, request: Request)   // a store call with the token of a login
    | Ask(r: ReqId, delivered: bool)               // the store asks for a recipient's id
    | Work(e: Event)                                   // a statement of a store request

  /** The conversion int32(x) of Go. */
  function Int32(x: int): int
  {
    (x + 0x8000_0000) % 0x1_0000_0000 - 0x8000_0000
  }

  /** It loses nothing exactly if the number is an int32, and otherwise leaves the low 32 bits. */
  lemma Int32Wraps(x: int, k: int)
    ensures Int32(x) == x <==> -0x8000_0000 <= x < 0x8000_0000
    ensures Int32(x + k * 0x1_0000_0000) == Int32(x)
  {
  }

  /** GetUserID: the id crosses the wire as an int32. */
  function UserID(users: seq<UserRow>, username: string): Option<UserId>
  {
    match Find(users, username)
    case None => None
    case Some(row) => Some(Int32(row.id))
  }

  function NextPlatform(p: Platform, e: PlatformEvent): Platform
  {
    match e
    case OfAuth(e) => p.(auth := NextAuth(p.auth, e))
    case Call(r, login, q) =>
      if login in p.auth.logins && p.auth.logins[login].pc.LoggedIn?
         && Caller(q) == TokenOf(p.auth.logins[login].pc.holder).uid
      then p.(store := Next(p.store, Arrive(r, q))) else p
    case Ask(r, delivered) =>
      if r in p.store.sessions && p.store.sessions[r].request.SendCoins?
      then p.(store := Next(p.store, Answer(r,
             if delivered then UserID(p.auth.users, p.store.sessions[r].request.toUsername) else None)))
      else p
    case Work(e) => if e.Arrive? || e.Answer? then p else p.(store := Next(p.store, e))
  }

  function ExecPlatform(p: Platform, events: seq<PlatformEvent>): Platform
  {
    if events == [] then p else NextPlatform(ExecPlatform(p, Front(events)), Last(events))
  }

  ghost predicate Running(p: Platform)
  {
    exists events :: p == ExecPlatform(Platform(NO_USERS, Init(p.store.goods)), events)
  }

  /** The user with this id. */
  function NameOf(users: seq<UserRow>, id: UserId): (name: Option<string>)
    ensures name.Some? ==> exists row :: row in users && row.id == id && row.username == name.value
    ensures name.None? ==> forall row | row in users :: row.id != id
  {
    if users == [] then None
    else if Last(users).id == id then Some(Last(users).username)
    else NameOf(Front(users), id)
  }

  predicate Registered(users: seq<UserRow>, id: UserId)
  {
    NameOf(users, id).Some?
  }

  lemma RegisteredById(users: seq<UserRow>, row: UserRow)
    requires row in users
    ensures Registered(users, row.id)
  {
  }

  lemma StaysRegistered(users: seq<UserRow>, users': seq<UserRow>, id: UserId)
    requires users <= users' && Registered(users, id)
    ensures Registered(users', id)
  {
    var row :| row in users && row.id == id;
    assert row in users';
  }

  /** The caller is a user, and the recipient, once resolved, is the user whom the caller has named. */
  ghost predicate Identified(users: seq<UserRow>, ss: Session)
  {
    && Registered(users, Caller(ss.request))
    && (ss.job.Some? && ss.job.value.Move? ==>
          && ss.request.SendCoins?
          && exists row :: row in users && row.username == ss.request.toUsername && row.id == ss.job.value.transfer.to)
  }

  ghost predicate PlatformInv(p: Platform)
  {
    && AuthInv(p.auth) && Reachable(p.store)
    && forall r | r in p.store.sessions :: Identified(p.auth.users, p.store.sessions[r])
  }

  lemma MoreUsersIdentify(users: seq<UserRow>, users': seq<UserRow>, ss: Session)
    requires users <= users' && Identified(users, ss)
    ensures Identified(users', ss)
  {
    StaysRegistered(users, users', Caller(ss.request));
    assert forall row | row in users :: row in users';
  }

  /** Only an answer of the auth service makes a request a transfer to someone. */
  lemma WorkNamesNobody(s: State, e: Event)
    requires e.r in s.sessions && !e.Arrive? && !e.Answer?
    ensures SameOrder(s, Next(s, e), e.r)
  {
    match e {
      case Advance(r) => ExecuteNamesNobody(s, r);
      case Fail(r) =>
      case LoseAck(r) =>
    }
  }

  /** The request is unchanged, and so is its job, unless it has become a purchase. */
  predicate SameOrder(s: State, s': State, r: ReqId)
    requires r in s.sessions && r in s'.sessions
  {
    var ss, ss' := s.sessions[r], s'.sessions[r];
    ss'.request == ss.request && (ss'.job == ss.job || (ss'.job.Some? && ss'.job.value.Buy?))
  }

  lemma UpdatesKeepOrder(s: State, r: ReqId)
    requires r in s.sessions && s.sessions[r].job.Some?
    ensures SameOrder(s, LockPayer(s, r), r) && SameOrder(s, DebitPayer(s, r), r)
    ensures s.sessions[r].job.value.Move? ==> SameOrder(s, CreditRecipient(s, r), r)
  {
    hide Row, HeldByOther;
  }

  lemma OthersKeepOrder(s: State, r: ReqId, u: UserId, next: Pc, o: Outcome)
    requires r in s.sessions
    ensures s.sessions[r].request.BuyItem? ==> SameOrder(s, LookUpGood(s, r), r)
    ensures SameOrder(s, OpenThen(s, r, u, next), r) && SameOrder(s, EndTx(s, r, o), r)
    ensures s.sessions[r].job.Some? ==> SameOrder(s, InsertRecord(s, r), r) && SameOrder(s, CommitTx(s, r, o), r)
  {
  }

  lemma ExecuteNamesNobody(s: State, r: ReqId)
    requires r in s.sessions
    ensures SameOrder(s, Execute(s, r), r)
  {
    var ss := s.sessions[r];
    hide LockPayer, DebitPayer, CreditRecipient, InsertRecord, LookUpGood, OpenThen, EndTx, CommitTx;
    match ss.pc {
      case Intercept => OthersKeepOrder(s, r, Caller(ss.request), Resolve, Ok);
      case Resolve => OthersKeepOrder(s, r, 0, Resolve, Ok);
      case OpenRecipient =>
        if ss.job.Some? && ss.job.value.Move? { OthersKeepOrder(s, r, ss.job.value.transfer.to, Begin, Ok); }
      case Record => OthersKeepOrder(s, r, 0, Resolve, Ok);
      case Commit => OthersKeepOrder(s, r, 0, Resolve, Ok);
      case Rollback(why) => OthersKeepOrder(s, r, 0, Resolve, why);
      case Lock => if ss.job.Some? { UpdatesKeepOrder(s, r); }
      case Debit => if ss.job.Some? { UpdatesKeepOrder(s, r); }
      case Credit => if ss.job.Some? { UpdatesKeepOrder(s, r); }
      case _ =>
    }
  }

  lemma FoundIdFits(a: AuthState, username: string)
    requires UsersFit(a)
    ensures var found := Find(a.users, username);
            found.Some? ==> UserID(a.users, username) == Some(found.value.id)
  {
    var found := Find(a.users, username);
    if found.Some? {
      var i :| 0 <= i < |a.users| && a.users[i] == found.value;
    }
  }

  /** An answer changes the job only to a transfer to the user it names. */
  lemma AnswerSetsJob(s: State, r: ReqId, user: Option<UserId>)
    requires r in s.sessions && s.sessions[r].request.SendCoins?
    ensures var ss, ss' := s.sessions[r], Next(s, Answer(r, user)).sessions[r];
            && ss'.request == ss.request
            && (ss'.job == ss.job ||
                (user.Some? && ss'.job == Some(Move(Transfer(ss.request.from, user.value, ss.request.amount)))))
  {
    hide Execute, Break, Vanish;
  }

  lemma PlatformAt(p: Platform, r: ReqId)
    requires PlatformInv(p) && r in p.store.sessions
    ensures UsersFit(p.auth) && Identified(p.auth.users, p.store.sessions[r])
  {
  }

  /** If there is an id, it is that of the user with the name. */
  ghost predicate IdOf(users: seq<UserRow>, username: string, id: Option<UserId>)
  {
    id.Some? ==> exists row :: row in users && row.username == username && row.id == id.value
  }

  lemma AnsweredIdentifies(users: seq<UserRow>, s: State, r: ReqId, user: Option<UserId>)
    requires r in s.sessions && s.sessions[r].request.SendCoins? && Identified(users, s.sessions[r])
    requires IdOf(users, s.sessions[r].request.toUsername, user)
    ensures Identified(users, Next(s, Answer(r, user)).sessions[r])
  {
    hide Registered, Next;
    AnswerSetsJob(s, r, user);
  }

  /** The id that crosses the wire is that of the user with the name. */
  lemma FoundIsUser(a: AuthState, username: string)
    requires UsersFit(a)
    ensures IdOf(a.users, username, UserID(a.users, username))
  {
    hide UsersFit;
    FoundIdFits(a, username);
  }

  lemma AnswerNamesUser(p: Platform, r: ReqId, delivered: bool)
    requires PlatformInv(p) && r in p.store.sessions && p.store.sessions[r].request.SendCoins?
    ensures var p' := NextPlatform(p, Ask(r, delivered));
            r in p'.store.sessions && Identified(p.auth.users, p'.store.sessions[r])
  {
    hide PlatformInv, UsersFit, Find, UserID, Next, Identified;
    PlatformAt(p, r);
    var answer := if delivered then UserID(p.auth.users, p.store.sessions[r].request.toUsername) else None;
    FoundIsUser(p.auth, p.store.sessions[r].request.toUsername);
    AnsweredIdentifies(p.auth.users, p.store, r, answer);
  }

  lemma StoreStepIdentifies(p: Platform, s': State, r: ReqId)
    requires PlatformInv(p) && Reachable(s')
    requires s'.sessions.Keys <= p.store.sessions.Keys + {r}
    requires forall q | q in s'.sessions && q != r :: s'.sessions[q] == p.store.sessions[q]
    requires r in s'.sessions ==> Identified(p.auth.users, s'.sessions[r])
    ensures PlatformInv(p.(store := s'))
  {
  }

  lemma SessionsStay(s: State, e: Event)
    ensures Next(s, e).sessions.Keys <= s.sessions.Keys + {e.r}
    ensures forall q | q in s.sessions && q != e.r :: Next(s, e).sessions[q] == s.sessions[q]
  {
    if e.r in s.sessions { Outcomes.NextIsOwn(s, e); }
  }

  lemma NextKeepsPlatform(p: Platform, e: PlatformEvent)
    requires PlatformInv(p)
    ensures PlatformInv(NextPlatform(p, e)) && p.auth.users <= NextPlatform(p, e).auth.users
    ensures NextPlatform(p, e).store.goods == p.store.goods
  {
    var users := p.auth.users;
    hide AuthInv, Reachable, Identified, Next, NextAuth;
    match e {
      case OfAuth(step) =>
        NextKeepsAuth(p.auth, step);
        forall r | r in p.store.sessions
          ensures Identified(NextAuth(p.auth, step).users, p.store.sessions[r])
        {
          MoreUsersIdentify(users, NextAuth(p.auth, step).users, p.store.sessions[r]);
        }
      case Call(r, login, q) =>
        if NextPlatform(p, e) != p {
          ReachableNext(p.store, Arrive(r, q));
          SessionsStay(p.store, Arrive(r, q));
          CallerIsUser(p, r, login, q);
          StoreStepIdentifies(p, Next(p.store, Arrive(r, q)), r);
        }
      case Ask(r, delivered) =>
        if NextPlatform(p, e) != p {
          var answer := if delivered then UserID(users, p.store.sessions[r].request.toUsername) else None;
          ReachableNext(p.store, Answer(r, answer));
          SessionsStay(p.store, Answer(r, answer));
          AnswerNamesUser(p, r, delivered);
          StoreStepIdentifies(p, Next(p.store, Answer(r, answer)), r);
        }
      case Work(step) =>
        if NextPlatform(p, e) != p {
          ReachableNext(p.store, step);
          SessionsStay(p.store, step);
          if step.r in p.store.sessions { WorkIdentifies(p, step); }
          else { NobodyThere(p.store, step); }
          StoreStepIdentifies(p, Next(p.store, step), step.r);
        }
    }
  }

  lemma NobodyThere(s: State, e: Event)
    requires e.r !in s.sessions && !e.Arrive?
    ensures Next(s, e) == s
  {
  }

  lemma CallerIsUser(p: Platform, r: ReqId, login: ReqId, q: Request)
    requires PlatformInv(p) && login in p.auth.logins && p.auth.logins[login].pc.LoggedIn?
    requires Caller(q) == TokenOf(p.auth.logins[login].pc.holder).uid
    ensures r in Next(p.store, Arrive(r, q)).sessions && Identified(p.auth.users, Next(p.store, Arrive(r, q)).sessions[r])
  {
    assert LoginFits(p.auth.users, p.auth.logins[login]);
    RegisteredById(p.auth.users, p.auth.logins[login].pc.holder);
    if r in p.store.sessions { assert Identified(p.auth.users, p.store.sessions[r]); }
    hide Registered;
  }

  lemma WorkIdentifies(p: Platform, e: Event)
    requires PlatformInv(p) && e.r in p.store.sessions && !e.Arrive? && !e.Answer?
    ensures Identified(p.auth.users, Next(p.store, e).sessions[e.r])
  {
    assert Identified(p.auth.users, p.store.sessions[e.r]);
    WorkNamesNobody(p.store, e);
    hide Next, Registered;
  }

  lemma {:induction false} RunKeepsPlatform(p: Platform, events: seq<PlatformEvent>)
    requires PlatformInv(p)
    ensures PlatformInv(ExecPlatform(p, events)) && p.auth.users <= ExecPlatform(p, events).auth.users
    ensures ExecPlatform(p, events).store.goods == p.store.goods
  {
    hide PlatformInv, NextPlatform;
    if events != [] {
      RunKeepsPlatform(p, Front(events));
      NextKeepsPlatform(ExecPlatform(p, Front(events)), Last(events));
    }
  }

  lemma RunningInv(p: Platform)
    requires Running(p)
    ensures PlatformInv(p)
  {
    hide NextPlatform;
    var start := Platform(NO_USERS, Init(p.store.goods));
    var events :| p == ExecPlatform(start, events);
    assert Reachable(start.store) by { assert start.store == Exec(Init(start.store.goods), []); }
    RunKeepsPlatform(start, events);
  }

  lemma PlatformAppend(p: Platform, events: seq<PlatformEvent>, e: PlatformEvent)
    ensures ExecPlatform(p, events + [e]) == NextPlatform(ExecPlatform(p, events), e)
  {
    assert Front(events + [e]) == events && Last(events + [e]) == e;
  }

  lemma RunningOn(p: Platform, e: PlatformEvent)
    requires Running(p)
    ensures Running(NextPlatform(p, e))
  {
    hide NextPlatform;
    var start := Platform(NO_USERS, Init(p.store.goods));
    var events :| p == ExecPlatform(start, events);
    PlatformAppend(start, events, e);
    RunningInv(p);
    hide ExecPlatform, PlatformInv;
    NextKeepsPlatform(p, e);
  }

  // ---- Every id in the store is a user's ----

  lemma {:induction false} OpenedBySomeone(journal: seq<Entry>, u: UserId) returns (i: nat)
    requires Openings(Refinement.Ops(journal), u) > 0
    ensures i < |journal| && journal[i].op == Open(u)
  {
    var ops := Refinement.Ops(journal);
    assert journal != [];
    assert Front(ops) == Refinement.Ops(Front(journal)) && Last(ops) == Last(journal).op;
    if Last(journal).op == Open(u) {
      i := |journal| - 1;
    } else {
      i := OpenedBySomeone(Front(journal), u);
    }
  }

  /** Every account belongs to a registered user. */
  lemma AccountsAreUsers(p: Platform, u: UserId)
    requires Running(p) && u in p.store.tables.balances
    ensures Registered(p.auth.users, u)
  {
    RunningInv(p);
    Refinement.ReachableSerialized(p.store);
    OpenedOnce(p.store.goods, Refinement.Ops(p.store.journal), u);
    hide Running, Inv, Reachable, Serial, Replay, AuthInv, Registered;
    var i := OpenedBySomeone(p.store.journal, u);
    Outcomes.OpensOnlyItsOwn(p.store, i);
    assert Identified(p.auth.users, p.store.sessions[p.store.journal[i].req]);
    if u != Caller(p.store.sessions[p.store.journal[i].req].request) {
      var row :| row in p.auth.users && row.id == u;
      RegisteredById(p.auth.users, row);
    }
  }

  /** So does every row of the history, on both sides, and every purchase. */
  lemma RowsAreUsers(p: Platform)
    requires Running(p)
    ensures forall row | row in p.store.tables.transactions ::
              Registered(p.auth.users, row.from) && Registered(p.auth.users, row.to)
    ensures forall row | row in p.store.tables.purchases :: Registered(p.auth.users, row.user)
  {
    RunningInv(p);
    ReachableInv(p.store);
    var t := p.store.tables;
    forall row | row in t.transactions
      ensures Registered(p.auth.users, row.from) && Registered(p.auth.users, row.to)
    {
      assert SoundTransfer(t, row);
      AccountsAreUsers(p, row.from);
      AccountsAreUsers(p, row.to);
    }
    forall row | row in t.purchases
      ensures Registered(p.auth.users, row.user)
    {
      assert SoundPurchase(p.store.goods, t, row);
      AccountsAreUsers(p, row.user);
    }
  }

  /** What a transfer commits goes to the very user whom the request names, and comes from the token's. */
  lemma CoinsGoToTheNamedUser(p: Platform, r: ReqId, op: Op)
    requires Running(p) && r in p.store.sessions && p.store.sessions[r].pc.Done? && p.store.sessions[r].request.SendCoins?
    requires op in Outcomes.Effects(p.store.journal, r)
    ensures var q := p.store.sessions[r].request;
            && op.Move? && op.transfer.from == q.from && op.transfer.amount == q.amount
            && Registered(p.auth.users, op.transfer.from) && NameOf(p.auth.users, op.transfer.to) == Some(q.toUsername)
  {
    RunningInv(p);
    Outcomes.ReplyMatchesEffect(p.store, r);
    var ss := p.store.sessions[r];
    assert Identified(p.auth.users, ss);
    hide Reachable, Running;
    var row :| row in p.auth.users && row.username == ss.request.toUsername && row.id == op.transfer.to;
    RowIsUnique(p.auth, row);
  }
}
