/**
 The auth service as a state machine: any number of Authenticate calls, whose lookup and insert are
 separate statements, over one table of users with unique names.
 */
module AuthSystem {
  import opened Ledger
  import opened StoreSystem

  /** An ideal hash: it verifies exactly the password it was made from. */
  datatype Hash = Hash(password: string, salt: nat)

  predicate VerifyPassword(password: string, hash: Hash)
  {
    hash.password == password
  }

  datatype UserRow = UserRow(id: UserId, username: string, hash: Hash)

  /** The claims of a token that the service has signed. */
  datatype Token = Token(uid: UserId, username: string)

  datatype LoginPc =
    | LookUp                     // SELECT the user by name
    | Create                     // hash the password and INSERT the user
    | Verify(found: UserRow)     // compare the password with the row that was read
    | Issue(user: UserRow)
    | LoggedIn(holder: UserRow)  // the token issued for this row has been handed out
    | Mismatch
    | Broken                     // an internal error

  function TokenOf(row: UserRow): Token
  {
    Token(row.id, row.username)
  }

  datatype Login = Login(username: string, password: string, pc: LoginPc)

  /** `users` is the table in the order of insertion; `drawn` counts the ids taken from its sequence. */
  datatype AuthState = AuthState(users: seq<UserRow>, drawn: nat, logins: map<ReqId, Login>)

  datatype AuthEvent =
    | Call(r: ReqId, username: string, password: string)
    | Proceed(r: ReqId, salt: nat)
    | Collapse(r: ReqId)          // the pending statement fails
    | LoseCreated(r: ReqId, salt: nat)   // the insert takes effect, but the caller sees an error

  const NO_USERS: AuthState := AuthState([], 0, map[])

  /** The longest name that VARCHAR(50) holds. */
  const MAX_NAME: nat := 50

  function Find(users: seq<UserRow>, username: string): (found: Option<UserRow>)
    ensures found.Some? ==> found.value in users && found.value.username == username
    ensures found.None? ==> forall row | row in users :: row.username != username
  {
    if users == [] then None
    else if Last(users).username == username then Some(Last(users))
    else Find(Front(users), username)
  }

  function SetPc(a: AuthState, r: ReqId, pc: LoginPc): AuthState
    requires r in a.logins
  {
    a.(logins := a.logins[r := a.logins[r].(pc := pc)])
  }

  /** INSERT INTO users ... RETURNING: the id is drawn even if the name is too long or already taken. */
  function CreateUser(a: AuthState, username: string, hash: Hash): (AuthState, Option<UserRow>)
  {
    if a.drawn >= INT_MAX then (a, None)
    else
      var a := a.(drawn := a.drawn + 1);
      if |username| > MAX_NAME || Find(a.users, username).Some? then (a, None)
      else
        var row := UserRow(a.drawn, username, hash);
        (a.(users := a.users + [row]), Some(row))
  }

  function Authenticate(a: AuthState, r: ReqId, salt: nat): AuthState
    requires r in a.logins
  {
    var l := a.logins[r];
    match l.pc
    case LookUp =>
      (match Find(a.users, l.username)
       case None => SetPc(a, r, Create)
       case Some(row) => SetPc(a, r, Verify(row)))
    case Create =>
      var (a', created) := CreateUser(a, l.username, Hash(l.password, salt));
      SetPc(a', r, if created.Some? then Issue(created.value) else Broken)
    case Verify(row) => SetPc(a, r, if VerifyPassword(l.password, row.hash) then Issue(row) else Mismatch)
    case Issue(row) => SetPc(a, r, LoggedIn(row))
    case _ => a
  }

  function NextAuth(a: AuthState, e: AuthEvent): AuthState
  {
    match e
    case Call(r, username, password) =>
      if r in a.logins then a else a.(logins := a.logins[r := Login(username, password, LookUp)])
    case Proceed(r, salt) => if r in a.logins then Authenticate(a, r, salt) else a
    case Collapse(r) =>
      if r in a.logins && !a.logins[r].pc.LoggedIn? && !a.logins[r].pc.Mismatch? then SetPc(a, r, Broken) else a
    case LoseCreated(r, salt) =>
      if r in a.logins && a.logins[r].pc.Create? then
        SetPc(CreateUser(a, a.logins[r].username, Hash(a.logins[r].password, salt)).0, r, Broken)
      else a
  }

  function ExecAuth(a: AuthState, events: seq<AuthEvent>): AuthState
  {
    if events == [] then a else NextAuth(ExecAuth(a, Front(events)), Last(events))
  }

  /** Ids are handed out in order and fit an int32; names are unique and short enough. */
  ghost predicate UsersFit(a: AuthState)
  {
    && a.drawn <= INT_MAX
    && (forall i | 0 <= i < |a.users| :: 1 <= a.users[i].id <= a.drawn && |a.users[i].username| <= MAX_NAME)
    && (forall i, j | 0 <= i < j < |a.users| :: a.users[i].id < a.users[j].id && a.users[i].username != a.users[j].username)
  }

  /** What a login has found out holds of the table, and whoever gets past the check knows the stored password. */
  ghost predicate LoginFits(users: seq<UserRow>, l: Login)
  {
    match l.pc
    case Verify(row) => row in users && row.username == l.username
    case Issue(row) => row in users && row.username == l.username && row.hash.password == l.password
    case LoggedIn(row) => row in users && row.username == l.username && row.hash.password == l.password
    case _ => true
  }

  ghost predicate AuthInv(a: AuthState)
  {
    UsersFit(a) && forall r | r in a.logins :: LoginFits(a.users, a.logins[r])
  }

  lemma MoreUsersFit(users: seq<UserRow>, users': seq<UserRow>, l: Login)
    requires users <= users' && LoginFits(users, l)
    ensures LoginFits(users', l)
  {
    assert forall row | row in users :: row in users';
  }

  lemma CreateFits(a: AuthState, username: string, hash: Hash)
    requires UsersFit(a)
    ensures var (a', created) := CreateUser(a, username, hash);
            && UsersFit(a') && a.users <= a'.users && a'.logins == a.logins
            && (created.Some? ==> created.value in a'.users && created.value.username == username && created.value.hash == hash)
  {
  }

  lemma SameUsersFit(a: AuthState, a': AuthState)
    requires UsersFit(a) && a'.users == a.users && a'.drawn == a.drawn
    ensures UsersFit(a')
  {
  }

  lemma CreateStep(a: AuthState, r: ReqId, salt: nat)
    requires UsersFit(a) && r in a.logins && a.logins[r].pc.Create?
    ensures var a' := Authenticate(a, r, salt);
            && UsersFit(a') && a.users <= a'.users && r in a'.logins && LoginFits(a'.users, a'.logins[r])
            && a'.logins == a.logins[r := a'.logins[r]]
  {
    hide UsersFit, CreateUser;
    var l := a.logins[r];
    CreateFits(a, l.username, Hash(l.password, salt));
    var (created, row) := CreateUser(a, l.username, Hash(l.password, salt));
    SameUsersFit(created, Authenticate(a, r, salt));
  }

  /** A step of a login leaves it in order, and leaves everyone else's alone. */
  lemma LoginStep(a: AuthState, r: ReqId, salt: nat)
    requires UsersFit(a) && r in a.logins && LoginFits(a.users, a.logins[r])
    ensures var a' := Authenticate(a, r, salt);
            && UsersFit(a') && a.users <= a'.users && r in a'.logins && LoginFits(a'.users, a'.logins[r])
            && a'.logins == a.logins[r := a'.logins[r]]
  {
    hide UsersFit, CreateUser, Find;
    if a.logins[r].pc.Create? {
      CreateStep(a, r, salt);
    } else {
      SameUsersFit(a, Authenticate(a, r, salt));
    }
  }

  lemma OneLoginChanges(a: AuthState, a': AuthState, r: ReqId)
    requires AuthInv(a) && UsersFit(a') && a.users <= a'.users
    requires r in a'.logins && LoginFits(a'.users, a'.logins[r]) && a'.logins == a.logins[r := a'.logins[r]]
    ensures AuthInv(a')
  {
    hide UsersFit, LoginFits;
    forall q | q in a'.logins
      ensures LoginFits(a'.users, a'.logins[q])
    {
      if q != r { MoreUsersFit(a.users, a'.users, a.logins[q]); }
    }
  }

  lemma NextKeepsAuth(a: AuthState, e: AuthEvent)
    requires AuthInv(a)
    ensures AuthInv(NextAuth(a, e)) && a.users <= NextAuth(a, e).users
  {
    var a' := NextAuth(a, e);
    if a' != a {
      hide Authenticate, CreateUser, UsersFit;
      match e {
        case Call(r, username, password) => SameUsersFit(a, a');
        case Proceed(r, salt) => LoginStep(a, r, salt);
        case Collapse(r) => SameUsersFit(a, a');
        case LoseCreated(r, salt) =>
          var l := a.logins[r];
          CreateFits(a, l.username, Hash(l.password, salt));
          SameUsersFit(CreateUser(a, l.username, Hash(l.password, salt)).0, a');
      }
      OneLoginChanges(a, a', e.r);
    }
  }

  lemma {:induction false} RunKeepsAuth(a: AuthState, events: seq<AuthEvent>)
    requires AuthInv(a)
    ensures AuthInv(ExecAuth(a, events)) && a.users <= ExecAuth(a, events).users
  {
    hide AuthInv, NextAuth;
    if events != [] {
      RunKeepsAuth(a, Front(events));
      NextKeepsAuth(ExecAuth(a, Front(events)), Last(events));
    }
  }

  ghost predicate AuthReachable(a: AuthState)
  {
    exists events :: a == ExecAuth(NO_USERS, events)
  }

  lemma AuthReachableInv(a: AuthState)
    requires AuthReachable(a)
    ensures AuthInv(a)
  {
    var events :| a == ExecAuth(NO_USERS, events);
    RunKeepsAuth(NO_USERS, events);
  }

  /** A row is the only one with its name, and the only one with its id. */
  lemma RowIsUnique(a: AuthState, row: UserRow)
    requires UsersFit(a) && row in a.users
    ensures Find(a.users, row.username) == Some(row)
    ensures forall other | other in a.users :: other.id == row.id ==> other == row
  {
    hide Find;
    var i :| 0 <= i < |a.users| && a.users[i] == row;
    forall other | other in a.users && (other.id == row.id || other.username == row.username)
      ensures other == row
    {
      var j :| 0 <= j < |a.users| && a.users[j] == other;
      assert i == j;
    }
  }

  /** A row, once inserted, is the row of its name for good: no run adds another or changes it. */
  lemma RegisteredForGood(a: AuthState, events: seq<AuthEvent>, row: UserRow)
    requires AuthReachable(a) && row in a.users
    ensures Find(ExecAuth(a, events).users, row.username) == Some(row)
    ensures forall other | other in ExecAuth(a, events).users :: other.id == row.id ==> other == row
  {
    AuthReachableInv(a);
    RunKeepsAuth(a, events);
    hide AuthReachable, ExecAuth, Find, UsersFit;
    RowIsUnique(ExecAuth(a, events), row);
  }

  /** Whoever holds a token knows the password stored for the name, and the token names that row's id. */
  lemma TokenNeedsPassword(a: AuthState, r: ReqId)
    requires AuthReachable(a) && r in a.logins && a.logins[r].pc.LoggedIn?
    ensures var l, found := a.logins[r], Find(a.users, a.logins[r].username);
            && found.Some? && VerifyPassword(l.password, found.value.hash)
            && TokenOf(l.pc.holder) == Token(found.value.id, l.username) && 1 <= found.value.id <= INT_MAX
  {
    AuthReachableInv(a);
    assert LoginFits(a.users, a.logins[r]);
    RowIsUnique(a, a.logins[r].pc.holder);
  }

  /** Tokens carry the same uid exactly if they carry the same name. */
  lemma TokensIdentify(a: AuthState, q: ReqId, r: ReqId)
    requires AuthReachable(a) && q in a.logins && r in a.logins && a.logins[q].pc.LoggedIn? && a.logins[r].pc.LoggedIn?
    ensures TokenOf(a.logins[q].pc.holder).uid == TokenOf(a.logins[r].pc.holder).uid <==> a.logins[q].username == a.logins[r].username
  {
    TokenNeedsPassword(a, q);
    TokenNeedsPassword(a, r);
    AuthReachableInv(a);
  }

  /** The insert of a first login succeeds exactly if the name is free and fits, and an id is left. */
  lemma InsertSucceedsIff(a: AuthState, r: ReqId, salt: nat)
    requires AuthReachable(a) && r in a.logins && a.logins[r].pc.Create?
    ensures var l := a.logins[r];
            NextAuth(a, Proceed(r, salt)).logins[r].pc.Issue? <==>
              a.drawn < 0x7fff_ffff && |l.username| <= 50 && forall row | row in a.users :: row.username != l.username
  {
  }

  /** A later login is refused exactly for a wrong password. */
  lemma LaterLoginSucceedsIff(a: AuthState, r: ReqId, salt: nat)
    requires AuthReachable(a) && r in a.logins && a.logins[r].pc.Verify?
    ensures var l, found := a.logins[r], Find(a.users, a.logins[r].username);
            && found.Some?
            && NextAuth(a, Proceed(r, salt)).logins[r].pc ==
                 if l.password == found.value.hash.password then Issue(found.value) else Mismatch
  {
    AuthReachableInv(a);
    assert LoginFits(a.users, a.logins[r]);
  }

  function RaceCalls(): seq<AuthEvent>
  {
    [Call(0, "ann", "pw"), Call(1, "ann", "pw"), Proceed(0, 7), Proceed(1, 8)]
  }

  function RaceInserts(): seq<AuthEvent>
  {
    [Proceed(0, 7), Proceed(1, 8), Proceed(0, 7)]
  }

  const RACE: AuthState :=
    AuthState([], 0, map[0 := Login("ann", "pw", Create), 1 := Login("ann", "pw", Create)])

  lemma AuthStep(a: AuthState, events: seq<AuthEvent>, e: AuthEvent)
    ensures ExecAuth(a, events + [e]) == NextAuth(ExecAuth(a, events), e)
  {
    assert Front(events + [e]) == events && Last(events + [e]) == e;
  }

  lemma {:induction false} ExecAuthConcat(a: AuthState, es: seq<AuthEvent>, fs: seq<AuthEvent>)
    ensures ExecAuth(a, es + fs) == ExecAuth(ExecAuth(a, es), fs)
  {
    if fs == [] {
      assert es + fs == es;
    } else {
      hide ExecAuth, NextAuth;
      var front, e := Front(fs), Last(fs);
      ExecAuthConcat(a, es, front);
      AuthStep(a, es + front, e);
      AuthStep(ExecAuth(a, es), front, e);
      assert es + fs == (es + front) + [e];
    }
  }

  lemma BothFindNoUser()
    ensures ExecAuth(NO_USERS, RaceCalls()) == RACE
  {
    var c := RaceCalls();
    AuthStep(NO_USERS, [], c[0]);
    AuthStep(NO_USERS, [c[0]], c[1]);
    AuthStep(NO_USERS, [c[0], c[1]], c[2]);
    AuthStep(NO_USERS, [c[0], c[1], c[2]], c[3]);
    assert [] + [c[0]] == [c[0]] && [c[0]] + [c[1]] == [c[0], c[1]] && [c[0], c[1]] + [c[2]] == [c[0], c[1], c[2]];
    assert [c[0], c[1], c[2]] + [c[3]] == c;
    hide ExecAuth;
    assert ExecAuth(NO_USERS, [c[0], c[1]])
        == AuthState([], 0, map[0 := Login("ann", "pw", LookUp), 1 := Login("ann", "pw", LookUp)]);
  }

  lemma OnlyOneInserts()
    ensures var a, row := ExecAuth(RACE, RaceInserts()), UserRow(1, "ann", Hash("pw", 7));
            a.logins == map[0 := Login("ann", "pw", LoggedIn(row)), 1 := Login("ann", "pw", Broken)]
  {
    var c, row := RaceInserts(), UserRow(1, "ann", Hash("pw", 7));
    AuthStep(RACE, [], c[0]);
    AuthStep(RACE, [c[0]], c[1]);
    AuthStep(RACE, [c[0], c[1]], c[2]);
    assert [] + [c[0]] == [c[0]] && [c[0]] + [c[1]] == [c[0], c[1]] && [c[0], c[1]] + [c[2]] == c;
    hide ExecAuth;
    assert ExecAuth(RACE, [c[0]])
        == AuthState([row], 1, map[0 := Login("ann", "pw", Issue(row)), 1 := Login("ann", "pw", Create)]);
  }

  /**
   "The right password always logs in" is false of the code: of two simultaneous first logins with the
   same name and password one ends in an internal error.
   */
  lemma RaceLoserFails() returns (events: seq<AuthEvent>)
    ensures forall e | e in events :: e.Call? || e.Proceed?
    ensures var a := ExecAuth(NO_USERS, events);
            && 0 in a.logins && 1 in a.logins && a.logins[0].pc.LoggedIn? && a.logins[1].pc.Broken?
            && a.logins[0].username == a.logins[1].username && a.logins[0].password == a.logins[1].password
  {
    hide NextAuth;
    events := RaceCalls() + RaceInserts();
    BothFindNoUser();
    OnlyOneInserts();
    ExecAuthConcat(NO_USERS, RaceCalls(), RaceInserts());
  }

  ghost predicate AuthLeads(a: AuthState, a': AuthState)
  {
    exists events :: a' == ExecAuth(a, events)
  }

  lemma AuthLeadsByNext(a: AuthState, a': AuthState, e: AuthEvent)
    requires AuthLeads(a, a')
    ensures AuthLeads(a, NextAuth(a', e))
  {
    hide NextAuth;
    var events :| a' == ExecAuth(a, events);
    AuthStep(a, events, e);
  }

  lemma AuthLeadsNowhere(a: AuthState)
    ensures AuthLeads(a, a)
  {
    assert a == ExecAuth(a, []);
  }

  lemma AuthLeadsOn(a: AuthState, a': AuthState, a'': AuthState)
    requires AuthLeads(a, a') && AuthLeads(a', a'')
    ensures AuthLeads(a, a'')
  {
    hide NextAuth;
    var es :| a' == ExecAuth(a, es);
    var fs :| a'' == ExecAuth(a', fs);
    ExecAuthConcat(a, es, fs);
  }

  lemma AuthReachableNext(a: AuthState, e: AuthEvent)
    requires AuthReachable(a)
    ensures AuthReachable(NextAuth(a, e))
  {
    hide NextAuth;
    var events :| a == ExecAuth(NO_USERS, events);
    AuthStep(NO_USERS, events, e);
  }
}
