/** The auth service as a program: Authenticate and its repository, amid any other calls. */
module AuthServer {
  import opened Ledger
  import opened StoreSystem
  import opened AuthSystem
  import opened FirstLogins

  datatype Answer = Granted(token: Token) | CredentialsMismatch | InternalError

  /** How the insert ends: as it should, with an error and no effect, or with a row and yet an error. */
  datatype Fault = Fine | Failing | Unheard

  /** Which statements of a call fail. */
  datatype Faults = Faults(lookUp: bool, create: Fault, verify: bool, issue: bool)

  const NO_FAULTS := Faults(false, Fine, false, false)

  class Auth {
    var users: seq<UserRow>
    var drawn: nat
    var logins: map<ReqId, Login>

    function State(): AuthState
      reads this
    {
      AuthState(users, drawn, logins)
    }

    ghost predicate Valid()
      reads this
    {
      AuthReachable(State())
    }

    constructor ()
      ensures Valid() && State() == NO_USERS
    {
      users, drawn, logins := [], 0, map[];
      new;
      assert State() == ExecAuth(NO_USERS, []);
    }

    /** Anything that calls other than r may do in the meantime. */
    method Others(r: ReqId) returns (ghost done: seq<AuthEvent>)
      requires Valid() && r in logins
      modifies this
      ensures Valid() && (forall e | e in done :: e.r != r) && State() == ExecAuth(old(State()), done)
      ensures r in logins && logins[r] == old(logins[r])
    {
      hide AuthReachable, ExecAuth, AuthSystem.Authenticate;
      var events: seq<AuthEvent> := *;
      done := [];
      assert ExecAuth(State(), []) == State() by { NothingDone(State()); }
      for i := 0 to |events|
        invariant Valid() && (forall e | e in done :: e.r != r) && State() == ExecAuth(old(State()), done)
        invariant r in logins && logins[r] == old(logins[r])
      {
        if events[i].r != r {
          AuthReachableNext(State(), events[i]);
          StepGrows(State(), events[i]);
          AuthStep(old(State()), done, events[i]);
          var a := NextAuth(State(), events[i]);
          users, drawn, logins := a.users, a.drawn, a.logins;
          done := done + [events[i]];
        }
      }
    }

    /** What has been done since a is one event. */
    lemma Made(a: AuthState, e: AuthEvent)
      requires AuthReachable(a) && State() == NextAuth(a, e)
      ensures Valid()
    {
      AuthReachableNext(a, e);
    }

    method Goto(r: ReqId, pc: LoginPc)
      requires r in logins
      modifies this`logins
      ensures State() == SetPc(old(State()), r, pc)
    {
      logins := logins[r := logins[r].(pc := pc)];
    }

    method Collapse(r: ReqId)
      requires Valid() && r in logins && !logins[r].pc.LoggedIn? && !logins[r].pc.Mismatch?
      modifies this
      ensures Valid() && State() == NextAuth(old(State()), AuthEvent.Collapse(r))
      ensures users == old(users) && r in logins && logins[r] == old(logins[r]).(pc := Broken)
    {
      ghost var a := State();
      Goto(r, Broken);
      Made(a, AuthEvent.Collapse(r));
    }

    /** internal/auth/infrastructure/postgres/users.go: TryGetUserInfo. */
    method TryGetUserInfo(r: ReqId, username: string, fails: bool, ghost salt: nat) returns (userInfo: Option<UserRow>, ok: bool)
      requires Valid() && r in logins && logins[r].pc.LookUp? && logins[r].username == username
      modifies this
      ensures Valid() && r in logins && ok == !fails
      ensures State() == NextAuth(old(State()), if fails then AuthEvent.Collapse(r) else Proceed(r, salt))
      ensures logins[r] == old(logins[r]).(pc := if !ok then Broken
                                                 else if userInfo.Some? then Verify(userInfo.value) else Create)
      ensures users == old(users) && (ok ==> userInfo == Find(users, username))
    {
      hide AuthReachable, Find;
      ghost var a := State();
      ok := !fails;
      userInfo := Find(users, username);
      if !ok {
        Collapse(r);
        return;
      }
      Goto(r, if userInfo.Some? then Verify(userInfo.value) else Create);
      Made(a, Proceed(r, salt));
    }

    /** internal/auth/infrastructure/postgres/users.go: CreateUser, after the password has been hashed. */
    method CreateUser(r: ReqId, username: string, hashedPassword: Hash, fault: Fault) returns (userInfo: Option<UserRow>)
      requires Valid() && r in logins && logins[r].pc.Create? && logins[r].username == username
      requires hashedPassword.password == logins[r].password
      modifies this
      ensures Valid() && r in logins
      ensures State() == NextAuth(old(State()), match fault
                                                case Fine => Proceed(r, hashedPassword.salt)
                                                case Failing => AuthEvent.Collapse(r)
                                                case Unheard => LoseCreated(r, hashedPassword.salt))
      ensures logins[r] == old(logins[r]).(pc := if userInfo.Some? then Issue(userInfo.value) else Broken)
      ensures userInfo.Some? <==>
                && fault.Fine? && |username| <= 50 && old(drawn) < 0x7fff_ffff
                && forall row | row in old(users) :: row.username != username
      ensures userInfo.Some? ==>
                && users == old(users) + [userInfo.value]
                && userInfo.value.username == username && userInfo.value.hash == hashedPassword
      ensures Find(old(users), username).Some? ==> users == old(users)
      ensures old(users) <= users
    {
      hide AuthReachable, Find;
      FindIff(users, username);
      ghost var a := State();
      if fault.Failing? {
        Collapse(r);
        return None;
      }
      userInfo := None;
      if drawn < INT_MAX {
        drawn := drawn + 1;
        if |username| <= MAX_NAME && Find(users, username).None? {
          var row := UserRow(drawn, username, hashedPassword);
          users := users + [row];
          userInfo := Some(row);
        }
      }
      if fault.Unheard? {
        userInfo := None;
      }
      Goto(r, if userInfo.Some? then Issue(userInfo.value) else Broken);
      Made(a, if fault.Unheard? then LoseCreated(r, hashedPassword.salt) else Proceed(r, hashedPassword.salt));
    }

    /** internal/auth/application/auth_case.go: the password of a known user is compared. */
    method VerifyUser(r: ReqId, userInfo: UserRow, password: string, fails: bool, ghost salt: nat) returns (valid: bool, ok: bool)
      requires Valid() && r in logins && logins[r].pc == Verify(userInfo) && logins[r].password == password
      modifies this
      ensures Valid() && r in logins && ok == !fails && users == old(users)
      ensures State() == NextAuth(old(State()), if fails then AuthEvent.Collapse(r) else Proceed(r, salt))
      ensures valid <==> password == userInfo.hash.password
      ensures logins[r] == old(logins[r]).(pc := if !ok then Broken else if valid then Issue(userInfo) else Mismatch)
    {
      hide AuthReachable;
      ghost var a := State();
      ok := !fails;
      valid := VerifyPassword(password, userInfo.hash);
      if !ok {
        Collapse(r);
        return;
      }
      Goto(r, if valid then Issue(userInfo) else Mismatch);
      Made(a, Proceed(r, salt));
    }

    /** internal/auth/application/auth_case.go: the two branches of Authenticate, by what the lookup has found. */
    method CreateOrVerify(r: ReqId, userInfo: Option<UserRow>, username: string, password: string, salt: nat, faults: Faults)
        returns (user: Option<UserRow>, mismatch: bool)
      requires Valid() && r in logins && logins[r].username == username && logins[r].password == password
      requires logins[r].pc == if userInfo.None? then Create else Verify(userInfo.value)
      modifies this
      ensures Valid() && AuthLeads(old(State()), State()) && old(users) <= users && r in logins
      ensures logins[r] == old(logins[r]).(pc := if user.Some? then Issue(user.value) else if mismatch then Mismatch else Broken)
      ensures mismatch ==> user.None? && userInfo.Some? && password != userInfo.value.hash.password
      ensures faults.create.Fine? && !faults.verify ==> State() == NextAuth(old(State()), Proceed(r, salt))
    {
      hide AuthReachable, AuthLeads, Find, NextAuth;
      mismatch := false;
      if userInfo.None? {
        user := CreateUser(r, username, Hash(password, salt), faults.create);
      } else {
        var valid, ok := VerifyUser(r, userInfo.value, password, faults.verify, salt);
        user := if ok && valid then userInfo else None;
        mismatch := ok && !valid;
      }
      AuthLeadsNowhere(old(State()));
      AuthLeadsByNext(old(State()), old(State()),
                      if userInfo.Some? then (if faults.verify then AuthEvent.Collapse(r) else Proceed(r, salt))
                      else match faults.create
                           case Fine => Proceed(r, salt)
                           case Failing => AuthEvent.Collapse(r)
                           case Unheard => LoseCreated(r, salt));
    }

    /** internal/auth/application/auth_case.go: the token for a user that was created or verified. */
    method IssueToken(r: ReqId, userInfo: UserRow, fails: bool, ghost salt: nat) returns (answer: Answer)
      requires Valid() && r in logins && logins[r].pc == Issue(userInfo)
      modifies this
      ensures Valid() && r in logins && users == old(users)
      ensures State() == NextAuth(old(State()), if fails then AuthEvent.Collapse(r) else Proceed(r, salt))
      ensures logins[r] == old(logins[r]).(pc := if fails then Broken else LoggedIn(userInfo))
      ensures answer == if fails then InternalError else Granted(Token(userInfo.id, userInfo.username))
      ensures answer.Granted? ==>
                var found := Find(users, logins[r].username);
                found == Some(userInfo) && found.value.hash.password == logins[r].password
    {
      hide AuthReachable, Find;
      ghost var a := State();
      if fails {
        Collapse(r);
        answer := InternalError;
      } else {
        Goto(r, LoggedIn(userInfo));
        Made(a, Proceed(r, salt));
        answer := Granted(TokenOf(userInfo));
        HolderIsFound(State(), r);
      }
    }

    /**
     internal/auth/application/auth_case.go: Authenticate. `faults` are the failures of the call's own
     statements; `course` is what all others have done between them, if none of its own has failed.
     */
    method Authenticate(r: ReqId, username: string, password: string, salt: nat, faults: Faults)
        returns (answer: Answer, ghost course: Course)
      requires Valid() && r !in logins
      modifies this
      ensures Valid() && AuthLeads(old(State()), State()) && old(users) <= users
      // The answer and the end of the login.
      ensures && r in logins
              && (answer.Granted? <==> logins[r].pc.LoggedIn?)
              && (answer.CredentialsMismatch? <==> logins[r].pc.Mismatch?)
              && (answer.InternalError? <==> logins[r].pc.Broken?)
      // A token goes to whoever knows the stored password, and names the row that is there for good.
      ensures answer.Granted? ==>
                && var found := Find(users, username);
                && found.Some? && found.value.hash.password == password
                && answer.token == Token(found.value.id, username)
      // A known user with the right password is never told that the credentials do not match.
      ensures answer.CredentialsMismatch? ==>
                var found := Find(users, username); found.Some? && found.value.hash.password != password
      // If no statement fails: for a known user the password decides; otherwise the name must fit, an id must be
      // left, and no other first login with the name may get to its insert in between.
      ensures faults == NO_FAULTS ==>
                && course == Course(r, username, password, salt, course.early, course.mid, course.late) && OthersOnly(course)
                && State() == ExecAuth(old(State()), EventsOf(course))
                && var found := Find(AtLookUp(old(State()), course).users, username);
                && (answer.Granted? <==>
                      match found
                      case Some(row) => row.hash.password == password
                      case None => |username| <= 50 && AtInsert(old(State()), course).drawn < 0x7fff_ffff
                                   && NoRival(AfterLookUp(old(State()), course), course.mid, username))
                && (answer.CredentialsMismatch? <==> found.Some? && found.value.hash.password != password)
    {
      hide AuthReachable, AuthLeads, ExecAuth, AuthInv, Find, NextAuth, NoRival;
      ghost var a0 := State();
      course := Course(r, username, password, salt, [], [], []);
      Register(r, username, password);
      ghost var called := State();
      ghost var early := Others(r);
      ghost var atLookUp := State();
      LeadsOn(a0, Call(r, username, password), called, early, atLookUp);
      var userInfo, ok := TryGetUserInfo(r, username, faults.lookUp, salt);
      answer := InternalError;
      if !ok {
        AuthLeadsByNext(a0, atLookUp, AuthEvent.Collapse(r));
        return;
      }
      ghost var afterLookUp := State();
      ghost var mid := Others(r);
      ghost var atInsert := State();
      LeadsOn(atLookUp, Proceed(r, salt), afterLookUp, mid, atInsert);
      AuthLeadsOn(a0, atLookUp, atInsert);
      course := course.(early := early, mid := mid);
      var user, mismatch := CreateOrVerify(r, userInfo, username, password, salt, faults);
      ghost var decided := State();
      AuthLeadsOn(a0, atInsert, decided);
      if user.Some? {
        ghost var late := Others(r);
        course := course.(late := late);
        LeadsByEvents(decided, late);
        AuthLeadsOn(a0, decided, State());
        ghost var atIssue := State();
        answer := IssueToken(r, user.value, faults.issue, salt);
        AuthLeadsByNext(a0, atIssue, if faults.issue then AuthEvent.Collapse(r) else Proceed(r, salt));
      } else {
        if mismatch {
          answer := CredentialsMismatch;
          RowStays(atLookUp, State(), userInfo.value);
        }
        NothingDone(decided);
        EndedStays(decided, r, salt);
      }
      if faults == NO_FAULTS {
        assert AtInsert(a0, course) == atInsert;
        assert AtEnd(a0, course) == State();
        EndOfEvents(a0, course);
        FirstLoginSucceedsIff(a0, course);
      }
    }

    /** An event, and then what others do: nobody is lost. */
    lemma LeadsOn(a: AuthState, e: AuthEvent, a1: AuthState, events: seq<AuthEvent>, a2: AuthState)
      requires AuthReachable(a) && a1 == NextAuth(a, e) && AuthReachable(a1) && a2 == ExecAuth(a1, events)
      ensures AuthLeads(a, a2) && a.users <= a2.users
    {
      hide AuthReachable, ExecAuth, NextAuth;
      AuthLeadsNowhere(a);
      AuthLeadsByNext(a, a, e);
      LeadsByEvents(a1, events);
      AuthLeadsOn(a, a1, a2);
      StepGrows(a, e);
    }

    lemma LeadsByEvents(a: AuthState, events: seq<AuthEvent>)
      requires AuthReachable(a)
      ensures AuthLeads(a, ExecAuth(a, events)) && a.users <= ExecAuth(a, events).users
    {
      hide ExecAuth, AuthReachable;
      AuthReachableInv(a);
      RunKeepsAuth(a, events);
    }

    method Register(r: ReqId, username: string, password: string)
      requires Valid() && r !in logins
      modifies this
      ensures Valid() && State() == NextAuth(old(State()), Call(r, username, password))
      ensures users == old(users) && r in logins && logins[r] == Login(username, password, LookUp)
    {
      hide AuthReachable;
      ghost var a := State();
      logins := logins[r := Login(username, password, LookUp)];
      Made(a, Call(r, username, password));
    }

    lemma EndedStays(a: AuthState, r: ReqId, salt: nat)
      requires r in a.logins && (a.logins[r].pc.Broken? || a.logins[r].pc.Mismatch?)
      ensures NextAuth(a, Proceed(r, salt)) == a
    {
    }

    lemma HolderIsFound(a: AuthState, r: ReqId)
      requires AuthReachable(a) && r in a.logins && a.logins[r].pc.LoggedIn?
      ensures Find(a.users, a.logins[r].username) == Some(a.logins[r].pc.holder)
      ensures a.logins[r].pc.holder.hash.password == a.logins[r].password
    {
      hide AuthReachable;
      AuthReachableInv(a);
      assert LoginFits(a.users, a.logins[r]);
      RowIsUnique(a, a.logins[r].pc.holder);
    }

    /** A row that has been read is still the row of its name. */
    lemma RowStays(before: AuthState, a: AuthState, row: UserRow)
      requires AuthReachable(a) && before.users <= a.users && Find(before.users, row.username) == Some(row)
      ensures Find(a.users, row.username) == Some(row)
    {
      hide AuthReachable;
      AuthReachableInv(a);
      assert row in before.users && row in a.users;
      RowIsUnique(a, row);
    }
  }
}
