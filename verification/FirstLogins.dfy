/** When a call of Authenticate succeeds, over whole calls amid any other calls, and why one fails. */
module FirstLogins {
  import opened Ledger
  import opened StoreSystem
  import opened AuthSystem

  // ---- Other calls ----

  lemma StepGrows(a: AuthState, e: AuthEvent)
    ensures a.users <= NextAuth(a, e).users && a.drawn <= NextAuth(a, e).drawn
    ensures forall q | q in a.logins && q != e.r :: q in NextAuth(a, e).logins && NextAuth(a, e).logins[q] == a.logins[q]
  {
  }

  lemma {:induction false} OthersStay(a: AuthState, events: seq<AuthEvent>, r: ReqId)
    requires r in a.logins && forall e | e in events :: e.r != r
    ensures r in ExecAuth(a, events).logins && ExecAuth(a, events).logins[r] == a.logins[r]
  {
    hide NextAuth;
    if events != [] {
      assert forall e | e in Front(events) :: e in events;
      assert events[|events| - 1] in events;
      OthersStay(a, Front(events), r);
      StepGrows(ExecAuth(a, Front(events)), Last(events));
    }
  }

  lemma FindIff(users: seq<UserRow>, username: string)
    ensures Find(users, username).Some? <==> exists row :: row in users && row.username == username
  {
  }

  lemma FoundStays(users: seq<UserRow>, users': seq<UserRow>, username: string)
    requires users <= users' && Find(users, username).Some?
    ensures Find(users', username).Some?
  {
    hide Find;
    FindIff(users, username);
    FindIff(users', username);
    assert forall row | row in users :: row in users';
  }

  // ---- When the name is still free ----

  /** The event carries out the insert of a login that has found no user of this name. */
  predicate Inserts(a: AuthState, e: AuthEvent, username: string)
  {
    (e.Proceed? || e.LoseCreated?) && e.r in a.logins && a.logins[e.r].pc.Create? && a.logins[e.r].username == username
  }

  /** Nobody who has found no user of this name gets to his insert. */
  ghost predicate NoRival(a: AuthState, events: seq<AuthEvent>, username: string)
  {
    forall k | 0 <= k < |events| :: !Inserts(ExecAuth(a, events[..k]), events[k], username)
  }

  lemma OneRowMore(users: seq<UserRow>, row: UserRow, username: string)
    requires Find(users, username).None?
    ensures Find(users + [row], username).None? <==> row.username != username
  {
    assert Front(users + [row]) == users && Last(users + [row]) == row;
  }

  lemma StepTakesName(a: AuthState, e: AuthEvent, username: string)
    requires Find(a.users, username).None? && |username| <= MAX_NAME && a.drawn < INT_MAX
    ensures Find(NextAuth(a, e).users, username).None? <==> !Inserts(a, e, username)
  {
    hide Find;
    if (e.Proceed? || e.LoseCreated?) && e.r in a.logins && a.logins[e.r].pc.Create? {
      var l := a.logins[e.r];
      OneRowMore(a.users, UserRow(a.drawn + 1, l.username, Hash(l.password, e.salt)), username);
    }
  }

  lemma NoRivalFront(a: AuthState, events: seq<AuthEvent>, username: string)
    requires events != []
    ensures NoRival(a, events, username)
       <==> NoRival(a, Front(events), username) && !Inserts(ExecAuth(a, Front(events)), Last(events), username)
  {
    hide ExecAuth, Inserts;
    var n := |events| - 1;
    assert events[..n] == Front(events);
    forall k | 0 <= k < n
      ensures events[..k] == Front(events)[..k] && events[k] == Front(events)[k]
    {
    }
    if NoRival(a, events, username) {
      assert !Inserts(ExecAuth(a, events[..n]), events[n], username);
    }
  }

  /** While ids are left, a name that fits stays free exactly as long as nobody with this name gets to his insert. */
  lemma {:induction false} FreeIffNoRival(a: AuthState, events: seq<AuthEvent>, username: string)
    requires Find(a.users, username).None? && |username| <= MAX_NAME && ExecAuth(a, events).drawn < INT_MAX
    ensures Find(ExecAuth(a, events).users, username).None? <==> NoRival(a, events, username)
  {
    hide NextAuth, Find, NoRival, Inserts;
    if events == [] {
      assert NoRival(a, [], username) by { NoRivalAtFirst(a, username); }
    } else {
      var before, e := ExecAuth(a, Front(events)), Last(events);
      StepGrows(before, e);
      FreeIffNoRival(a, Front(events), username);
      NoRivalFront(a, events, username);
      if Find(before.users, username).None? {
        StepTakesName(before, e, username);
      } else {
        FoundStays(before.users, NextAuth(before, e).users, username);
      }
    }
  }

  lemma NoRivalAtFirst(a: AuthState, username: string)
    ensures NoRival(a, [], username)
  {
  }

  // ---- Whole calls ----

  /** A call and its three steps, with whatever others do in between. */
  datatype Course = Course(r: ReqId, username: string, password: string, salt: nat,
                           early: seq<AuthEvent>, mid: seq<AuthEvent>, late: seq<AuthEvent>)

  ghost predicate OthersOnly(c: Course)
  {
    && (forall e | e in c.early :: e.r != c.r) && (forall e | e in c.mid :: e.r != c.r) && (forall e | e in c.late :: e.r != c.r)
  }

  /** The events of the call, its own steps not failing. */
  function EventsOf(c: Course): seq<AuthEvent>
  {
    [Call(c.r, c.username, c.password)] + c.early + [Proceed(c.r, c.salt)] + c.mid + [Proceed(c.r, c.salt)] + c.late
    + [Proceed(c.r, c.salt)]
  }

  function AtLookUp(a: AuthState, c: Course): AuthState
  {
    ExecAuth(NextAuth(a, Call(c.r, c.username, c.password)), c.early)
  }

  function AfterLookUp(a: AuthState, c: Course): AuthState
  {
    NextAuth(AtLookUp(a, c), Proceed(c.r, c.salt))
  }

  /** Where a first login inserts, and a later one compares. */
  function AtInsert(a: AuthState, c: Course): AuthState
  {
    ExecAuth(AfterLookUp(a, c), c.mid)
  }

  function AtIssue(a: AuthState, c: Course): AuthState
  {
    ExecAuth(NextAuth(AtInsert(a, c), Proceed(c.r, c.salt)), c.late)
  }

  function AtEnd(a: AuthState, c: Course): AuthState
  {
    NextAuth(AtIssue(a, c), Proceed(c.r, c.salt))
  }

  lemma EndOfEvents(a: AuthState, c: Course)
    ensures AtEnd(a, c) == ExecAuth(a, EventsOf(c))
  {
    hide ExecAuth, NextAuth;
    var first, step := [Call(c.r, c.username, c.password)], Proceed(c.r, c.salt);
    var upToLookUp := first + c.early;
    var upToInsert := upToLookUp + [step] + c.mid;
    var upToIssue := upToInsert + [step] + c.late;
    AuthStep(a, [], first[0]);
    assert [] + [first[0]] == first && ExecAuth(a, []) == a by { NothingDone(a); }
    ExecAuthConcat(a, first, c.early);
    AuthStep(a, upToLookUp, step);
    ExecAuthConcat(a, upToLookUp + [step], c.mid);
    AuthStep(a, upToInsert, step);
    ExecAuthConcat(a, upToInsert + [step], c.late);
    AuthStep(a, upToIssue, step);
  }

  lemma NothingDone(a: AuthState)
    ensures ExecAuth(a, []) == a
  {
  }

  /** Up to its second step the call is where its lookup has put it. */
  lemma LookedUp(a: AuthState, c: Course)
    requires c.r !in a.logins && OthersOnly(c)
    ensures c.r in AtInsert(a, c).logins
    ensures AtInsert(a, c).logins[c.r] == Login(c.username, c.password,
              match Find(AtLookUp(a, c).users, c.username)
              case None => Create
              case Some(row) => Verify(row))
    ensures AfterLookUp(a, c).users == AtLookUp(a, c).users
  {
    hide ExecAuth, Find;
    OthersStay(NextAuth(a, Call(c.r, c.username, c.password)), c.early, c.r);
    OthersStay(AfterLookUp(a, c), c.mid, c.r);
  }

  lemma Ended(a: AuthState, c: Course)
    requires c.r in AtInsert(a, c).logins && OthersOnly(c)
    ensures c.r in AtEnd(a, c).logins
    ensures var pc := NextAuth(AtInsert(a, c), Proceed(c.r, c.salt)).logins[c.r].pc;
            AtEnd(a, c).logins[c.r].pc ==
              if pc.Issue? then LoggedIn(pc.user) else NextAuth(AtIssue(a, c), Proceed(c.r, c.salt)).logins[c.r].pc
    ensures var pc := NextAuth(AtInsert(a, c), Proceed(c.r, c.salt)).logins[c.r].pc;
            pc.Broken? || pc.Mismatch? ==> AtEnd(a, c).logins[c.r].pc == pc
  {
    hide ExecAuth, Find, CreateUser, AtInsert;
    OthersStay(NextAuth(AtInsert(a, c), Proceed(c.r, c.salt)), c.late, c.r);
  }

  /**
   The exact outcome of a whole call whose own statements do not fail, amid any other calls, whether these
   fail or not. If its lookup finds a user, the password decides. If it finds none, it succeeds exactly if
   the name fits, an id is left, and no other first login with the name gets to its insert in between.
   */
  lemma FirstLoginSucceedsIff(a: AuthState, c: Course)
    requires c.r !in a.logins && OthersOnly(c)
    ensures var end, found := ExecAuth(a, EventsOf(c)), Find(AtLookUp(a, c).users, c.username);
            && c.r in end.logins
            && (end.logins[c.r].pc.LoggedIn? <==>
                  match found
                  case Some(row) => row.hash.password == c.password
                  case None =>
                    |c.username| <= 50 && AtInsert(a, c).drawn < 0x7fff_ffff && NoRival(AfterLookUp(a, c), c.mid, c.username))
            && (!end.logins[c.r].pc.LoggedIn? ==> end.logins[c.r].pc == if found.Some? then Mismatch else Broken)
  {
    EndOfEvents(a, c);
    LookedUp(a, c);
    Ended(a, c);
    SecondStep(AtInsert(a, c), c.r, c.salt);
    hide ExecAuth, Find, CreateUser, AtInsert, NoRival;
    if Find(AtLookUp(a, c).users, c.username).None? && |c.username| <= MAX_NAME && AtInsert(a, c).drawn < INT_MAX {
      FreeUpToInsert(a, c);
    }
  }

  lemma FreeUpToInsert(a: AuthState, c: Course)
    requires Find(AfterLookUp(a, c).users, c.username).None? && |c.username| <= MAX_NAME && AtInsert(a, c).drawn < INT_MAX
    ensures Find(AtInsert(a, c).users, c.username).None? <==> NoRival(AfterLookUp(a, c), c.mid, c.username)
  {
    hide Find, NoRival, AfterLookUp;
    FreeIffNoRival(AfterLookUp(a, c), c.mid, c.username);
  }

  lemma SecondStep(a: AuthState, r: ReqId, salt: nat)
    requires r in a.logins && (a.logins[r].pc.Create? || a.logins[r].pc.Verify?)
    ensures var l, pc := a.logins[r], NextAuth(a, Proceed(r, salt)).logins[r].pc;
            && (l.pc.Verify? ==> pc == if l.pc.found.hash.password == l.password then Issue(l.pc.found) else Mismatch)
            && (l.pc.Create? ==> pc.Issue? || pc.Broken?)
            && (l.pc.Create? ==>
                  (pc.Issue? <==> |l.username| <= MAX_NAME && a.drawn < INT_MAX && Find(a.users, l.username).None?))
  {
    hide Find;
  }

  // ---- Why a login fails ----

  /** The login has inserted the row, or verified its password against it. */
  predicate Owns(l: Login, row: UserRow)
  {
    l.username == row.username && (l.pc == Issue(row) || l.pc == LoggedIn(row))
  }

  /** The name does not fit, no id is left, or the name is taken. */
  predicate Thwarted(a: AuthState, username: string)
  {
    |username| > MAX_NAME || a.drawn == INT_MAX || Find(a.users, username).Some?
  }

  ghost predicate Explained(a: AuthState)
  {
    && AuthInv(a)
    && (forall r | r in a.logins && a.logins[r].pc.Broken? :: Thwarted(a, a.logins[r].username))
  }

  lemma StaysThwarted(a: AuthState, a': AuthState, username: string)
    requires Thwarted(a, username) && a.users <= a'.users && a.drawn <= a'.drawn <= INT_MAX
    ensures Thwarted(a', username)
  {
    hide Find;
    if Find(a.users, username).Some? { FoundStays(a.users, a'.users, username); }
  }

  /** A step of a login keeps what it owns, owns what it inserts, and fails only for one of the reasons. */
  lemma StepExplained(a: AuthState, r: ReqId, salt: nat)
    requires AuthInv(a) && r in a.logins
    ensures var a' := NextAuth(a, Proceed(r, salt));
            && r in a'.logins
            && (forall row :: Owns(a.logins[r], row) ==> Owns(a'.logins[r], row))
            && (forall row | row in a'.users && row !in a.users ::
                  Owns(a'.logins[r], row) && Inserts(a, Proceed(r, salt), row.username))
            && (a'.logins[r].pc.Broken? ==> Thwarted(a', a'.logins[r].username) || a.logins[r].pc.Broken?)
  {
    hide Find;
    var l := a.logins[r];
    if l.pc.Create? {
      assert forall row | row in a.users + [UserRow(a.drawn + 1, l.username, Hash(l.password, salt))] ::
          row in a.users || row == UserRow(a.drawn + 1, l.username, Hash(l.password, salt));
    }
  }

  lemma ReasonsStay(a: AuthState, a': AuthState, r: ReqId)
    requires forall q | q in a.logins && a.logins[q].pc.Broken? :: Thwarted(a, a.logins[q].username)
    requires a'.logins.Keys <= a.logins.Keys + {r}
    requires forall q | q in a.logins && q != r :: q in a'.logins && a'.logins[q] == a.logins[q]
    requires a.users <= a'.users && a.drawn <= a'.drawn <= INT_MAX
    requires r in a'.logins && a'.logins[r].pc.Broken? ==>
               || Thwarted(a', a'.logins[r].username)
               || (r in a.logins && a.logins[r].pc.Broken? && a'.logins[r].username == a.logins[r].username)
    ensures forall q | q in a'.logins && a'.logins[q].pc.Broken? :: Thwarted(a', a'.logins[q].username)
  {
    hide Thwarted;
    forall q | q in a'.logins && a'.logins[q].pc.Broken?
      ensures Thwarted(a', a'.logins[q].username)
    {
      if q in a.logins && a.logins[q].pc.Broken? && a'.logins[q].username == a.logins[q].username {
        StaysThwarted(a, a', a.logins[q].username);
      }
    }
  }

  lemma LoginsOnlyOne(a: AuthState, e: AuthEvent)
    ensures NextAuth(a, e).logins.Keys <= a.logins.Keys + {e.r}
    ensures e.r in a.logins ==> NextAuth(a, e).logins[e.r].username == a.logins[e.r].username
  {
  }

  lemma NextExplained(a: AuthState, e: AuthEvent)
    requires Explained(a) && (e.Call? || e.Proceed?)
    ensures Explained(NextAuth(a, e))
  {
    hide AuthInv, Owns, Thwarted, NextAuth;
    var a' := NextAuth(a, e);
    NextKeepsAuth(a, e);
    DrawnFits(a');
    StepGrows(a, e);
    LoginsOnlyOne(a, e);
    if e.r in a.logins && e.Proceed? {
      StepExplained(a, e.r, e.salt);
      ReasonsStay(a, a', e.r);
    } else if e.r !in a.logins && e.Call? {
      NewCall(a, e);
      ReasonsStay(a, a', e.r);
    } else {
      IdleStep(a, e);
    }
  }

  lemma DrawnFits(a: AuthState)
    requires AuthInv(a)
    ensures a.drawn <= INT_MAX
  {
  }

  lemma NewCall(a: AuthState, e: AuthEvent)
    requires e.Call? && e.r !in a.logins
    ensures var a' := NextAuth(a, e); e.r in a'.logins && !a'.logins[e.r].pc.Broken? && a'.users == a.users
  {
  }

  lemma IdleStep(a: AuthState, e: AuthEvent)
    requires (e.Call? && e.r in a.logins) || (e.Proceed? && e.r !in a.logins)
    ensures NextAuth(a, e) == a
  {
  }

  lemma {:induction false} RunExplained(events: seq<AuthEvent>)
    requires forall e | e in events :: e.Call? || e.Proceed?
    ensures Explained(ExecAuth(NO_USERS, events))
  {
    hide NextAuth, Explained;
    if events == [] {
      assert Explained(NO_USERS) by { NobodyExplained(); }
    } else {
      assert forall e | e in Front(events) :: e in events;
      assert events[|events| - 1] in events;
      RunExplained(Front(events));
      NextExplained(ExecAuth(NO_USERS, Front(events)), Last(events));
    }
  }

  lemma NobodyExplained()
    ensures Explained(NO_USERS)
  {
  }

  lemma CallAddsNobody(a: AuthState, e: AuthEvent, r: ReqId)
    requires e.Call? && r in a.logins
    ensures NextAuth(a, e).users == a.users && r in NextAuth(a, e).logins && NextAuth(a, e).logins[r] == a.logins[r]
    ensures e.r in NextAuth(a, e).logins
  {
  }

  lemma NothingAdded(a: AuthState, e: AuthEvent)
    requires e.Call? || e.r !in a.logins
    ensures NextAuth(a, e).users == a.users
  {
  }

  lemma OwnerStays(a: AuthState, e: AuthEvent, q: ReqId, row: UserRow)
    requires AuthInv(a) && (e.Call? || e.Proceed?) && q in a.logins && Owns(a.logins[q], row)
    ensures q in NextAuth(a, e).logins && Owns(NextAuth(a, e).logins[q], row)
  {
    hide AuthInv, Owns, NextAuth;
    if e.r != q {
      StepGrows(a, e);
    } else if e.Proceed? {
      StepExplained(a, e.r, e.salt);
    } else {
      CallAddsNobody(a, e, q);
    }
  }

  /** Every row has been inserted by some event of the run, and the login that did it still owns it. */
  lemma {:induction false} InsertedBySomeone(events: seq<AuthEvent>, row: UserRow) returns (k: nat)
    requires forall e | e in events :: e.Call? || e.Proceed?
    requires row in ExecAuth(NO_USERS, events).users
    ensures k < |events| && Inserts(ExecAuth(NO_USERS, events[..k]), events[k], row.username)
    ensures var a := ExecAuth(NO_USERS, events);
            events[k].r in a.logins && Owns(a.logins[events[k].r], row)
  {
    hide NextAuth, Inserts, Owns, Explained, AuthInv;
    var n := |events| - 1;
    assert forall e | e in Front(events) :: e in events;
    assert events[n] in events;
    var before, e := ExecAuth(NO_USERS, Front(events)), Last(events);
    assert events[..n] == Front(events);
    assert AuthInv(before) by { AuthReachableInv(before); }
    if row in before.users {
      k := InsertedBySomeone(Front(events), row);
      assert Front(events)[..k] == events[..k];
      OwnerStays(before, e, Front(events)[k].r, row);
    } else {
      k := n;
      if e.Call? || e.r !in before.logins { NothingAdded(before, e); } else { StepExplained(before, e.r, e.salt); }
    }
  }

  lemma BrokenOwnsNothing(l: Login, row: UserRow)
    requires l.pc.Broken?
    ensures !Owns(l, row)
  {
  }

  /**
   In a run without failures of the database, whoever gets an internal error has a name that does not fit,
   has come when no id was left, or has a name that another first login has inserted.
   */
  lemma BrokenHasCause(events: seq<AuthEvent>, r: ReqId)
    requires forall e | e in events :: e.Call? || e.Proceed?
    requires var a := ExecAuth(NO_USERS, events); r in a.logins && a.logins[r].pc.Broken?
    ensures var a := ExecAuth(NO_USERS, events);
            || |a.logins[r].username| > 50
            || a.drawn == 0x7fff_ffff
            || exists k :: 0 <= k < |events| && events[k].r != r
                           && Inserts(ExecAuth(NO_USERS, events[..k]), events[k], a.logins[r].username)
  {
    hide ExecAuth, AuthInv, Owns, Inserts;
    RunExplained(events);
    var a := ExecAuth(NO_USERS, events);
    assert Thwarted(a, a.logins[r].username);
    if Find(a.users, a.logins[r].username).Some? {
      var row := Find(a.users, a.logins[r].username).value;
      var k := InsertedBySomeone(events, row);
      BrokenOwnsNothing(a.logins[r], row);
    }
  }
}
