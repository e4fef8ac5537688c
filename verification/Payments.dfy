/**
 Both services at work on one transfer: what each of their exchanges does, and that a user who can afford
 it gets his coins to the user he names, whatever else is pending.
 */
module Payments {
  import opened Ledger
  import opened StoreSystem
  import opened StoreInvariant
  import opened AuthSystem
  import opened Platform
  import Outcomes
  import SoloRuns
  import Victims

  // ---- The store's part ----

  /** What request r relies on is as it was, its row u is free, and nothing is committed or drawn. */
  ghost predicate Freed(s: State, s': State, r: ReqId, u: UserId)
    requires r in s.sessions
  {
    && s'.goods == s.goods && s'.tables == s.tables && s'.serials == s.serials
    && r in s'.sessions && s'.sessions[r] == s.sessions[r] && !HeldByOther(s', r, u)
    && forall v | v in s.locks && s.locks[v] == r :: v in s'.locks && s'.locks[v] == r
  }

  /** Whoever else holds the row can be made to give it up. */
  lemma RowCanBeFreed(s: State, r: ReqId, u: UserId) returns (s': State)
    requires Reachable(s) && r in s.sessions
    ensures Reachable(s') && Works(s, s') && Freed(s, s', r, u)
  {
    hide Reachable, Works, Victims.Aborted;
    if HeldByOther(s, r, u) {
      Victims.RowIsFreed(s, r, u);
      s' := Victims.Aborted(s, s.locks[u]);
    } else {
      WorksNowhere(s);
      s' := s;
    }
  }

  /** The transfer t has been resolved, and both users' rows will do. */
  ghost predicate CanGoThrough(s: State, r: ReqId, t: Transfer)
  {
    && Reachable(s) && r in s.sessions && s.sessions[r].job == Some(Move(t)) && s.sessions[r].due == t.amount
    && s.sessions[r].tx == NO_WRITES && t.from != t.to && 0 <= t.amount
    && t.from in s.tables.balances && t.amount <= s.tables.balances[t.from]
    && SoloRuns.Affords(s, t.to) + t.amount <= INT_MAX
    && s.serials.transfers < INT_MAX
  }

  /** The transfer has been committed, and answered, and has moved the coins. */
  ghost predicate WentThrough(s: State, s': State, r: ReqId, t: Transfer)
  {
    && r in s'.sessions && s'.sessions[r].pc == Done(Ok) && Outcomes.Effects(s'.journal, r) == [Move(t)]
    && t.from in s.tables.balances && t.from in s'.tables.balances && t.to in s'.tables.balances
    && s'.tables.balances[t.from] == s.tables.balances[t.from] - t.amount
    && s'.tables.balances[t.to] == SoloRuns.Affords(s, t.to) + t.amount
  }

  lemma OwnsNothing(s: State, r: ReqId, u: UserId)
    requires Reachable(s) && r in s.sessions && !InTx(s.sessions[r].pc) && !HeldByOther(s, r, u)
    ensures u !in s.locks
  {
    hide Reachable;
    if u in s.locks { LockHygiene(s, u); }
  }

  lemma OpensRecipient(s: State, r: ReqId, t: Transfer) returns (s': State)
    requires CanGoThrough(s, r, t) && s.sessions[r].pc.OpenRecipient? && s.serials.accounts < INT_MAX
    ensures Works(s, s') && CanGoThrough(s', r, t) && s'.sessions[r].pc.Begin? && t.to in s'.tables.balances
    ensures s'.tables.balances[t.from] == s.tables.balances[t.from] && s'.tables.balances[t.to] == SoloRuns.Affords(s, t.to)
  {
    hide Reachable, Works;
    s' := SoloRuns.RunsToRecipient(s, r);
  }

  lemma Debits(s: State, r: ReqId, t: Transfer) returns (s': State)
    requires CanGoThrough(s, r, t) && s.sessions[r].pc.Begin? && t.to in s.tables.balances
    ensures Reachable(s') && Works(s, s') && r in s'.sessions && s'.sessions[r].pc.Credit? && s'.sessions[r].job == Some(Move(t))
    ensures s'.tables == s.tables && s'.serials == s.serials
  {
    hide Reachable, Works, SoloRuns.Affords;
    var s1 := RowCanBeFreed(s, r, t.from);
    OwnsNothing(s1, r, t.from);
    s' := SoloRuns.RunsThroughDebit(s1, r);
    WorksOn(s, s1, s');
  }

  lemma Credits(s: State, r: ReqId, t: Transfer) returns (s': State)
    requires Reachable(s) && r in s.sessions && s.sessions[r].pc.Credit? && s.sessions[r].job == Some(Move(t))
    requires t.from in s.tables.balances && t.to in s.tables.balances && t.from != t.to
    requires s.tables.balances[t.to] + t.amount <= INT_MAX && s.serials.transfers < INT_MAX
    ensures Works(s, s') && WentThrough(s, s', r, t)
  {
    hide Reachable, Works, Judge, Outcomes.Effects;
    var s1 := RowCanBeFreed(s, r, t.to);
    s' := SoloRuns.RunsToPaid(s1, r);
    WorksOn(s, s1, s');
    MoveMoves(s1.goods, s1.tables, t);
    OkHasEffect(s', r);
  }

  lemma MoveMoves(goods: Catalogue, t: Tables, row: Transfer)
    requires Judge(goods, t, Move(row)) == Accepted
    ensures var b, b' := t.balances, Apply(goods, t, Move(row)).balances;
            && row.from in b && row.to in b && row.from in b' && row.to in b'
            && b'[row.from] == b[row.from] - row.amount && b'[row.to] == b[row.to] + row.amount
  {
  }

  lemma OkHasEffect(s: State, r: ReqId)
    requires Reachable(s) && r in s.sessions && s.sessions[r].pc == Done(Ok)
    ensures s.sessions[r].job.Some? && Outcomes.Effects(s.journal, r) == [s.sessions[r].job.value]
  {
    hide Reachable, Inv, Outcomes.Effects;
    Outcomes.ReachableAccounted(s);
    assert Outcomes.AccountedFor(s.journal, r, s.sessions[r]);
  }

  /** A resolved transfer that can be afforded can be brought to its end, whoever else holds what it needs. */
  lemma GoesThrough(s: State, r: ReqId, t: Transfer) returns (s': State)
    requires CanGoThrough(s, r, t) && s.sessions[r].pc.OpenRecipient? && s.serials.accounts < INT_MAX
    ensures Works(s, s') && WentThrough(s, s', r, t)
  {
    hide Reachable, Works, WentThrough, SoloRuns.Affords;
    var s1 := OpensRecipient(s, r, t);
    var s2 := Debits(s1, r, t);
    RoomForCredit(s1, r, t);
    s' := Credits(s2, r, t);
    WorksOn(s, s1, s2);
    WorksOn(s, s2, s');
    SameEnd(s, s1, s2, s', r, t);
  }

  lemma RoomForCredit(s: State, r: ReqId, t: Transfer)
    requires CanGoThrough(s, r, t) && t.to in s.tables.balances
    ensures s.tables.balances[t.to] + t.amount <= INT_MAX
  {
  }

  lemma SameEnd(s: State, s1: State, s2: State, s': State, r: ReqId, t: Transfer)
    requires WentThrough(s2, s', r, t) && s2.tables == s1.tables && t.from in s.tables.balances
    requires t.from in s1.tables.balances && t.to in s1.tables.balances
    requires s1.tables.balances[t.from] == s.tables.balances[t.from] && s1.tables.balances[t.to] == SoloRuns.Affords(s, t.to)
    ensures WentThrough(s, s', r, t)
  {
  }

  // ---- The exchanges of the services ----

  /** A call with the token of a login starts a request of that user; without one, nothing happens. */
  lemma CallArrives(p: Platform, r: ReqId, login: ReqId, q: Request)
    requires r !in p.store.sessions
    ensures NextPlatform(p, PlatformEvent.Call(r, login, q)) ==
              if login in p.auth.logins && p.auth.logins[login].pc.LoggedIn? && Caller(q) == p.auth.logins[login].pc.holder.id
              then p.(store := p.store.(sessions := p.store.sessions[r := Session(q, Intercept, None, 0, 0, NO_WRITES)]))
              else p
  {
  }

  lemma AskAnswers(p: Platform, r: ReqId, id: Option<UserId>)
    requires r in p.store.sessions && p.store.sessions[r].pc.Resolve? && p.store.sessions[r].request.SendCoins?
    ensures var ss, q := p.store.sessions[r], p.store.sessions[r].request;
            Next(p.store, Answer(r, id)) == p.store.(sessions := p.store.sessions[r :=
              if id.None? then ss.(pc := Done(UserNotFound))
              else if id.value == q.from then ss.(pc := Done(InvalidArguments))
              else ss.(pc := OpenRecipient, due := q.amount, job := Some(Move(Transfer(q.from, id.value, q.amount))))])
  {
  }

  /**
   The recipient lookup across both services: a registered name resolves to exactly its user, whose account
   is opened next; the caller's own name is refused; an unknown name, or a lookup that fails, is not found.
   */
  lemma AskResolves(p: Platform, r: ReqId, delivered: bool)
    requires Running(p) && r in p.store.sessions && p.store.sessions[r].pc.Resolve? && p.store.sessions[r].request.SendCoins?
    ensures var ss, q := p.store.sessions[r], p.store.sessions[r].request;
            var p' := NextPlatform(p, Ask(r, delivered));
            && p'.auth == p.auth && p'.store == p.store.(sessions := p'.store.sessions)
            && p'.store.sessions.Keys == p.store.sessions.Keys
            && (forall row | row in p.auth.users && row.username == q.toUsername && delivered ::
                  p'.store.sessions[r] ==
                    if row.id == q.from then ss.(pc := Done(InvalidArguments))
                    else ss.(pc := OpenRecipient, due := q.amount, job := Some(Move(Transfer(q.from, row.id, q.amount)))))
            && ((!delivered || forall row | row in p.auth.users :: row.username != q.toUsername) ==>
                  p'.store.sessions[r] == ss.(pc := Done(UserNotFound)))
  {
    hide Running, Next, Find, UserID, AuthInv, Reachable, Identified;
    var name := p.store.sessions[r].request.toUsername;
    RunningInv(p);
    LookupIsRow(p.auth, name);
    AskAnswers(p, r, if delivered then UserID(p.auth.users, name) else None);
  }

  lemma LookupIsRow(a: AuthState, username: string)
    requires AuthInv(a)
    ensures forall row | row in a.users && row.username == username :: UserID(a.users, username) == Some(row.id)
    ensures (forall row | row in a.users :: row.username != username) ==> UserID(a.users, username) == None
  {
    hide AuthInv, UserID;
    forall row | row in a.users && row.username == username
      ensures UserID(a.users, username) == Some(row.id)
    {
      RowIsFound(a, row);
    }
    if forall row | row in a.users :: row.username != username { NobodyIsFound(a.users, username); }
  }

  lemma RowIsFound(a: AuthState, row: UserRow)
    requires AuthInv(a) && row in a.users
    ensures UserID(a.users, row.username) == Some(row.id)
  {
    RowIsUnique(a, row);
    FoundIdFits(a, row.username);
  }

  lemma NobodyIsFound(users: seq<UserRow>, username: string)
    requires forall row | row in users :: row.username != username
    ensures UserID(users, username) == None
  {
  }

  // ---- Runs of both services ----

  ghost predicate PlatformLeads(p: Platform, p': Platform)
  {
    exists events :: p' == ExecPlatform(p, events)
  }

  lemma PlatformByNext(p: Platform, p': Platform, e: PlatformEvent)
    requires PlatformLeads(p, p')
    ensures PlatformLeads(p, NextPlatform(p', e))
  {
    hide NextPlatform;
    var events :| p' == ExecPlatform(p, events);
    PlatformAppend(p, events, e);
  }

  lemma PlatformNowhere(p: Platform)
    ensures PlatformLeads(p, p)
  {
    assert p == ExecPlatform(p, []);
  }

  lemma WorkIsNext(p: Platform, s: State, e: Event)
    requires !e.Arrive? && !e.Answer?
    ensures NextPlatform(p.(store := s), Work(e)) == p.(store := Next(s, e))
  {
  }

  lemma ExecEnds(s: State, events: seq<Event>)
    ensures Exec(s, events) == if events == [] then s else Next(Exec(s, Front(events)), Last(events))
  {
  }

  lemma {:induction false} PlatformWorks(p: Platform, p': Platform, events: seq<Event>)
    requires PlatformLeads(p, p') && forall e | e in events :: !e.Arrive? && !e.Answer?
    ensures PlatformLeads(p, p'.(store := Exec(p'.store, events)))
  {
    hide Next, NextPlatform, Exec, PlatformLeads;
    ExecEnds(p'.store, events);
    if events == [] {
      assert p'.(store := p'.store) == p';
    } else {
      var front, e := Front(events), Last(events);
      assert forall d | d in front :: d in events;
      assert events[|events| - 1] in events;
      PlatformWorks(p, p', front);
      WorkIsNext(p', Exec(p'.store, front), e);
      PlatformByNext(p, p'.(store := Exec(p'.store, front)), Work(e));
    }
  }

  lemma PlatformFollows(p: Platform, p': Platform, s: State)
    requires PlatformLeads(p, p') && Works(p'.store, s)
    ensures PlatformLeads(p, p'.(store := s))
  {
    hide Exec, PlatformLeads;
    var events: seq<Event> :| (forall e | e in events :: !e.Arrive? && !e.Answer?) && s == Exec(p'.store, events);
    PlatformWorks(p, p', events);
  }

  /** The caller's account is there, and nothing is staged, once the interceptor is passed. */
  lemma ResolvingFits(s: State, r: ReqId)
    requires Reachable(s) && r in s.sessions && s.sessions[r].pc.Resolve?
    ensures Caller(s.sessions[r].request) in s.tables.balances && s.sessions[r].tx == NO_WRITES
  {
    ReachableInv(s);
    InvAt(s, r);
  }

  /** If the named user is another, and the caller can afford it, the lookup can be followed by the transfer. */
  lemma ResolvedCanPay(p: Platform, r: ReqId, row: UserRow) returns (p': Platform)
    requires Running(p) && r in p.store.sessions && p.store.sessions[r].pc.Resolve? && p.store.sessions[r].request.SendCoins?
    requires var s, q := p.store, p.store.sessions[r].request;
             && row in p.auth.users && row.username == q.toUsername && row.id != q.from
             && s.serials.accounts < INT_MAX && s.serials.transfers < INT_MAX
             && q.amount <= SoloRuns.Affords(s, q.from) && SoloRuns.Affords(s, row.id) + q.amount <= INT_MAX
    ensures PlatformLeads(p, p') && p'.auth == p.auth
    ensures var q := p.store.sessions[r].request;
            WentThrough(p.store, p'.store, r, Transfer(q.from, row.id, q.amount))
  {
    hide Running, Reachable, PlatformInv, Works, PlatformLeads, NextPlatform, WentThrough;
    var q := p.store.sessions[r].request;
    var t := Transfer(q.from, row.id, q.amount);
    var p1 := NextPlatform(p, Ask(r, true));
    AskResolves(p, r, true);
    StoreIsReachable(p);
    ResolvingFits(p.store, r);
    RunningOn(p, Ask(r, true));
    StoreIsReachable(p1);
    assert SoloRuns.Affords(p1.store, t.to) == SoloRuns.Affords(p.store, t.to);
    var s := GoesThrough(p1.store, r, t);
    PlatformNowhere(p);
    PlatformByNext(p, p, Ask(r, true));
    PlatformFollows(p, p1, s);
    p' := p1.(store := s);
    assert WentThrough(p.store, s, r, t) by { SameTablesWent(p.store, p1.store, s, r, t); }
  }

  lemma SameTablesWent(s: State, s1: State, s': State, r: ReqId, t: Transfer)
    requires WentThrough(s1, s', r, t) && s1.tables == s.tables
    ensures WentThrough(s, s', r, t)
  {
  }

  lemma StoreIsReachable(p: Platform)
    requires Running(p)
    ensures Reachable(p.store)
  {
    hide Running, Reachable;
    RunningInv(p);
  }

  /** The interceptor opens the caller's account, or finds it. */
  lemma InterceptPasses(p: Platform, r: ReqId)
    requires Running(p) && r in p.store.sessions && p.store.sessions[r].pc.Intercept? && p.store.serials.accounts < INT_MAX
    ensures var s, s' := p.store, NextPlatform(p, Work(Advance(r))).store;
            && NextPlatform(p, Work(Advance(r))).auth == p.auth
            && s'.sessions == s.sessions[r := s.sessions[r].(pc := Resolve)]
            && SoloRuns.Opened(s, s', Caller(s.sessions[r].request), Caller(s.sessions[r].request))
            && s'.serials.accounts == s.serials.accounts + 1
  {
    hide Running, EnsureBalanceCreated;
    SoloRuns.OpeningFacts(p.store, r, Caller(p.store.sessions[r].request));
  }

  /**
   From login to answer: whoever is logged in and can afford it can send coins to any other registered user
   by his name, in any state of the platform, and they arrive.
   */
  lemma LoggedInCanPay(p: Platform, login: ReqId, row: UserRow, amount: uint32, r: ReqId) returns (p': Platform)
    requires Running(p) && login in p.auth.logins && p.auth.logins[login].pc.LoggedIn? && r !in p.store.sessions
    requires var from := p.auth.logins[login].pc.holder.id;
             && row in p.auth.users && row.id != from
             && p.store.serials.accounts + 2 <= INT_MAX && p.store.serials.transfers < INT_MAX
             && amount <= SoloRuns.Affords(p.store, from) && SoloRuns.Affords(p.store, row.id) + amount <= INT_MAX
    ensures var from := p.auth.logins[login].pc.holder.id;
            && r in p'.store.sessions && p'.store.sessions[r].pc == Done(Ok)
            && Outcomes.Effects(p'.store.journal, r) == [Move(Transfer(from, row.id, amount))]
            && from in p'.store.tables.balances && row.id in p'.store.tables.balances
            && p'.store.tables.balances[from] == SoloRuns.Affords(p.store, from) - amount
            && p'.store.tables.balances[row.id] == SoloRuns.Affords(p.store, row.id) + amount
    ensures PlatformLeads(p, p') && p'.auth == p.auth
  {
    hide Running, Reachable, PlatformLeads, NextPlatform, SoloRuns.Affords, SoloRuns.Opened, Outcomes.Effects;
    var from := p.auth.logins[login].pc.holder.id;
    var call := PlatformEvent.Call(r, login, SendCoins(from, row.username, amount));
    PlatformNowhere(p);
    CallArrives(p, r, login, SendCoins(from, row.username, amount));
    var p1 := NextPlatform(p, call);
    PlatformByNext(p, p, call);
    RunningOn(p, call);
    InterceptPasses(p1, r);
    var p2 := NextPlatform(p1, Work(Advance(r)));
    PlatformByNext(p, p1, Work(Advance(r)));
    RunningOn(p1, Work(Advance(r)));
    AffordsTheSame(p1.store, p2.store, from, row.id);
    AffordsTheSame(p1.store, p2.store, from, from);
    SameTablesAfford(p.store, p1.store, from);
    SameTablesAfford(p.store, p1.store, row.id);
    p' := ResolvedCanPay(p2, r, row);
    PlatformOn(p, p2, p');
    SameTablesAfford(p2.store, p2.store, from);
  }

  lemma AffordsTheSame(s: State, s': State, a: UserId, u: UserId)
    requires SoloRuns.Opened(s, s', a, a)
    ensures SoloRuns.Affords(s', u) == SoloRuns.Affords(s, u)
    ensures s'.serials.transfers == s.serials.transfers
    ensures u in s'.tables.balances ==> s'.tables.balances[u] == SoloRuns.Affords(s', u)
  {
  }

  lemma SameTablesAfford(s: State, s': State, u: UserId)
    requires s'.tables == s.tables
    ensures SoloRuns.Affords(s', u) == SoloRuns.Affords(s, u)
  {
  }

  lemma {:induction false} PlatformConcat(p: Platform, es: seq<PlatformEvent>, fs: seq<PlatformEvent>)
    ensures ExecPlatform(p, es + fs) == ExecPlatform(ExecPlatform(p, es), fs)
  {
    hide ExecPlatform, NextPlatform;
    if fs == [] {
      assert es + fs == es;
      NothingHappens(ExecPlatform(p, es));
    } else {
      var front, e := Front(fs), Last(fs);
      PlatformConcat(p, es, front);
      PlatformAppend(p, es + front, e);
      PlatformAppend(ExecPlatform(p, es), front, e);
      assert es + fs == (es + front) + [e];
    }
  }

  lemma NothingHappens(p: Platform)
    ensures ExecPlatform(p, []) == p
  {
  }

  lemma PlatformOn(p: Platform, p': Platform, p'': Platform)
    requires PlatformLeads(p, p') && PlatformLeads(p', p'')
    ensures PlatformLeads(p, p'')
  {
    hide ExecPlatform;
    var es :| p' == ExecPlatform(p, es);
    var fs :| p'' == ExecPlatform(p', fs);
    PlatformConcat(p, es, fs);
  }
}
