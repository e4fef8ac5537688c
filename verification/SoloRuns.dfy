/** Requests that run alone, step by step: the building blocks of concrete runs. */
module SoloRuns {
  import opened Ledger
  import opened StoreSystem
  import opened StoreInvariant
  import Refinement

  /** Between s and s' the accounts of a and b were opened, unless they were open already. */
  ghost predicate Opened(s: State, s': State, a: UserId, b: UserId)
  {
    && s'.goods == s.goods && s'.serials.accounts <= s.serials.accounts + 2
    && s'.serials.transfers == s.serials.transfers && s'.serials.purchases == s.serials.purchases
    && s'.tables.balances.Keys == s.tables.balances.Keys + {a, b}
    && forall u | u in s'.tables.balances ::
         s'.tables.balances[u] == if u in s.tables.balances then s.tables.balances[u] else START_BALANCE
  }

  lemma OpeningFacts(s: State, r: ReqId, u: UserId)
    requires s.serials.accounts < INT_MAX
    ensures var (s', ok) := EnsureBalanceCreated(s, r, u);
            && ok && Opened(s, s', u, u) && s'.locks == s.locks && s'.sessions == s.sessions
            && s'.serials.accounts == s.serials.accounts + 1
  {
  }

  lemma Goes(s: State, s1: State, e: Event)
    requires Reachable(s1) && Leads(s, s1)
    ensures Reachable(Next(s1, e)) && Leads(s, Next(s1, e))
  {
    ReachableNext(s1, e);
    LeadsByNext(s, s1, e);
  }

  lemma GoesOn(s: State, s1: State, e: Event)
    requires Reachable(s1) && Works(s, s1) && !e.Arrive? && !e.Answer?
    ensures Reachable(Next(s1, e)) && Works(s, Next(s1, e))
  {
    hide Works;
    ReachableNext(s1, e);
    WorksByNext(s, s1, e);
  }

  lemma RunsToResolve(s: State, r: ReqId, q: Request) returns (s': State)
    requires Reachable(s) && r !in s.sessions && s.serials.accounts < INT_MAX
    ensures Reachable(s') && Leads(s, s') && s'.locks == s.locks && s'.serials.accounts == s.serials.accounts + 1
    ensures s'.sessions == s.sessions[r := Session(q, Resolve, None, 0, 0, NO_WRITES)]
    ensures Opened(s, s', Caller(q), Caller(q))
  {
    hide Reachable, Leads, EnsureBalanceCreated;
    LeadsNowhere(s);
    var s1 := Next(s, Arrive(r, q));
    OpeningFacts(s1, r, Caller(q));
    s' := Next(s1, Advance(r));
    Goes(s, s, Arrive(r, q));
    Goes(s, s1, Advance(r));
  }

  /** The recipient's account is opened, or is there already. */
  lemma RunsToRecipient(s: State, r: ReqId) returns (s': State)
    requires Reachable(s) && r in s.sessions && s.serials.accounts < INT_MAX
    requires s.sessions[r].pc.OpenRecipient? && s.sessions[r].job.Some? && s.sessions[r].job.value.Move?
    ensures Reachable(s') && Works(s, s') && s'.locks == s.locks && s'.serials.accounts == s.serials.accounts + 1
    ensures s'.sessions == s.sessions[r := s.sessions[r].(pc := Begin)]
    ensures var to := s.sessions[r].job.value.transfer.to; Opened(s, s', to, to)
  {
    hide Reachable, Works, EnsureBalanceCreated;
    WorksNowhere(s);
    OpeningFacts(s, r, s.sessions[r].job.value.transfer.to);
    s' := Next(s, Advance(r));
    GoesOn(s, s, Advance(r));
  }

  lemma RunsToBegin(s: State, r: ReqId, t: Transfer, name: string) returns (s': State)
    requires Reachable(s) && r in s.sessions && s.serials.accounts < INT_MAX && t.from != t.to && 0 <= t.amount <= INT_MAX
    requires s.sessions[r] == Session(SendCoins(t.from, name, t.amount), Resolve, None, 0, 0, NO_WRITES)
    ensures Reachable(s') && Leads(s, s') && s'.locks == s.locks && s'.serials.accounts == s.serials.accounts + 1
    ensures s'.sessions
         == s.sessions[r := Session(SendCoins(t.from, name, t.amount), Begin, Some(Move(t)), t.amount, 0, NO_WRITES)]
    ensures Opened(s, s', t.to, t.to)
  {
    hide Reachable, Leads, Works;
    LeadsNowhere(s);
    var s1 := Next(s, Answer(r, Some(t.to)));
    Goes(s, s, Answer(r, Some(t.to)));
    s' := RunsToRecipient(s1, r);
    WorksLeads(s1, s');
    LeadsOn(s, s1, s');
  }

  lemma RunsToCheck(s: State, r: ReqId) returns (s': State)
    requires Reachable(s) && r in s.sessions && s.sessions[r].pc.Begin? && s.sessions[r].job.Some?
    requires s.sessions[r].tx == NO_WRITES
    requires Payer(s.sessions[r].job.value) in s.tables.balances && Payer(s.sessions[r].job.value) !in s.locks
    ensures var u := Payer(s.sessions[r].job.value);
            Reachable(s') && Works(s, s') && s' == s.(locks := s.locks[u := r],
              sessions := s.sessions[r := s.sessions[r].(pc := Check, read := s.tables.balances[u])])
  {
    hide Reachable, Works;
    WorksNowhere(s);
    var s1 := Next(s, Advance(r));
    s' := Next(s1, Advance(r));
    GoesOn(s, s, Advance(r));
    GoesOn(s, s1, Advance(r));
  }

  lemma RunsToDebited(s: State, r: ReqId) returns (s': State)
    requires Reachable(s) && r in s.sessions && s.sessions[r].pc.Check? && s.sessions[r].job.Some?
    requires s.sessions[r].due <= s.sessions[r].read
    ensures Reachable(s') && Works(s, s') && s'.goods == s.goods && s'.tables == s.tables && s'.serials == s.serials
    ensures s'.locks == s.locks && s'.sessions.Keys == s.sessions.Keys
    ensures s'.sessions[r].pc == if s.sessions[r].job.value.Move? then Credit else Record
    ensures forall q | q in s.sessions && q != r :: s'.sessions[q] == s.sessions[q]
    ensures s'.sessions[r].job == s.sessions[r].job && s'.sessions[r].request == s.sessions[r].request
  {
    hide Reachable, Works, Inv, SessionFits, Sound, DebitPayer;
    WorksNowhere(s);
    var s1 := Next(s, Advance(r));
    GoesOn(s, s, Advance(r));
    ReachableInv(s1);
    InvAt(s1, r);
    DebitWrites(s1, r, s1.sessions[r]);
    GoesOn(s, s1, Advance(r));
    s' := Next(s1, Advance(r));
    assert s'.locks == s.locks;
  }

  /** What the user would find on his account: it is opened on his first call. */
  function Affords(s: State, u: UserId): int
  {
    if u in s.tables.balances then s.tables.balances[u] else START_BALANCE
  }

  /** A call comes in, its recipient is found, and both accounts are there. */
  lemma RunsToOpened(s: State, r: ReqId, t: Transfer, name: string) returns (s': State)
    requires Reachable(s) && r !in s.sessions && s.serials.accounts + 2 <= INT_MAX && t.from != t.to && 0 <= t.amount <= INT_MAX
    ensures Reachable(s') && Leads(s, s') && Opened(s, s', t.from, t.to) && s'.locks == s.locks
    ensures s'.sessions
         == s.sessions[r := Session(SendCoins(t.from, name, t.amount), Begin, Some(Move(t)), t.amount, 0, NO_WRITES)]
  {
    hide Reachable, Leads;
    var s1 := RunsToResolve(s, r, SendCoins(t.from, name, t.amount));
    s' := RunsToBegin(s1, r, t, name);
    LeadsOn(s, s1, s');
  }

  /** From the beginning of the transaction to its first statement after the debit. */
  lemma RunsThroughDebit(s: State, r: ReqId) returns (s': State)
    requires Reachable(s) && r in s.sessions && s.sessions[r].pc.Begin? && s.sessions[r].job.Some? && s.sessions[r].tx == NO_WRITES
    requires var u := Payer(s.sessions[r].job.value);
             u in s.tables.balances && u !in s.locks && s.sessions[r].due <= s.tables.balances[u]
    ensures Reachable(s') && Works(s, s') && s'.goods == s.goods && s'.tables == s.tables && s'.serials == s.serials
    ensures s'.locks == s.locks[Payer(s.sessions[r].job.value) := r] && s'.sessions.Keys == s.sessions.Keys
    ensures s'.sessions[r].pc == if s.sessions[r].job.value.Move? then Credit else Record
    ensures forall q | q in s.sessions && q != r :: s'.sessions[q] == s.sessions[q]
    ensures s'.sessions[r].job == s.sessions[r].job && s'.sessions[r].request == s.sessions[r].request
  {
    hide Reachable, Works;
    var s1 := RunsToCheck(s, r);
    s' := RunsToDebited(s1, r);
    WorksOn(s, s1, s');
  }

  lemma OpenedAffords(s: State, s': State, a: UserId, b: UserId)
    requires Opened(s, s', a, b)
    ensures a in s'.tables.balances && s'.tables.balances[a] == Affords(s, a)
    ensures s'.goods == s.goods && s'.serials.purchases == s.serials.purchases
  {
  }

  lemma SameRowsOpened(s: State, s1: State, s': State, a: UserId, b: UserId)
    requires Opened(s, s1, a, b) && s'.goods == s1.goods && s'.tables == s1.tables && s'.serials == s1.serials
    ensures Opened(s, s', a, b)
  {
  }

  /** A transfer that runs alone up to its credit. */
  lemma RunsToCredit(s: State, r: ReqId, t: Transfer, name: string) returns (s': State)
    requires Reachable(s) && r !in s.sessions && s.serials.accounts + 2 <= INT_MAX
    requires t.from != t.to && t.from !in s.locks && 0 <= t.amount <= INT_MAX && t.amount <= Affords(s, t.from)
    ensures Reachable(s') && Leads(s, s') && Opened(s, s', t.from, t.to)
    ensures s'.sessions.Keys == s.sessions.Keys + {r}
    ensures forall q | q in s.sessions :: s'.sessions[q] == s.sessions[q]
    ensures s'.sessions[r].pc == Credit && s'.sessions[r].job == Some(Move(t))
    ensures s'.sessions[r].request == SendCoins(t.from, name, t.amount)
    ensures s'.locks == s.locks[t.from := r]
  {
    hide Reachable, Leads, Works, Affords, Opened;
    var s1 := RunsToOpened(s, r, t, name);
    OpenedAffords(s, s1, t.from, t.to);
    s' := RunsThroughDebit(s1, r);
    WorksLeads(s1, s');
    LeadsOn(s, s1, s');
    SameRowsOpened(s, s1, s', t.from, t.to);
  }

  lemma RunsToCommit(s: State, r: ReqId) returns (s': State)
    requires Reachable(s) && r in s.sessions && s.sessions[r].pc.Credit? && s.sessions[r].job.Some? && s.sessions[r].job.value.Move?
    requires var t := s.sessions[r].job.value.transfer;
             && !HeldByOther(s, r, t.to) && t.to in s.tables.balances && s.tables.balances[t.to] + t.amount <= INT_MAX
    requires s.serials.transfers < INT_MAX
    ensures Reachable(s') && Works(s, s') && s'.goods == s.goods && s'.tables == s.tables
    ensures s'.serials == s.serials.(transfers := s.serials.transfers + 1)
    ensures s'.sessions.Keys == s.sessions.Keys && s'.sessions[r].pc.Commit? && s'.sessions[r].job == s.sessions[r].job
    ensures s'.locks == s.locks[s.sessions[r].job.value.transfer.to := r]
  {
    hide Reachable, Works, Inv, SessionFits, Sound, InsertRecord, CreditRecipient;
    WorksNowhere(s);
    ReachableInv(s);
    InvAt(s, r);
    CreditCases(s, r, s.sessions[r]);
    Refinement.CreditNeverMisses(s, r);
    var s1 := Next(s, Advance(r));
    ReachableNext(s, Advance(r));
    WorksByNext(s, s, Advance(r));
    Refinement.RecordNeverDangles(s1, r);
    s' := Next(s1, Advance(r));
    ReachableNext(s1, Advance(r));
    WorksByNext(s, s1, Advance(r));
    InsertStages(s1, r);
  }

  lemma InsertStages(s: State, r: ReqId)
    requires r in s.sessions && s.sessions[r].job.Some? && s.sessions[r].job.value.Move? && InsertRecord(s, r).sessions[r].pc.Commit?
    requires s.sessions[r].pc.Record?
    ensures var s' := InsertRecord(s, r);
            s' == s.(sessions := s'.sessions, serials := s.serials.(transfers := s.serials.transfers + 1))
            && s'.sessions.Keys == s.sessions.Keys && s'.sessions[r].job == s.sessions[r].job
  {
  }

  /** From its credit on, a transfer whose recipient is not held by another goes through, and does what the ledger does. */
  lemma RunsToPaid(s: State, r: ReqId) returns (s': State)
    requires Reachable(s) && r in s.sessions && s.sessions[r].pc.Credit? && s.sessions[r].job.Some? && s.sessions[r].job.value.Move?
    requires var t := s.sessions[r].job.value.transfer;
             && !HeldByOther(s, r, t.to) && t.to in s.tables.balances && s.tables.balances[t.to] + t.amount <= INT_MAX
    requires s.serials.transfers < INT_MAX
    ensures Reachable(s') && Works(s, s') && s'.goods == s.goods
    ensures var op := s.sessions[r].job.value;
            Judge(s.goods, s.tables, op) == Accepted && s'.tables == Apply(s.goods, s.tables, op)
    ensures s'.serials == s.serials.(transfers := s.serials.transfers + 1)
    ensures s'.sessions.Keys == s.sessions.Keys && s'.sessions[r].pc == Done(Ok) && s'.sessions[r].job == s.sessions[r].job
    ensures s'.locks == Release(s.locks[s.sessions[r].job.value.transfer.to := r], r)
  {
    hide Reachable, Works, Judge, Apply;
    var s1 := RunsToCommit(s, r);
    Refinement.AcceptedIsSerial(s1, r);
    s' := Next(s1, Advance(r));
    ReachableNext(s1, Advance(r));
    WorksByNext(s, s1, Advance(r));
  }

  lemma RunsToPriced(s: State, r: ReqId, user: UserId, item: string) returns (s': State)
    requires Reachable(s) && r !in s.sessions && s.serials.accounts < INT_MAX
    requires FindGood(s.goods, item).Some? && 0 <= Price(s.goods, FindGood(s.goods, item).value)
    ensures Reachable(s') && Leads(s, s') && Opened(s, s', user, user) && s'.locks == s.locks
    ensures var g := FindGood(s.goods, item).value;
            s'.sessions
            == s.sessions[r := Session(BuyItem(user, item), Begin, Some(Buy(Purchase(user, g))), Price(s.goods, g), 0, NO_WRITES)]
  {
    hide Reachable, Leads, FindGood;
    var s1 := RunsToResolve(s, r, BuyItem(user, item));
    s' := Next(s1, Advance(r));
    Goes(s, s1, Advance(r));
  }

  /** A purchase that runs alone and is paid for. */
  lemma RunsToBought(s: State, r: ReqId, user: UserId, item: string) returns (s': State)
    requires Reachable(s) && r !in s.sessions && s.serials.accounts < INT_MAX && s.serials.purchases < INT_MAX && user !in s.locks
    requires FindGood(s.goods, item).Some?
    requires 0 <= Price(s.goods, FindGood(s.goods, item).value) <= Affords(s, user)
    ensures Reachable(s') && Leads(s, s') && s'.goods == s.goods && user in s'.tables.balances
    ensures s'.tables.purchases != [] && Last(s'.tables.purchases) == Purchase(user, FindGood(s.goods, item).value)
  {
    hide Reachable, Leads, Works, FindGood, Next, Judge, Affords, Opened;
    var s1 := RunsToPriced(s, r, user, item);
    OpenedAffords(s, s1, user, user);
    var s2 := RunsThroughDebit(s1, r);
    WorksLeads(s1, s2);
    LeadsOn(s, s1, s2);
    Refinement.RecordNeverDangles(s2, r);
    var s3 := Next(s2, Advance(r));
    Goes(s, s2, Advance(r));
    PurchaseIsStaged(s2, r);
    Refinement.AcceptedIsSerial(s3, r);
    s' := Next(s3, Advance(r));
    Goes(s, s3, Advance(r));
  }

  lemma PurchaseIsStaged(s: State, r: ReqId)
    requires r in s.sessions && s.sessions[r].pc.Record? && s.sessions[r].job.Some? && s.sessions[r].job.value.Buy?
    ensures var s' := Next(s, Advance(r));
            s'.goods == s.goods && s'.tables == s.tables && r in s'.sessions && s'.sessions[r].job == s.sessions[r].job
  {
  }
}
