/** A transaction can be ended at any time, as a deadlock's victim is: its locks go, and nothing else changes. */
module Victims {
  import opened Ledger
  import opened StoreSystem
  import opened StoreInvariant

  /** The database aborts the transaction of q at its next statement. */
  function Aborted(s: State, q: ReqId): State
    requires q in s.sessions
  {
    var s1 := if s.sessions[q].pc.Check? then Next(s, Advance(q)) else s;
    Next(Next(s1, Fail(q)), Advance(q))
  }

  /** The transaction of q is over, and all the rest is as it was. */
  ghost predicate Ended(s: State, s': State, q: ReqId)
  {
    && s'.goods == s.goods && s'.tables == s.tables && s'.serials == s.serials && s'.journal == s.journal
    && s'.locks == Release(s.locks, q) && s'.sessions.Keys == s.sessions.Keys
    && forall r | r in s.sessions && r != q :: s'.sessions[r] == s.sessions[r]
  }

  lemma FailRollsBack(s: State, q: ReqId)
    requires q in s.sessions && InTx(s.sessions[q].pc) && !s.sessions[q].pc.Check?
    ensures var s' := Next(s, Fail(q));
            && s' == s.(sessions := s'.sessions) && s'.sessions.Keys == s.sessions.Keys && s'.sessions[q].pc.Rollback?
            && forall r | r in s.sessions && r != q :: s'.sessions[r] == s.sessions[r]
  {
  }

  lemma CheckGoesOn(s: State, q: ReqId)
    requires q in s.sessions && s.sessions[q].pc.Check?
    ensures var s' := Next(s, Advance(q));
            && s' == s.(sessions := s'.sessions) && s'.sessions.Keys == s.sessions.Keys
            && (s'.sessions[q].pc.Debit? || s'.sessions[q].pc.Rollback?)
            && forall r | r in s.sessions && r != q :: s'.sessions[r] == s.sessions[r]
  {
  }

  lemma RollbackEnds(s: State, q: ReqId)
    requires q in s.sessions && s.sessions[q].pc.Rollback?
    ensures Ended(s, Next(s, Advance(q)), q)
  {
  }

  lemma VictimEnds(s: State, q: ReqId)
    requires Reachable(s) && q in s.sessions && InTx(s.sessions[q].pc)
    ensures Reachable(Aborted(s, q)) && Works(s, Aborted(s, q)) && Ended(s, Aborted(s, q), q)
  {
    hide Reachable, Works, Next;
    WorksNowhere(s);
    var s1 := s;
    if s.sessions[q].pc.Check? {
      s1 := Next(s, Advance(q));
      CheckGoesOn(s, q);
      ReachableNext(s, Advance(q));
      WorksByNext(s, s, Advance(q));
    }
    FailRollsBack(s1, q);
    ReachableNext(s1, Fail(q));
    WorksByNext(s, s1, Fail(q));
    var s2 := Next(s1, Fail(q));
    RollbackEnds(s2, q);
    ReachableNext(s2, Advance(q));
    WorksByNext(s, s2, Advance(q));
  }

  /** A row that another request holds becomes free by ending that request's transaction. */
  lemma RowIsFreed(s: State, r: ReqId, u: UserId)
    requires Reachable(s) && HeldByOther(s, r, u)
    ensures s.locks[u] in s.sessions && s.locks[u] != r
    ensures var s' := Aborted(s, s.locks[u]);
            && Reachable(s') && Works(s, s') && Ended(s, s', s.locks[u]) && u !in s'.locks
  {
    hide Reachable, Works, Aborted;
    LockHygiene(s, u);
    VictimEnds(s, s.locks[u]);
  }
}
