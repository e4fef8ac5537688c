/** Coins are neither made nor lost, not even between two statements of a transaction. */
module Conservation {
  import opened Sums
  import opened Ledger
  import opened StoreSystem
  import opened StoreInvariant
  import Refinement

  /** The prices of all purchases of all users. */
  function TotalSpent(goods: Catalogue, rows: seq<Purchase>): int
  {
    if rows == [] then 0 else TotalSpent(goods, Front(rows)) + Price(goods, Last(rows).good)
  }

  lemma {:induction false} TotalSpentNonNegative(goods: Catalogue, rows: seq<Purchase>)
    requires forall i | 0 <= i < |rows| :: 0 <= Price(goods, rows[i].good)
    ensures 0 <= TotalSpent(goods, rows)
  {
    if rows != [] {
      assert Last(rows) == rows[|rows| - 1];
      TotalSpentNonNegative(goods, Front(rows));
    }
  }

  lemma MoveConserves(b: map<UserId, int>, from: UserId, to: UserId, amount: int)
    requires from in b && to in b && from != to
    ensures var b' := b[from := b[from] - amount][to := b[to] + amount];
            Sum(b') == Sum(b) && |b'| == |b|
  {
    var debited := b[from := b[from] - amount];
    SumUpdate(b, from, b[from] - amount);
    SumUpdate(debited, to, b[to] + amount);
    assert debited.Keys == b.Keys && debited[to := b[to] + amount].Keys == b.Keys;
  }

  lemma TotalSpentAppend(goods: Catalogue, rows: seq<Purchase>, p: Purchase)
    ensures TotalSpent(goods, rows + [p]) == TotalSpent(goods, rows) + Price(goods, p.good)
  {
    assert Front(rows + [p]) == rows && Last(rows + [p]) == p;
  }

  lemma BuyConserves(goods: Catalogue, b: map<UserId, int>, rows: seq<Purchase>, p: Purchase)
    requires p.user in b
    ensures var b' := b[p.user := b[p.user] - Price(goods, p.good)];
            Sum(b') + TotalSpent(goods, rows + [p]) == Sum(b) + TotalSpent(goods, rows) && |b'| == |b|
  {
    TotalSpentAppend(goods, rows, p);
    hide TotalSpent, Price;
    var b' := b[p.user := b[p.user] - Price(goods, p.good)];
    SumUpdate(b, p.user, b[p.user] - Price(goods, p.good));
    assert b'.Keys == b.Keys;
  }

  lemma OpenConserves(b: map<UserId, int>, user: UserId)
    requires user !in b
    ensures var b' := b[user := START_BALANCE];
            Sum(b') == Sum(b) + START_BALANCE && |b'| == |b| + 1
  {
    var b' := b[user := START_BALANCE];
    SumUpdate(b, user, START_BALANCE);
    assert b'.Keys == b.Keys + {user};
  }

  lemma ApplyConserves(goods: Catalogue, t: Tables, op: Op)
    requires Sum(t.balances) + TotalSpent(goods, t.purchases) == START_BALANCE * |t.balances|
    ensures var t' := Apply(goods, t, op);
            Sum(t'.balances) + TotalSpent(goods, t'.purchases) == START_BALANCE * |t'.balances|
  {
    hide TotalSpent, Sum, Price;
    if Judge(goods, t, op) == Accepted {
      match op {
        case Open(user) => OpenConserves(t.balances, user);
        case Move(r) => MoveConserves(t.balances, r.from, r.to, r.amount);
        case Buy(p) => BuyConserves(goods, t.balances, t.purchases, p);
      }
    }
  }

  /** What is owned and what has been spent is what the accounts were opened with. */
  lemma {:induction false} LedgerConserves(goods: Catalogue, ops: seq<Op>)
    ensures var t := Replay(goods, ops);
            Sum(t.balances) + TotalSpent(goods, t.purchases) == START_BALANCE * |t.balances|
  {
    hide Judge, Apply, TotalSpent;
    if ops == [] {
      assert TotalSpent(goods, []) == 0 by { NothingSpent(goods); }
    } else {
      LedgerConserves(goods, Front(ops));
      ApplyConserves(goods, Replay(goods, Front(ops)), Last(ops));
    }
  }

  lemma NothingSpent(goods: Catalogue)
    ensures TotalSpent(goods, []) == 0
  {
  }

  // ---- Money in flight ----

  /** The row as its lock owner would read it, if the owner is one of the given requests; else as committed. */
  function RowFor(s: State, who: set<ReqId>, u: UserId): int
    requires u in s.tables.balances
  {
    if u in s.locks && s.locks[u] in who && s.locks[u] in s.sessions && u in s.sessions[s.locks[u]].tx.writes
    then s.sessions[s.locks[u]].tx.writes[u]
    else s.tables.balances[u]
  }

  function RowsFor(s: State, who: set<ReqId>): map<UserId, int>
  {
    map u | u in s.tables.balances :: RowFor(s, who, u)
  }

  /** The newest version of every row, committed or not. */
  function CurrentRows(s: State): map<UserId, int>
  {
    RowsFor(s, s.sessions.Keys)
  }

  /** Debited by a transfer and not yet credited. */
  function InFlight(ss: Session): int
  {
    if ss.job.Some? && ss.job.value.Move? && Debited(ss) && !Credited(ss) then ss.due else 0
  }

  /** Debited by a purchase that has not committed. */
  function Staged(ss: Session): int
  {
    if ss.job.Some? && ss.job.value.Buy? && Debited(ss) then ss.due else 0
  }

  function FlightsOf(s: State, who: set<ReqId>): map<ReqId, int>
  {
    map r | r in who && r in s.sessions :: InFlight(s.sessions[r])
  }

  function StagedBy(s: State, who: set<ReqId>): map<ReqId, int>
  {
    map r | r in who && r in s.sessions :: Staged(s.sessions[r])
  }

  /** One more request changes the view of the rows that it has written, which were seen as committed before. */
  lemma RowSeen(s: State, who: set<ReqId>, r: ReqId, u: UserId)
    requires Inv(s) && r in s.sessions && r !in who && u in s.tables.balances
    ensures u in s.sessions[r].tx.writes ==>
              RowFor(s, who, u) == s.tables.balances[u] && RowFor(s, who + {r}, u) == s.sessions[r].tx.writes[u]
    ensures u !in s.sessions[r].tx.writes ==> RowFor(s, who + {r}, u) == RowFor(s, who, u)
  {
    WritesAreOwn(s, r);
  }

  /** Taking the writes of one more request into account moves coins between the rows and the flight. */
  lemma OneMore(s: State, who: set<ReqId>, r: ReqId)
    requires Inv(s) && r in s.sessions && r !in who
    ensures Sum(RowsFor(s, who + {r})) + InFlight(s.sessions[r]) + Staged(s.sessions[r]) == Sum(RowsFor(s, who))
  {
    var ss, before, after := s.sessions[r], RowsFor(s, who), RowsFor(s, who + {r});
    WritesAreOwn(s, r);
    hide Inv, RowFor;
    forall u | u in s.tables.balances
      ensures after[u] == if u in ss.tx.writes then ss.tx.writes[u] else before[u]
      ensures u in ss.tx.writes ==> before[u] == s.tables.balances[u]
    {
      RowSeen(s, who, r, u);
    }
    if ss.tx.writes == map[] {
      assert after == before;
    } else {
      var op := ss.job.value;
      var debited := before[Payer(op) := before[Payer(op)] - ss.due];
      SumUpdate(before, Payer(op), before[Payer(op)] - ss.due);
      if Credited(ss) {
        assert after == debited[op.transfer.to := debited[op.transfer.to] + ss.due];
        SumUpdate(debited, op.transfer.to, debited[op.transfer.to] + ss.due);
      } else {
        assert after == debited;
      }
    }
  }

  lemma WritesAreOwn(s: State, r: ReqId)
    requires Inv(s) && r in s.sessions
    ensures var ss := s.sessions[r];
            && (forall u | u in ss.tx.writes :: u in s.tables.balances && u in s.locks && s.locks[u] == r)
            && (ss.tx.writes != map[] ==> ss.job.Some? && Debited(ss) && !ss.job.value.Open?)
            && (ss.job.Some? ==> forall u | u in ss.tx.writes ::
                  u == Payer(ss.job.value) || (Credited(ss) && u == ss.job.value.transfer.to))
            && (ss.job.Some? && Debited(ss) ==> ss.tx.writes[Payer(ss.job.value)] == s.tables.balances[Payer(ss.job.value)] - ss.due)
            && (ss.job.Some? && Credited(ss) ==>
                  && Debited(ss) && ss.job.value.transfer.to != Payer(ss.job.value)
                  && ss.tx.writes[ss.job.value.transfer.to] == s.tables.balances[ss.job.value.transfer.to] + ss.due)
  {
    InvAt(s, r);
    var ss := s.sessions[r];
    if ss.tx.writes != map[] {
      var u := SomeKey(ss.tx.writes);
      assert u == Payer(ss.job.value) || Credited(ss);
    }
  }

  lemma NobodyWrites(s: State)
    ensures RowsFor(s, {}) == s.tables.balances && FlightsOf(s, {}) == map[] && StagedBy(s, {}) == map[]
  {
  }

  lemma {:induction false} FlightBalances(s: State, who: set<ReqId>)
    requires Inv(s) && who <= s.sessions.Keys
    ensures Sum(RowsFor(s, who)) + Sum(FlightsOf(s, who)) + Sum(StagedBy(s, who)) == Sum(s.tables.balances)
    decreases |who|
  {
    hide Inv, InFlight, Staged, RowsFor;
    if who == {} {
      NobodyWrites(s);
    } else {
      var r :| r in who;
      var less := who - {r};
      FlightBalances(s, less);
      OneMore(s, less, r);
      assert less + {r} == who;
      assert FlightsOf(s, who) == FlightsOf(s, less)[r := InFlight(s.sessions[r])];
      assert StagedBy(s, who) == StagedBy(s, less)[r := Staged(s.sessions[r])];
      SumUpdate(FlightsOf(s, less), r, InFlight(s.sessions[r]));
      SumUpdate(StagedBy(s, less), r, Staged(s.sessions[r]));
    }
  }

  /**
   Conservation with money in flight: in every state that any interleaving reaches, in the middle of
   transactions and on the way to a rollback included, the current rows, the coins between debit and
   credit and all spending add up to the opening balances.
   */
  lemma CoinsAreConserved(s: State)
    requires Reachable(s)
    ensures var all := s.sessions.Keys;
            Sum(CurrentRows(s)) + Sum(FlightsOf(s, all)) + Sum(StagedBy(s, all)) + TotalSpent(s.goods, s.tables.purchases)
            == START_BALANCE * |s.tables.balances|
  {
    Refinement.ReachableSerialized(s);
    hide Inv, RowsFor, FlightsOf, StagedBy, TotalSpent;
    FlightBalances(s, s.sessions.Keys);
    LedgerConserves(s.goods, Refinement.Ops(s.journal));
  }

  /** No row version, committed or not, is ever negative: the CHECK constraint has nothing to catch. */
  lemma NoOverdraft(s: State, u: UserId)
    requires Reachable(s) && u in s.tables.balances
    ensures 0 <= CurrentRows(s)[u] && 0 <= s.tables.balances[u]
  {
    ReachableInv(s);
    if u in s.locks && u in s.sessions[s.locks[u]].tx.writes {
      InvAt(s, s.locks[u]);
      WritesAreOwn(s, s.locks[u]);
    }
  }

  lemma FlightNonNegative(s: State, r: ReqId)
    requires Inv(s) && r in s.sessions
    ensures 0 <= InFlight(s.sessions[r]) && 0 <= Staged(s.sessions[r])
  {
    InvAt(s, r);
  }

  /** No single holding exceeds what all accounts were opened with, even with a transfer about to be added. */
  lemma HoldingsAreBounded(s: State, r: ReqId, u: UserId)
    requires Reachable(s) && r in s.sessions && u in s.tables.balances
    ensures CurrentRows(s)[u] + InFlight(s.sessions[r]) <= START_BALANCE * |s.tables.balances|
  {
    ReachableInv(s);
    var all := s.sessions.Keys;
    forall v | v in CurrentRows(s) ensures 0 <= CurrentRows(s)[v] { NoOverdraft(s, v); }
    forall q | q in s.sessions ensures 0 <= InFlight(s.sessions[q]) && 0 <= Staged(s.sessions[q]) { FlightNonNegative(s, q); }
    TotalSpentNonNegative(s.goods, s.tables.purchases);
    CoinsAreConserved(s);
    hide Inv, Reachable, InFlight, Staged, RowFor;
    SumBounds(CurrentRows(s), u);
    SumBounds(FlightsOf(s, all), r);
    SumNonNegative(StagedBy(s, all));
  }

  /** With at most this many accounts, all coins together fit one INTEGER. */
  const SAFE_ACCOUNTS: nat := 2_147_483

  /** While there are few enough accounts, the credit that is not blocked always goes through. */
  lemma CreditFits(s: State, r: ReqId)
    requires Reachable(s) && r in s.sessions && s.sessions[r].pc.Credit?
    requires |s.tables.balances| <= SAFE_ACCOUNTS
    ensures s.sessions[r].job.Some? && s.sessions[r].job.value.Move?
    ensures var t := s.sessions[r].job.value.transfer;
            && t.to in s.tables.balances
            && CurrentRows(s)[t.to] + t.amount <= INT_MAX
            && (!HeldByOther(s, r, t.to) ==> Next(s, Advance(r)).sessions[r].pc == Record)
  {
    Refinement.CreditNeverMisses(s, r);
    ReachableInv(s);
    InvAt(s, r);
    HoldingsAreBounded(s, r, s.sessions[r].job.value.transfer.to);
  }

  // ---- Double entry ----

  function TotalMoved(rows: seq<Transfer>): int
  {
    if rows == [] then 0 else TotalMoved(Front(rows)) + Last(rows).amount
  }

  function SentBy(rows: seq<Transfer>, users: set<UserId>): map<UserId, int>
  {
    map u | u in users :: Sent(rows, u)
  }

  function ReceivedBy(rows: seq<Transfer>, users: set<UserId>): map<UserId, int>
  {
    map u | u in users :: Received(rows, u)
  }

  lemma OneMoreRow(rows: seq<Transfer>, users: set<UserId>)
    requires rows != [] && Last(rows).from in users && Last(rows).to in users
    ensures Sum(SentBy(rows, users)) == Sum(SentBy(Front(rows), users)) + Last(rows).amount
    ensures Sum(ReceivedBy(rows, users)) == Sum(ReceivedBy(Front(rows), users)) + Last(rows).amount
  {
    hide Sum;
    var out, into, row := SentBy(Front(rows), users), ReceivedBy(Front(rows), users), Last(rows);
    assert SentBy(rows, users) == out[row.from := out[row.from] + row.amount];
    SumUpdate(out, row.from, out[row.from] + row.amount);
    assert ReceivedBy(rows, users) == into[row.to := into[row.to] + row.amount];
    SumUpdate(into, row.to, into[row.to] + row.amount);
  }

  /** Each row is counted once with its sender and once with its recipient. */
  lemma {:induction false} RowsAreDoubleEntry(rows: seq<Transfer>, users: set<UserId>)
    requires forall i | 0 <= i < |rows| :: rows[i].from in users && rows[i].to in users
    ensures Sum(SentBy(rows, users)) == Sum(ReceivedBy(rows, users)) == TotalMoved(rows)
  {
    hide Sum;
    if rows == [] {
      SumOfZeros(SentBy(rows, users));
      SumOfZeros(ReceivedBy(rows, users));
    } else {
      assert Last(rows) == rows[|rows| - 1];
      RowsAreDoubleEntry(Front(rows), users);
      OneMoreRow(rows, users);
    }
  }

  /**
   Double entry in every reachable state: all that was sent was received, no row has the same user on
   both sides, and every amount fits the uint32 and int32 types that carry it to the report.
   */
  lemma DoubleEntry(s: State)
    requires Reachable(s)
    ensures var rows, users := s.tables.transactions, s.tables.balances.Keys;
            && Sum(SentBy(rows, users)) == Sum(ReceivedBy(rows, users)) == TotalMoved(rows)
            && (forall i | 0 <= i < |rows| :: rows[i].from != rows[i].to && 0 <= rows[i].amount <= INT_MAX)
  {
    ReachableInv(s);
    assert forall i | 0 <= i < |s.tables.transactions| :: SoundTransfer(s.tables, s.tables.transactions[i]);
    RowsAreDoubleEntry(s.tables.transactions, s.tables.balances.Keys);
  }
}
