/**
 The report and the ledger: what a report adds up to, depending on the committed states in which its
 four queries ran, and when it agrees with itself.
 */
module EndToEnd {
  import opened Ledger
  import opened StoreSystem
  import opened StoreInvariant
  import opened AuthSystem
  import opened Platform
  import opened Report
  import Conservation
  import Outcomes
  import Refinement
  import SerialIds

  // ---- What the queries select ----

  datatype Side = Outgoing | Incoming

  predicate Concerns(t: Transfer, user: UserId, side: Side)
  {
    if side.Outgoing? then t.from == user else t.to == user
  }

  /** The rows WHERE from_user_id = user, or WHERE to_user_id = user. */
  function Selected(rows: seq<Transfer>, user: UserId, side: Side): (selected: seq<Transfer>)
    ensures forall t | t in selected :: t in rows && Concerns(t, user, side)
  {
    if rows == [] then []
    else Selected(Front(rows), user, side) + (if Concerns(Last(rows), user, side) then [Last(rows)] else [])
  }

  function IsOf(goods: Catalogue, row: Purchase, user: UserId, name: string): bool
  {
    row.user == user && row.good in goods && goods[row.good].name == name
  }

  /** COUNT(*) of the user's purchases joined with the goods of this name. */
  function CountOf(goods: Catalogue, rows: seq<Purchase>, user: UserId, name: string): (n: nat)
    ensures n <= |rows|
  {
    if rows == [] then 0
    else CountOf(goods, Front(rows), user, name) + (if IsOf(goods, Last(rows), user, name) then 1 else 0)
  }

  ghost predicate ReadsBalance(row: Option<int>, s: State, user: UserId)
  {
    row.Some? ==> user in s.tables.balances && row.value == s.tables.balances[user]
  }

  /** The rows come in any order; an iteration that breaks off has delivered some of them. */
  ghost predicate ReadsTransfers(query: Option<Cursor<Transfer>>, s: State, user: UserId, side: Side)
  {
    query.Some? ==>
      var all := multiset(Selected(s.tables.transactions, user, side));
      multiset(query.value.rows) <= all && (!query.value.failed ==> multiset(query.value.rows) == all)
  }

  predicate HasName(rows: seq<Counted>, name: string)
  {
    exists i :: 0 <= i < |rows| && rows[i].name == name
  }

  /** One group per name in any order; an iteration that breaks off has delivered some of the groups. */
  ghost predicate ReadsPurchases(query: Option<Cursor<Counted>>, s: State, user: UserId)
  {
    query.Some? ==>
      var rows := query.value.rows;
      && DistinctNames(rows)
      && (forall i | 0 <= i < |rows| :: rows[i].count == CountOf(s.goods, s.tables.purchases, user, rows[i].name) > 0)
      && (!query.value.failed ==>
            forall name :: CountOf(s.goods, s.tables.purchases, user, name) > 0 ==> HasName(rows, name))
  }

  /** The committed states that the four queries see. */
  datatype Moments = Moments(balance: State, purchases: State, sent: State, received: State)

  ghost predicate ReadsAt(got: Reads, at: Moments, user: UserId)
  {
    && Reachable(at.balance) && Reachable(at.purchases) && Reachable(at.sent) && Reachable(at.received)
    && at.balance.goods == at.purchases.goods == at.sent.goods == at.received.goods
    && ReadsBalance(got.balance, at.balance, user)
    && ReadsPurchases(got.purchases, at.purchases, user)
    && ReadsTransfers(got.outcoming, at.sent, user, Outgoing)
    && ReadsTransfers(got.incoming, at.received, user, Incoming)
  }

  // ---- Sums over the report ----

  function SumSent(list: seq<SentTransfer>): int
  {
    if list == [] then 0 else SumSent(Front(list)) + Last(list).amount
  }

  function SumReceived(list: seq<ReceivedTransfer>): int
  {
    if list == [] then 0 else SumReceived(Front(list)) + Last(list).amount
  }

  function PriceOf(goods: Catalogue, name: string): int
  {
    match FindGood(goods, name)
    case None => 0
    case Some(g) => Price(goods, g)
  }

  /** What an inventory has cost: price times quantity, summed up. */
  function Value(goods: Catalogue, items: seq<Item>): int
  {
    if items == [] then 0 else Value(goods, Front(items)) + PriceOf(goods, Last(items).name) * Last(items).quantity
  }

  /** The balance is the opening balance, plus what came in, less what went out and what was spent. */
  predicate Reconciled(goods: Catalogue, report: UserInfo)
  {
    report.balance == START_BALANCE + SumReceived(report.received) - SumSent(report.sent) - Value(goods, report.inventory)
  }

  // ---- The transfer lists add up to the ledger's totals ----

  /** Sent or Received. */
  function Moved(rows: seq<Transfer>, user: UserId, side: Side): int
  {
    if side.Outgoing? then Sent(rows, user) else Received(rows, user)
  }

  lemma {:induction false} SelectedTotal(rows: seq<Transfer>, user: UserId, side: Side)
    ensures Conservation.TotalMoved(Selected(rows, user, side)) == Moved(rows, user, side)
  {
    if rows != [] {
      var front := Selected(Front(rows), user, side);
      SelectedTotal(Front(rows), user, side);
      if Concerns(Last(rows), user, side) {
        TotalAppend(front, Last(rows));
      } else {
        assert front + [] == front;
      }
      hide Conservation.TotalMoved;
    }
  }

  /** A record is selected as often as it is there, for the user it concerns, and for nobody else. */
  lemma {:induction false} SelectedOnce(rows: seq<Transfer>, t: Transfer, user: UserId, side: Side)
    ensures multiset(Selected(rows, user, side))[t] == if Concerns(t, user, side) then multiset(rows)[t] else 0
  {
    if rows != [] {
      SelectedOnce(Front(rows), t, user, side);
      assert multiset(rows) == multiset(Front(rows)) + multiset{Last(rows)};
    }
  }

  /**
   Double entry, record by record: each committed transfer is outgoing of its sender once, incoming of its
   recipient once, and on no other list; the two always differ.
   */
  lemma RecordsAreDoubleEntry(s: State, t: Transfer, user: UserId)
    requires Reachable(s) && t in s.tables.transactions
    ensures var rows := s.tables.transactions;
            && t.from != t.to
            && multiset(Selected(rows, user, Outgoing))[t] == (if user == t.from then multiset(rows)[t] else 0)
            && multiset(Selected(rows, user, Incoming))[t] == (if user == t.to then multiset(rows)[t] else 0)
  {
    Conservation.DoubleEntry(s);
    hide Reachable;
    SelectedOnce(s.tables.transactions, t, user, Outgoing);
    SelectedOnce(s.tables.transactions, t, user, Incoming);
  }

  lemma TotalAppend(rows: seq<Transfer>, t: Transfer)
    ensures Conservation.TotalMoved(rows + [t]) == Conservation.TotalMoved(rows) + t.amount
  {
    assert Front(rows + [t]) == rows && Last(rows + [t]) == t;
  }

  lemma {:induction false} TotalWithout(rows: seq<Transfer>, k: nat)
    requires k < |rows|
    ensures Conservation.TotalMoved(rows) == Conservation.TotalMoved(rows[..k] + rows[k + 1..]) + rows[k].amount
  {
    if k == |rows| - 1 {
      assert rows[..k] + rows[k + 1..] == Front(rows);
    } else {
      var front := Front(rows);
      TotalWithout(front, k);
      assert rows[..k] + rows[k + 1..] == (front[..k] + front[k + 1..]) + [Last(rows)];
      TotalAppend(front[..k] + front[k + 1..], Last(rows));
    }
  }

  lemma OneLess(a: multiset<Transfer>, b: multiset<Transfer>, t: Transfer)
    requires a + multiset{t} == b + multiset{t}
    ensures a == b
  {
    forall x: Transfer
      ensures a[x] == b[x]
    {
      assert (a + multiset{t})[x] == (b + multiset{t})[x];
    }
  }

  lemma TakeOut(rows: seq<Transfer>, k: nat)
    requires k < |rows|
    ensures multiset(rows) == multiset(rows[..k] + rows[k + 1..]) + multiset{rows[k]}
  {
    assert rows == rows[..k] + [rows[k]] + rows[k + 1..];
  }

  /** The order in which rows arrive does not matter to their total. */
  lemma {:induction false} TotalPermutes(rows: seq<Transfer>, others: seq<Transfer>)
    requires multiset(rows) == multiset(others)
    ensures Conservation.TotalMoved(rows) == Conservation.TotalMoved(others)
  {
    if rows == [] {
      assert |multiset(others)| == 0;
    } else {
      var last := |rows| - 1;
      assert rows[last] in multiset(others);
      var k :| 0 <= k < |others| && others[k] == rows[last];
      TakeOut(rows, last);
      TakeOut(others, k);
      assert rows[..last] + rows[last + 1..] == Front(rows);
      OneLess(multiset(Front(rows)), multiset(others[..k] + others[k + 1..]), rows[last]);
      TotalPermutes(Front(rows), others[..k] + others[k + 1..]);
      TotalWithout(others, k);
    }
  }

  lemma {:induction false} SentAddsUp(list: seq<SentTransfer>, rows: seq<Transfer>)
    requires |list| == |rows| && forall i | 0 <= i < |rows| :: list[i].amount == rows[i].amount
    ensures SumSent(list) == Conservation.TotalMoved(rows)
  {
    if list != [] { SentAddsUp(Front(list), Front(rows)); }
  }

  lemma {:induction false} ReceivedAddsUp(list: seq<ReceivedTransfer>, rows: seq<Transfer>)
    requires |list| == |rows| && forall i | 0 <= i < |rows| :: list[i].amount == rows[i].amount
    ensures SumReceived(list) == Conservation.TotalMoved(rows)
  {
    if list != [] { ReceivedAddsUp(Front(list), Front(rows)); }
  }

  lemma DeliveredIsCommitted(delivered: seq<Transfer>, rows: seq<Transfer>, user: UserId, side: Side, i: nat) returns (k: nat)
    requires multiset(delivered) <= multiset(Selected(rows, user, side)) && i < |delivered|
    ensures k < |rows| && rows[k] == delivered[i] && Concerns(rows[k], user, side)
  {
    assert delivered[i] in multiset(delivered);
    assert delivered[i] in Selected(rows, user, side);
    assert delivered[i] in rows;
    k :| 0 <= k < |rows| && rows[k] == delivered[i];
  }

  lemma IntegerFits(x: int)
    requires 0 <= x <= INT_MAX
    ensures U32(x) == x
  {
  }

  lemma CommittedAmountsFit(s: State)
    requires Reachable(s)
    ensures forall i | 0 <= i < |s.tables.transactions| :: U32(s.tables.transactions[i].amount) == s.tables.transactions[i].amount
  {
    Conservation.DoubleEntry(s);
    hide Reachable, Conservation.SentBy, Conservation.ReceivedBy, Conservation.TotalMoved, U32;
    forall i | 0 <= i < |s.tables.transactions|
      ensures U32(s.tables.transactions[i].amount) == s.tables.transactions[i].amount
    {
      IntegerFits(s.tables.transactions[i].amount);
    }
  }

  /** The rows that a query delivers are the user's, and the conversion to uint32 loses nothing. */
  lemma AmountsFit(query: Option<Cursor<Transfer>>, s: State, user: UserId, side: Side)
    requires Reachable(s) && ReadsTransfers(query, s, user, side) && query.Some?
    ensures forall i | 0 <= i < |query.value.rows| ::
              && query.value.rows[i] in s.tables.transactions && Concerns(query.value.rows[i], user, side)
              && U32(query.value.rows[i].amount) == query.value.rows[i].amount
  {
    CommittedAmountsFit(s);
    hide Reachable, U32, Selected, Concerns;
    forall i | 0 <= i < |query.value.rows|
      ensures query.value.rows[i] in s.tables.transactions && Concerns(query.value.rows[i], user, side)
           && U32(query.value.rows[i].amount) == query.value.rows[i].amount
    {
      var k := DeliveredIsCommitted(query.value.rows, s.tables.transactions, user, side, i);
    }
  }

  // ---- The inventory adds up to what was spent on the goods it lists ----

  predicate Shows(items: seq<Item>, name: string)
  {
    exists i :: 0 <= i < |items| && items[i].name == name
  }

  /** What the user has spent on the goods that the inventory lists. */
  function SpentOn(goods: Catalogue, rows: seq<Purchase>, user: UserId, items: seq<Item>): int
  {
    if rows == [] then 0
    else
      var p := Last(rows);
      SpentOn(goods, Front(rows), user, items)
      + (if p.user == user && p.good in goods && Shows(items, goods[p.good].name) then Price(goods, p.good) else 0)
  }

  /** Price times count, over the names of the items. */
  function Worth(goods: Catalogue, rows: seq<Purchase>, user: UserId, items: seq<Item>): int
  {
    if items == [] then 0
    else Worth(goods, rows, user, Front(items)) + PriceOf(goods, Last(items).name) * CountOf(goods, rows, user, Last(items).name)
  }

  lemma PriceOfGood(goods: Catalogue, g: int)
    requires g in goods
    ensures PriceOf(goods, goods[g].name) == Price(goods, g)
  {
  }

  predicate Apart(items: seq<Item>)
  {
    forall i, j | 0 <= i < j < |items| :: items[i].name != items[j].name
  }

  lemma ShowsLast(items: seq<Item>, name: string)
    requires items != []
    ensures Shows(items, name) <==> Shows(Front(items), name) || Last(items).name == name
  {
    if i :| 0 <= i < |items| && items[i].name == name {
      assert i < |items| - 1 ==> Front(items)[i].name == name;
    }
    if i :| 0 <= i < |Front(items)| && Front(items)[i].name == name {
      assert items[i].name == name;
    }
    assert items[|items| - 1] == Last(items);
  }

  lemma OneMore(price: int, count: nat)
    ensures price * (count + 1) == price * count + price
  {
  }

  /** One more purchase raises the worth by its price, if the good is among the names. */
  lemma {:induction false} WorthOfOneMore(goods: Catalogue, rows: seq<Purchase>, user: UserId, items: seq<Item>)
    requires rows != [] && Apart(items)
    ensures var p := Last(rows);
            Worth(goods, rows, user, items) == Worth(goods, Front(rows), user, items)
            + (if p.user == user && p.good in goods && Shows(items, goods[p.good].name) then Price(goods, p.good) else 0)
  {
    if items != [] {
      var p, front, item := Last(rows), Front(items), Last(items);
      WorthOfOneMore(goods, rows, user, front);
      OneMore(PriceOf(goods, item.name), CountOf(goods, Front(rows), user, item.name));
      if p.good in goods {
        PriceOfGood(goods, p.good);
        ShowsLast(items, goods[p.good].name);
      }
      assert !Shows(front, item.name);
      hide PriceOf, Price, Shows, Apart;
    }
  }

  lemma {:induction false} WorthOfNothing(goods: Catalogue, user: UserId, items: seq<Item>)
    ensures Worth(goods, [], user, items) == 0
  {
    if items != [] { WorthOfNothing(goods, user, Front(items)); }
  }

  lemma {:induction false} WorthIsSpent(goods: Catalogue, rows: seq<Purchase>, user: UserId, items: seq<Item>)
    requires Apart(items)
    ensures Worth(goods, rows, user, items) == SpentOn(goods, rows, user, items)
  {
    hide Worth, Apart, Shows;
    if rows == [] {
      WorthOfNothing(goods, user, items);
    } else {
      WorthIsSpent(goods, Front(rows), user, items);
      WorthOfOneMore(goods, rows, user, items);
    }
  }

  lemma {:induction false} ValueIsWorth(goods: Catalogue, rows: seq<Purchase>, user: UserId, items: seq<Item>)
    requires forall i | 0 <= i < |items| :: items[i].quantity == CountOf(goods, rows, user, items[i].name)
    ensures Value(goods, items) == Worth(goods, rows, user, items)
  {
    if items != [] {
      hide CountOf, PriceOf;
      ValueIsWorth(goods, rows, user, Front(items));
    }
  }

  /** The counts stay within an INTEGER, so that the conversion to uint32 loses nothing. */
  lemma QuantityIsCount(query: Option<Cursor<Counted>>, s: State, user: UserId, items: seq<Item>, i: nat)
    requires Reachable(s) && ReadsPurchases(query, s, user) && query.Some? && Inventory(items, query.value.rows) && i < |items|
    ensures items[i].quantity == CountOf(s.goods, s.tables.purchases, user, items[i].name)
  {
    var rows := query.value.rows;
    SerialIds.RowsAreNumbered(s);
    hide Reachable, DistinctNames, HasName, U32;
    assert Counting(rows, items[i]);
    var j :| 0 <= j < |rows| && ItemOf(items[i], rows[j]);
    IntegerFits(rows[j].count);
  }

  /** An inventory's quantities multiply up to what was spent on the goods it lists. */
  lemma InventoryAddsUp(query: Option<Cursor<Counted>>, s: State, user: UserId, items: seq<Item>)
    requires Reachable(s) && ReadsPurchases(query, s, user) && query.Some? && Inventory(items, query.value.rows)
    ensures Value(s.goods, items) == SpentOn(s.goods, s.tables.purchases, user, items)
  {
    hide Reachable, ReadsPurchases, CountOf, Counting, Itemized;
    forall i | 0 <= i < |items|
      ensures items[i].quantity == CountOf(s.goods, s.tables.purchases, user, items[i].name)
    {
      QuantityIsCount(query, s, user, items, i);
    }
    ValueIsWorth(s.goods, s.tables.purchases, user, items);
    WorthIsSpent(s.goods, s.tables.purchases, user, items);
  }

  // ---- What a report adds up to ----

  /** Everything in a report is exact for the moment at which it was read. */
  lemma ReportIsExact(users: seq<UserRow>, got: Reads, report: UserInfo, at: Moments, user: UserId)
    requires ReadsAt(got, at, user) && Delivered(got) && Reports(users, got, report)
    ensures report.balance == Statement(at.balance.goods, at.balance.tables, user) == at.balance.tables.balances[user]
    ensures SumSent(report.sent) == Sent(at.sent.tables.transactions, user)
    ensures SumReceived(report.received) == Received(at.received.tables.transactions, user)
    ensures var goods, purchases := at.purchases.goods, at.purchases.tables.purchases;
            && Value(goods, report.inventory) == SpentOn(goods, purchases, user, report.inventory)
            && (!got.purchases.value.failed ==> Value(goods, report.inventory) == Spent(goods, purchases, user))
  {
    Refinement.BalancesReconcile(at.balance, user);
    InventoryAddsUp(got.purchases, at.purchases, user, report.inventory);
    ListsAddUp(users, got, report, at, user);
    if !got.purchases.value.failed {
      AllIsListed(got.purchases, at.purchases, user, report.inventory);
    }
  }

  lemma ListsAddUp(users: seq<UserRow>, got: Reads, report: UserInfo, at: Moments, user: UserId)
    requires ReadsAt(got, at, user) && Delivered(got) && Reports(users, got, report)
    ensures SumSent(report.sent) == Sent(at.sent.tables.transactions, user)
    ensures SumReceived(report.received) == Received(at.received.tables.transactions, user)
  {
    AmountsFit(got.outcoming, at.sent, user, Outgoing);
    AmountsFit(got.incoming, at.received, user, Incoming);
    hide Reachable, U32, Known, Inventory, ReadsBalance, ReadsPurchases, Selected, Concerns;
    SentAddsUp(report.sent, got.outcoming.value.rows);
    ReceivedAddsUp(report.received, got.incoming.value.rows);
    TotalPermutes(got.outcoming.value.rows, Selected(at.sent.tables.transactions, user, Outgoing));
    TotalPermutes(got.incoming.value.rows, Selected(at.received.tables.transactions, user, Incoming));
    SelectedTotal(at.sent.tables.transactions, user, Outgoing);
    SelectedTotal(at.received.tables.transactions, user, Incoming);
  }

  /** What the user has spent on goods that the inventory does not list. */
  function Unlisted(goods: Catalogue, rows: seq<Purchase>, user: UserId, items: seq<Item>): int
  {
    Spent(goods, rows, user) - SpentOn(goods, rows, user, items)
  }

  /** The purchases that the inventory misses are worth something, unless they were free. */
  lemma {:induction false} UnlistedIsSpent(goods: Catalogue, rows: seq<Purchase>, user: UserId, items: seq<Item>)
    requires forall i | 0 <= i < |rows| :: rows[i].good in goods && 0 <= Price(goods, rows[i].good)
    ensures 0 <= Unlisted(goods, rows, user, items)
    ensures Unlisted(goods, rows, user, items) == 0 <==>
              forall i | 0 <= i < |rows| && rows[i].user == user ::
                Shows(items, goods[rows[i].good].name) || Price(goods, rows[i].good) == 0
  {
    hide Shows, Price;
    if rows != [] {
      var n := |rows| - 1;
      UnlistedIsSpent(goods, Front(rows), user, items);
      assert forall i | 0 <= i < n :: Front(rows)[i] == rows[i];
      assert Last(rows) == rows[n];
    }
  }

  lemma {:induction false} CountedOnce(goods: Catalogue, rows: seq<Purchase>, user: UserId, i: nat)
    requires i < |rows| && rows[i].user == user && rows[i].good in goods
    ensures CountOf(goods, rows, user, goods[rows[i].good].name) > 0
  {
    if i < |rows| - 1 { CountedOnce(goods, Front(rows), user, i); }
  }

  /** An iteration that runs to its end lists every good the user has bought. */
  lemma AllIsListed(query: Option<Cursor<Counted>>, s: State, user: UserId, items: seq<Item>)
    requires Reachable(s) && ReadsPurchases(query, s, user) && query.Some? && Inventory(items, query.value.rows)
    requires !query.value.failed
    ensures Unlisted(s.goods, s.tables.purchases, user, items) == 0
  {
    var rows, purchases := query.value.rows, s.tables.purchases;
    PurchasesAreSound(s);
    hide Reachable, Unlisted, CountOf;
    forall i | 0 <= i < |purchases| && purchases[i].user == user
      ensures Shows(items, s.goods[purchases[i].good].name)
    {
      var name := s.goods[purchases[i].good].name;
      CountedOnce(s.goods, purchases, user, i);
      assert HasName(rows, name);
      var j :| 0 <= j < |rows| && rows[j].name == name;
      assert Itemized(items, rows[j]);
      var k :| 0 <= k < |items| && ItemOf(items[k], rows[j]);
      assert items[k].name == name;
    }
    UnlistedIsSpent(s.goods, purchases, user, items);
  }

  lemma PurchasesAreSound(s: State)
    requires Reachable(s)
    ensures forall i | 0 <= i < |s.tables.purchases| ::
              s.tables.purchases[i].good in s.goods && 0 <= Price(s.goods, s.tables.purchases[i].good)
  {
    ReachableInv(s);
    hide Reachable, Price;
    assert forall i | 0 <= i < |s.tables.purchases| :: SoundPurchase(s.goods, s.tables, s.tables.purchases[i]);
  }

  // ---- When a report agrees with itself ----

  predicate Touches(op: Op, user: UserId)
  {
    match op
    case Open(u) => u == user
    case Move(t) => t.from == user || t.to == user
    case Buy(p) => p.user == user
  }

  /** From s to s' nothing was committed that touches the user. */
  ghost predicate Quiet(s: State, s': State, user: UserId)
  {
    Leads(s, s') && forall i | |s.journal| <= i < |s'.journal| :: !Touches(s'.journal[i].op, user)
  }

  /** What the rows say of a user: the coins sent, received and spent. */
  datatype Totals = Totals(sent: int, received: int, spent: int)

  function Plus(a: Totals, b: Totals): Totals
  {
    Totals(a.sent + b.sent, a.received + b.received, a.spent + b.spent)
  }

  function TotalsOf(goods: Catalogue, t: Tables, user: UserId): Totals
  {
    Totals(Sent(t.transactions, user), Received(t.transactions, user), Spent(goods, t.purchases, user))
  }

  function FlowOf(goods: Catalogue, op: Op, user: UserId): Totals
  {
    match op
    case Open(_) => Totals(0, 0, 0)
    case Move(t) => Totals(if t.from == user then t.amount else 0, if t.to == user then t.amount else 0, 0)
    case Buy(p) => Totals(0, 0, if p.user == user then Price(goods, p.good) else 0)
  }

  /** What the user has sent, received and spent by these commits. */
  function Flow(goods: Catalogue, entries: seq<Entry>, user: UserId): Totals
  {
    if entries == [] then Totals(0, 0, 0)
    else Plus(Flow(goods, Front(entries), user), FlowOf(goods, Last(entries).op, user))
  }

  lemma FlowOfOne(goods: Catalogue, t: Tables, op: Op, user: UserId)
    requires Judge(goods, t, op) == Accepted
    ensures TotalsOf(goods, Apply(goods, t, op), user) == Plus(TotalsOf(goods, t, user), FlowOf(goods, op, user))
  {
    hide Judge, Sent, Received, Spent, Price;
    match op {
      case Open(_) =>
      case Move(row) => SentAppend(t.transactions, row, user);
      case Buy(row) => SpentAppend(goods, t.purchases, row, user);
    }
  }

  lemma {:induction false} FlowAdds(goods: Catalogue, older: seq<Entry>, newer: seq<Entry>, user: UserId)
    requires Serial(goods, Refinement.Ops(older + newer))
    ensures TotalsOf(goods, Replay(goods, Refinement.Ops(older + newer)), user)
         == Plus(TotalsOf(goods, Replay(goods, Refinement.Ops(older)), user), Flow(goods, newer, user))
  {
    hide Replay, Serial, TotalsOf, FlowOf, Judge, Apply, Refinement.Ops;
    if newer == [] {
      assert older + newer == older;
    } else {
      var journal, last := older + Front(newer), Last(newer);
      assert older + newer == journal + [last];
      Refinement.OpsAppend(journal, last);
      ReplayAppend(goods, Refinement.Ops(journal), last.op);
      FlowAdds(goods, older, Front(newer), user);
      FlowOfOne(goods, Replay(goods, Refinement.Ops(journal)), last.op, user);
    }
  }

  lemma {:induction false} NoFlowUntouched(goods: Catalogue, entries: seq<Entry>, user: UserId)
    requires forall i | 0 <= i < |entries| :: !Touches(entries[i].op, user)
    ensures Flow(goods, entries, user) == Totals(0, 0, 0)
  {
    if entries != [] {
      assert !Touches(entries[|entries| - 1].op, user);
      NoFlowUntouched(goods, Front(entries), user);
    }
  }

  /** What was committed from s to s'. */
  function Since(s: State, s': State): seq<Entry>
  {
    if s.journal <= s'.journal then s'.journal[|s.journal|..] else []
  }

  lemma SinceCompletes(s: State, s': State)
    requires s.journal <= s'.journal
    ensures s'.journal == s.journal + Since(s, s')
  {
  }

  /** Along a run the journal grows, and the totals by just what flows. */
  lemma FlowBetween(s: State, s': State, user: UserId)
    requires Reachable(s) && Leads(s, s')
    ensures s.journal <= s'.journal && s'.goods == s.goods && Reachable(s')
    ensures TotalsOf(s.goods, s'.tables, user) == Plus(TotalsOf(s.goods, s.tables, user), Flow(s.goods, Since(s, s'), user))
  {
    hide Next, Inv, Reachable, Serial, Replay, TotalsOf, Flow, Since;
    Refinement.ReachableSerialized(s);
    ReachableLeads(s, s');
    var events :| s' == Exec(s, events);
    Refinement.RunIsSerializable(s, events);
    SinceCompletes(s, s');
    FlowAdds(s.goods, s.journal, Since(s, s'), user);
  }

  lemma QuietKeeps(first: State, s: State, last: State, user: UserId)
    requires Reachable(first) && Leads(first, s) && Leads(s, last) && Quiet(first, last, user)
    ensures TotalsOf(first.goods, s.tables, user) == TotalsOf(first.goods, first.tables, user) && s.goods == first.goods
  {
    hide Reachable, Leads, TotalsOf, Flow, Touches;
    FlowBetween(first, s, user);
    FlowBetween(s, last, user);
    var entries := Since(first, s);
    assert forall i | 0 <= i < |entries| :: entries[i] == last.journal[|first.journal| + i];
    NoFlowUntouched(first.goods, entries, user);
  }

  /**
   The exact condition for a report to add up, for any four moments and any purchase iteration: the balance
   is the opening balance plus and less what the other queries have seen, and what the inventory lists.
   */
  lemma ReportReconcilesIff(users: seq<UserRow>, got: Reads, report: UserInfo, at: Moments, user: UserId)
    requires ReadsAt(got, at, user) && Delivered(got) && Reports(users, got, report)
    ensures var goods := at.balance.goods;
            Reconciled(goods, report) <==>
              at.balance.tables.balances[user]
              == START_BALANCE + Received(at.received.tables.transactions, user) - Sent(at.sent.tables.transactions, user)
                 - SpentOn(goods, at.purchases.tables.purchases, user, report.inventory)
  {
    hide Reachable, Reports, Delivered, Value, SpentOn, Sent, Received, Spent, SumSent, SumReceived;
    ReportIsExact(users, got, report, at, user);
  }

  /**
   The same in terms of what is committed while the report is made: for any state before the four reads, the
   net of what the balance has seen since must be what the lists have seen since, each up to its own moment,
   with the spending that the inventory misses added back.
   */
  lemma ReportReconcilesIffFlowsAgree(users: seq<UserRow>, got: Reads, report: UserInfo, at: Moments, user: UserId, first: State)
    requires ReadsAt(got, at, user) && Delivered(got) && Reports(users, got, report) && Reachable(first)
    requires Leads(first, at.balance) && Leads(first, at.purchases) && Leads(first, at.sent) && Leads(first, at.received)
    ensures var goods := first.goods;
            var seen := Flow(goods, Since(first, at.balance), user);
            var received := Flow(goods, Since(first, at.received), user).received;
            var sent := Flow(goods, Since(first, at.sent), user).sent;
            var spent := Flow(goods, Since(first, at.purchases), user).spent;
            Reconciled(goods, report) <==>
              seen.received - seen.sent - seen.spent
              == received - sent - spent + Unlisted(goods, at.purchases.tables.purchases, user, report.inventory)
  {
    hide Reachable, Leads, Reports, Delivered, Value, SpentOn, Sent, Received, Spent, SumSent, SumReceived, Flow, Since, Reconciled;
    ReportReconcilesIff(users, got, report, at, user);
    BalanceIsStatement(got, at, user);
    FlowBetween(first, at.balance, user);
    FlowBetween(first, at.purchases, user);
    FlowBetween(first, at.sent, user);
    FlowBetween(first, at.received, user);
  }

  lemma BalanceIsStatement(got: Reads, at: Moments, user: UserId)
    requires ReadsAt(got, at, user) && Delivered(got)
    ensures user in at.balance.tables.balances
    ensures at.balance.tables.balances[user] == Statement(at.balance.goods, at.balance.tables, user)
  {
    hide Reachable;
    Refinement.BalancesReconcile(at.balance, user);
  }

  /**
   Reconciliation end to end: if nothing that touches the user commits between the first and the last
   of the four reads, and the iteration over the purchases runs to its end, the report adds up.
   */
  lemma ReportReconciles(users: seq<UserRow>, got: Reads, report: UserInfo, at: Moments, user: UserId, first: State, last: State)
    requires ReadsAt(got, at, user) && Delivered(got) && Reports(users, got, report)
    requires Reachable(first) && Quiet(first, last, user) && !got.purchases.value.failed
    requires Leads(first, at.balance) && Leads(first, at.purchases) && Leads(first, at.sent) && Leads(first, at.received)
    requires Leads(at.balance, last) && Leads(at.purchases, last) && Leads(at.sent, last) && Leads(at.received, last)
    ensures Reconciled(first.goods, report)
  {
    hide Reachable, Leads, Quiet, Reports, Delivered, Value, SpentOn, Sent, Received, Spent, SumSent, SumReceived;
    ReportIsExact(users, got, report, at, user);
    QuietKeeps(first, at.balance, last, user);
    QuietKeeps(first, at.purchases, last, user);
    QuietKeeps(first, at.sent, last, user);
    QuietKeeps(first, at.received, last, user);
  }

  /**
   Without that, a report need not add up. If the balance is read at one moment and everything else at
   another, it adds up exactly if the user owns the same at both.
   */
  lemma TornReportReconcilesIff(users: seq<UserRow>, got: Reads, report: UserInfo, before: State, now: State, user: UserId)
    requires ReadsAt(got, Moments(before, now, now, now), user) && Delivered(got) && Reports(users, got, report)
    requires !got.purchases.value.failed && user in now.tables.balances
    ensures Reconciled(before.goods, report) <==> before.tables.balances[user] == now.tables.balances[user]
  {
    hide Reachable, Reports, Delivered, Value, SpentOn, Sent, Received, Spent, SumSent, SumReceived;
    ReportIsExact(users, got, report, Moments(before, now, now, now), user);
    Refinement.BalancesReconcile(now, user);
  }

  /** If the iteration over the purchases breaks off, the report adds up exactly if it misses only what was free. */
  lemma BrokenReportReconcilesIff(users: seq<UserRow>, got: Reads, report: UserInfo, s: State, user: UserId)
    requires ReadsAt(got, Moments(s, s, s, s), user) && Delivered(got) && Reports(users, got, report)
    ensures Reconciled(s.goods, report) <==>
              forall i | 0 <= i < |s.tables.purchases| && s.tables.purchases[i].user == user ::
                && s.tables.purchases[i].good in s.goods
                && (Shows(report.inventory, s.goods[s.tables.purchases[i].good].name)
                    || Price(s.goods, s.tables.purchases[i].good) == 0)
  {
    hide Reachable, Reports, Delivered, Value, SpentOn, Sent, Received, Spent, SumSent, SumReceived, Price, Shows;
    PurchasesAreSound(s);
    ReportIsExact(users, got, report, Moments(s, s, s, s), user);
    UnlistedIsSpent(s.goods, s.tables.purchases, user, report.inventory);
  }

  // ---- Names ----

  /**
   Every counterparty in a report is a user: if the transfers were read no later than the table of
   users, the names are registered ones, and never a map's default.
   */
  lemma ReportNamesUsers(got: Reads, at: Moments, sent: Platform, received: Platform, users: seq<UserRow>, user: UserId)
    requires ReadsAt(got, at, user) && Delivered(got)
    requires Running(sent) && sent.store == at.sent && sent.auth.users <= users
    requires Running(received) && received.store == at.received && received.auth.users <= users
    ensures Known(users, got)
  {
    RowsAreUsers(sent);
    RowsAreUsers(received);
    AmountsFit(got.outcoming, at.sent, user, Outgoing);
    AmountsFit(got.incoming, at.received, user, Incoming);
    hide Running, Reachable, Registered, ReadsTransfers, ReadsPurchases, U32;
    forall t | t in got.outcoming.value.rows
      ensures Registered(users, t.to)
    {
      var i :| 0 <= i < |got.outcoming.value.rows| && got.outcoming.value.rows[i] == t;
      StaysRegistered(sent.auth.users, users, t.to);
    }
    forall t | t in got.incoming.value.rows
      ensures Registered(users, t.from)
    {
      var i :| 0 <= i < |got.incoming.value.rows| && got.incoming.value.rows[i] == t;
      StaysRegistered(received.auth.users, users, t.from);
    }
  }

  /** The table of a running auth service has unique ids that fit the wire, as the naming stages need. */
  lemma UserIdsAreUnique(p: Platform)
    requires Running(p)
    ensures UniqueIds(p.auth.users)
  {
    RunningInv(p);
    hide Running, Reachable;
    forall row | row in p.auth.users
      ensures 1 <= row.id <= INT_MAX && forall other | other in p.auth.users :: row.id == other.id ==> row == other
    {
      RowIsUnique(p.auth, row);
      var i :| 0 <= i < |p.auth.users| && p.auth.users[i] == row;
    }
  }

  // ---- All stages and all states together ----

  /**
   A report of a running platform: rows go in as the queries deliver them, and what comes out names the
   users, lists every row, and adds up, provided that nothing touching the user commits in between.
   */
  method ReconciledReport(callers: seq<UserRow>, users: seq<UserRow>, user: UserId, got: Reads,
                          ghost at: Moments, ghost first: State, ghost last: State,
                          ghost sent: Platform, ghost received: Platform, ghost naming: Platform)
      returns (report: Option<UserInfo>)
    requires UniqueIds(callers) && Running(naming) && naming.auth.users == users
    requires Running(sent) && sent.store == at.sent && sent.auth.users <= users
    requires Running(received) && received.store == at.received && received.auth.users <= users
    requires ReadsAt(got, at, user) && Reachable(first) && Quiet(first, last, user)
    requires Leads(first, at.balance) && Leads(first, at.purchases) && Leads(first, at.sent) && Leads(first, at.received)
    requires Leads(at.balance, last) && Leads(at.purchases, last) && Leads(at.sent, last) && Leads(at.received, last)
    ensures report.Some? <==> Delivered(got)
    ensures report.Some? ==> Reports(users, got, report.value) && Known(users, got)
    ensures report.Some? && !got.purchases.value.failed ==> Reconciled(first.goods, report.value)
  {
    hide Running, Reachable, Leads, Quiet, Registered;
    UserIdsAreUnique(naming);
    report := GetReport(callers, users, user, got);
    if report.Some? {
      ReportNamesUsers(got, at, sent, received, users, user);
      if !got.purchases.value.failed {
        ReportReconciles(users, got, report.value, at, user, first, last);
      }
    }
  }
}
