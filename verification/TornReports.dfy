/**
 Reports that do not add up. Whatever the four moments and however much the purchase query delivers, there
 is a report of it; so moments that differ, or a query that breaks off, do show in what users see.
 */
module TornReports {
  import opened Ledger
  import opened StoreSystem
  import opened StoreInvariant
  import opened AuthSystem
  import opened Platform
  import opened Report
  import opened EndToEnd
  import SoloRuns

  // ---- Any moments have a report ----

  /** The groups of the purchase query, in the order in which the names first occur in rows. */
  function Groups(goods: Catalogue, rows: seq<Purchase>, all: seq<Purchase>, user: UserId): seq<Counted>
  {
    if rows == [] then []
    else
      var groups, p := Groups(goods, Front(rows), all, user), Last(rows);
      if p.user == user && p.good in goods && !HasName(groups, goods[p.good].name)
      then groups + [Counted(goods[p.good].name, CountOf(goods, all, user, goods[p.good].name))]
      else groups
  }

  /** The groups are distinct, with their counts, and no purchase of the user is missing. */
  ghost predicate Grouped(goods: Catalogue, groups: seq<Counted>, rows: seq<Purchase>, all: seq<Purchase>, user: UserId)
  {
    && DistinctNames(groups)
    && (forall i | 0 <= i < |groups| :: groups[i].count == CountOf(goods, all, user, groups[i].name) > 0)
    && (forall j | 0 <= j < |rows| && rows[j].user == user && rows[j].good in goods :: HasName(groups, goods[rows[j].good].name))
  }

  lemma OneMoreGroup(goods: Catalogue, groups: seq<Counted>, rows: seq<Purchase>, all: seq<Purchase>, user: UserId, p: Purchase)
    requires Grouped(goods, groups, rows, all, user) && p.user == user && p.good in goods
    requires !HasName(groups, goods[p.good].name) && CountOf(goods, all, user, goods[p.good].name) > 0
    ensures var name := goods[p.good].name;
            Grouped(goods, groups + [Counted(name, CountOf(goods, all, user, name))], rows + [p], all, user)
  {
    hide CountOf;
    var name := goods[p.good].name;
    var more := groups + [Counted(name, CountOf(goods, all, user, name))];
    assert more[|groups|].name == name;
    assert forall i | 0 <= i < |groups| :: more[i] == groups[i];
    forall j | 0 <= j < |rows + [p]| && (rows + [p])[j].user == user && (rows + [p])[j].good in goods
      ensures HasName(more, goods[(rows + [p])[j].good].name)
    {
      if j < |rows| {
        var i :| 0 <= i < |groups| && groups[i].name == goods[rows[j].good].name;
        assert more[i].name == goods[rows[j].good].name;
      }
    }
  }

  lemma {:induction false} GroupsFit(goods: Catalogue, all: seq<Purchase>, n: nat, user: UserId)
    requires n <= |all|
    ensures Grouped(goods, Groups(goods, all[..n], all, user), all[..n], all, user)
  {
    if n > 0 {
      var rows, p := all[..n - 1], all[n - 1];
      GroupsFit(goods, all, n - 1, user);
      assert all[..n] == rows + [p] && Front(all[..n]) == rows && Last(all[..n]) == p;
      var groups := Groups(goods, rows, all, user);
      if p.user == user && p.good in goods {
        CountedOnce(goods, all, user, n - 1);
        if !HasName(groups, goods[p.good].name) { OneMoreGroup(goods, groups, rows, all, user, p); }
      }
    }
  }

  lemma {:induction false} CountedIsBought(goods: Catalogue, rows: seq<Purchase>, user: UserId, name: string) returns (i: nat)
    requires CountOf(goods, rows, user, name) > 0
    ensures i < |rows| && IsOf(goods, rows[i], user, name)
  {
    if IsOf(goods, Last(rows), user, name) {
      i := |rows| - 1;
    } else {
      i := CountedIsBought(goods, Front(rows), user, name);
    }
  }

  /** The purchase query, of which the first few groups are delivered. */
  function PurchaseQuery(s: State, user: UserId, kept: nat, failed: bool): Option<Cursor<Counted>>
    requires kept <= |Groups(s.goods, s.tables.purchases, s.tables.purchases, user)|
  {
    Some(Cursor(Groups(s.goods, s.tables.purchases, s.tables.purchases, user)[..kept], failed))
  }

  lemma PurchasesAreRead(s: State, user: UserId, kept: nat, failed: bool)
    requires kept <= |Groups(s.goods, s.tables.purchases, s.tables.purchases, user)|
    requires failed || kept == |Groups(s.goods, s.tables.purchases, s.tables.purchases, user)|
    ensures ReadsPurchases(PurchaseQuery(s, user, kept, failed), s, user)
  {
    hide CountOf, Groups;
    var all := s.tables.purchases;
    var groups := Groups(s.goods, all, all, user);
    GroupsFit(s.goods, all, |all|, user);
    assert all[..|all|] == all;
    if !failed {
      assert groups[..kept] == groups;
      forall name | CountOf(s.goods, all, user, name) > 0
        ensures HasName(groups, name)
      {
        var i := CountedIsBought(s.goods, all, user, name);
      }
    }
  }

  lemma TransfersAreRead(s: State, user: UserId, side: Side)
    ensures ReadsTransfers(Some(Cursor(Selected(s.tables.transactions, user, side), false)), s, user, side)
  {
  }

  function ReadsFor(at: Moments, user: UserId, kept: nat, failed: bool): Reads
    requires user in at.balance.tables.balances
    requires kept <= |Groups(at.purchases.goods, at.purchases.tables.purchases, at.purchases.tables.purchases, user)|
  {
    Reads(Some(at.balance.tables.balances[user]), PurchaseQuery(at.purchases, user, kept, failed),
          Some(Cursor(Selected(at.sent.tables.transactions, user, Outgoing), false)),
          Some(Cursor(Selected(at.received.tables.transactions, user, Incoming), false)), false, false)
  }

  /** The report that GetReport makes of these reads, with the inventory in the order of the groups. */
  function ReportOf(users: seq<UserRow>, got: Reads): UserInfo
    requires Delivered(got)
  {
    var groups, outcoming, incoming := got.purchases.value.rows, got.outcoming.value.rows, got.incoming.value.rows;
    UserInfo(
      got.balance.value,
      seq(|groups|, i requires 0 <= i < |groups| => Item(groups[i].name, U32(groups[i].count))),
      seq(|incoming|, i requires 0 <= i < |incoming| => ReceivedTransfer(UserName(users, incoming[i].from), U32(incoming[i].amount))),
      seq(|outcoming|, i requires 0 <= i < |outcoming| => SentTransfer(UserName(users, outcoming[i].to), U32(outcoming[i].amount))))
  }

  lemma ReportOfReports(users: seq<UserRow>, got: Reads)
    requires Delivered(got) && DistinctNames(got.purchases.value.rows)
    ensures Reports(users, got, ReportOf(users, got))
  {
    hide U32, NameOf;
    var report, groups := ReportOf(users, got), got.purchases.value.rows;
    forall i | 0 <= i < |groups|
      ensures Counting(groups, report.inventory[i]) && Itemized(report.inventory, groups[i])
    {
      assert ItemOf(report.inventory[i], groups[i]);
    }
    forall i | 0 <= i < |got.outcoming.value.rows| && Known(users, got)
      ensures NameOf(users, got.outcoming.value.rows[i].to) == Some(report.sent[i].to)
    {
      assert got.outcoming.value.rows[i] in got.outcoming.value.rows;
    }
    forall i | 0 <= i < |got.incoming.value.rows| && Known(users, got)
      ensures NameOf(users, got.incoming.value.rows[i].from) == Some(report.received[i].from)
    {
      assert got.incoming.value.rows[i] in got.incoming.value.rows;
    }
  }

  /** Any four moments, any break of the purchase iteration: there are reads made just so, and a report of them. */
  lemma ReportExists(users: seq<UserRow>, at: Moments, user: UserId, kept: nat, failed: bool)
    requires Reachable(at.balance) && Reachable(at.purchases) && Reachable(at.sent) && Reachable(at.received)
    requires at.balance.goods == at.purchases.goods == at.sent.goods == at.received.goods
    requires user in at.balance.tables.balances
    requires var groups := Groups(at.purchases.goods, at.purchases.tables.purchases, at.purchases.tables.purchases, user);
             kept <= |groups| && (failed || kept == |groups|)
    ensures var got := ReadsFor(at, user, kept, failed);
            ReadsAt(got, at, user) && Delivered(got) && Reports(users, got, ReportOf(users, got))
  {
    hide Reachable, Reports, ReportOf, Groups, ReadsPurchases, ReadsTransfers;
    var got := ReadsFor(at, user, kept, failed);
    BalanceFits(at.balance, user);
    PurchasesAreRead(at.purchases, user, kept, failed);
    TransfersAreRead(at.sent, user, Outgoing);
    TransfersAreRead(at.received, user, Incoming);
    GroupsAreDistinct(at.purchases, user, kept, failed);
    ReportOfReports(users, got);
  }

  lemma GroupsAreDistinct(s: State, user: UserId, kept: nat, failed: bool)
    requires kept <= |Groups(s.goods, s.tables.purchases, s.tables.purchases, user)|
    requires ReadsPurchases(PurchaseQuery(s, user, kept, failed), s, user)
    ensures DistinctNames(PurchaseQuery(s, user, kept, failed).value.rows)
  {
  }

  lemma BalanceFits(s: State, user: UserId)
    requires Reachable(s) && user in s.tables.balances
    ensures 0 <= s.tables.balances[user] <= INT_MAX
  {
    ReachableInv(s);
  }

  // ---- Reports that fail ----

  /** Whenever a user's balance changes between two moments, a report can be made across them that does not add up. */
  lemma TornReportFails(users: seq<UserRow>, before: State, now: State, user: UserId) returns (got: Reads, report: UserInfo)
    requires Reachable(before) && Leads(before, now) && user in before.tables.balances && user in now.tables.balances
    requires before.tables.balances[user] != now.tables.balances[user]
    ensures ReadsAt(got, Moments(before, now, now, now), user) && Delivered(got) && !got.purchases.value.failed
    ensures Reports(users, got, report) && !Reconciled(before.goods, report)
  {
    hide Reachable, Leads, Groups, Reports, ReportOf, Reconciled, Delivered, ReadsPurchases, ReadsTransfers;
    FlowBetween(before, now, user);
    var at := Moments(before, now, now, now);
    var kept := |Groups(now.goods, now.tables.purchases, now.tables.purchases, user)|;
    ReportExists(users, at, user, kept, false);
    got := ReadsFor(at, user, kept, false);
    report := ReportOf(users, got);
    TornReportReconcilesIff(users, got, report, before, now, user);
  }

  /** Such moments exist: a transfer that commits between the reads is one. */
  lemma TornReadsExist() returns (before: State, now: State)
    ensures Reachable(before) && Leads(before, now)
    ensures 1 in before.tables.balances && 1 in now.tables.balances
    ensures now.tables.balances[1] == before.tables.balances[1] - 5
  {
    var s0 := Init(map[]);
    assert Reachable(s0) by { assert s0 == Exec(Init(s0.goods), []); }
    hide Reachable, Leads, Works;
    var t := Transfer(1, 2, 5);
    before := SoloRuns.RunsToCredit(s0, 0, t, "bob");
    now := SoloRuns.RunsToPaid(before, 0);
    WorksLeads(before, now);
    BalanceAfter(before.goods, before.tables, Move(t), 1);
  }

  /** Whenever a user has paid for something, a purchase query that breaks off at once makes a report that does not add up. */
  lemma BrokenReportFails(users: seq<UserRow>, s: State, user: UserId, i: nat) returns (got: Reads, report: UserInfo)
    requires Reachable(s) && user in s.tables.balances
    requires i < |s.tables.purchases| && s.tables.purchases[i].user == user && Price(s.goods, s.tables.purchases[i].good) > 0
    ensures ReadsAt(got, Moments(s, s, s, s), user) && Delivered(got) && got.purchases.value.failed
    ensures Reports(users, got, report) && !Reconciled(s.goods, report)
  {
    hide Reachable, Groups, Reports, Reconciled, Delivered, ReadsPurchases, ReadsTransfers, Price;
    var at := Moments(s, s, s, s);
    ReportExists(users, at, user, 0, true);
    got := ReadsFor(at, user, 0, true);
    report := ReportOf(users, got);
    assert report.inventory == [];
    BrokenReportReconcilesIff(users, got, report, s, user);
  }

  const PENS: map<int, GoodRow> := map[1 := GoodRow("pen", 10)]

  lemma PenIsFound(goods: Catalogue)
    requires goods == PENS
    ensures FindGood(goods, "pen") == Some(1) && Price(goods, 1) == 10
  {
    assert 1 in goods && goods[1].name == "pen";
  }

  /** Somebody can have paid for something: a user who has bought a pen. */
  lemma PaidPurchaseExists() returns (s: State, i: nat)
    ensures Reachable(s) && 7 in s.tables.balances
    ensures i < |s.tables.purchases| && s.tables.purchases[i].user == 7 && Price(s.goods, s.tables.purchases[i].good) > 0
  {
    var s0 := Init(PENS);
    assert Reachable(s0) by { assert s0 == Exec(Init(s0.goods), []); }
    hide Reachable, Leads, FindGood;
    PenIsFound(s0.goods);
    s := SoloRuns.RunsToBought(s0, 0, 7, "pen");
    i := |s.tables.purchases| - 1;
  }

  /** Both ways of failing, in states that runs reach. */
  lemma SomeReportsFail()
      returns (torn: Reads, tornReport: UserInfo, before: State, now: State, broken: Reads, brokenReport: UserInfo, s: State)
    ensures ReadsAt(torn, Moments(before, now, now, now), 1) && Delivered(torn) && !torn.purchases.value.failed
    ensures Reports([], torn, tornReport) && !Reconciled(before.goods, tornReport)
    ensures ReadsAt(broken, Moments(s, s, s, s), 7) && Delivered(broken) && broken.purchases.value.failed
    ensures Reports([], broken, brokenReport) && !Reconciled(s.goods, brokenReport)
  {
    hide Reachable, Leads, Reports, Reconciled, Delivered, ReadsAt;
    before, now := TornReadsExist();
    torn, tornReport := TornReportFails([], before, now, 1);
    var i;
    s, i := PaidPurchaseExists();
    broken, brokenReport := BrokenReportFails([], s, 7, i);
  }
}
