/**
 The atomic ledger: the rows of the store database and the operations that one committed
 transaction amounts to. Nothing here knows about requests, locks or interleaving; it is the
 reference that the concurrent system is proved to refine.
 */
module Ledger {

  /** The coins that every account is opened with. */
  const START_BALANCE: int := 1000

  /** The largest value of a PostgreSQL INTEGER column. */
  const INT_MAX: int := 0x7fff_ffff

  type UserId = int

  type uint32 = n: int | 0 <= n < 0x1_0000_0000

  /** A row of `goods`, which is keyed by its id and has unique names. */
  datatype GoodRow = GoodRow(name: string, price: int)

  predicate UniqueNames(goods: map<int, GoodRow>)
  {
    forall i, j | i in goods && j in goods && goods[i].name == goods[j].name :: i == j
  }

  type Catalogue = goods: map<int, GoodRow> | UniqueNames(goods) witness map[]

  datatype Transfer = Transfer(from: UserId, to: UserId, amount: int)

  datatype Purchase = Purchase(user: UserId, good: int)

  datatype Tables = Tables(balances: map<UserId, int>, transactions: seq<Transfer>, purchases: seq<Purchase>)

  const EMPTY: Tables := Tables(map[], [], [])

  /** What one commit does to the tables. */
  datatype Op =
    | Open(user: UserId)
    | Move(transfer: Transfer)
    | Buy(purchase: Purchase)

  function Price(goods: Catalogue, good: int): int
  {
    if good in goods then goods[good].price else 0
  }

  /** Who pays, for the two operations that cost something. */
  function Payer(op: Op): UserId
  {
    match op
    case Open(user) => user
    case Move(t) => t.from
    case Buy(p) => p.user
  }

  function Cost(goods: Catalogue, op: Op): int
  {
    match op
    case Open(_) => 0
    case Move(t) => t.amount
    case Buy(p) => Price(goods, p.good)
  }

  /** The answer of the serial ledger to one operation. */
  datatype Verdict = Accepted | AlreadyOpen | NoAccount | SelfTransfer | UnknownGood | BadCost | Insufficient | TooRich

  /** One operation, judged as if nothing else were running. */
  function Judge(goods: Catalogue, t: Tables, op: Op): Verdict
  {
    if op.Open? then
      if op.user in t.balances then AlreadyOpen else Accepted
    else if Payer(op) !in t.balances || (op.Move? && op.transfer.to !in t.balances) then NoAccount
    else if op.Move? && op.transfer.from == op.transfer.to then SelfTransfer
    else if op.Buy? && op.purchase.good !in goods then UnknownGood
    else if Cost(goods, op) < 0 then BadCost
    else if t.balances[Payer(op)] < Cost(goods, op) then Insufficient
    else if op.Move? && t.balances[op.transfer.to] + op.transfer.amount > INT_MAX then TooRich
    else Accepted
  }

  /** The tables after an operation; a rejected operation leaves them alone. */
  function Apply(goods: Catalogue, t: Tables, op: Op): Tables
  {
    if Judge(goods, t, op) != Accepted then t else
    match op
    case Open(user) => t.(balances := t.balances[user := START_BALANCE])
    case Move(r) =>
      t.(balances := t.balances[r.from := t.balances[r.from] - r.amount][r.to := t.balances[r.to] + r.amount],
         transactions := t.transactions + [r])
    case Buy(p) =>
      t.(balances := t.balances[p.user := t.balances[p.user] - Price(goods, p.good)],
         purchases := t.purchases + [p])
  }

  function Last<T>(s: seq<T>): T
    requires s != []
  {
    s[|s| - 1]
  }

  function Front<T>(s: seq<T>): (f: seq<T>)
    requires s != []
    ensures |f| == |s| - 1 && s == f + [Last(s)]
  {
    s[..|s| - 1]
  }

  /** The tables that a sequence of operations builds, one after the other. */
  function Replay(goods: Catalogue, ops: seq<Op>): Tables
  {
    if ops == [] then EMPTY else Apply(goods, Replay(goods, Front(ops)), Last(ops))
  }

  /** Every operation of the sequence is accepted where it stands. */
  predicate Serial(goods: Catalogue, ops: seq<Op>)
  {
    ops == [] || (Serial(goods, Front(ops)) && Judge(goods, Replay(goods, Front(ops)), Last(ops)) == Accepted)
  }

  lemma ReplayAppend(goods: Catalogue, ops: seq<Op>, op: Op)
    ensures Replay(goods, ops + [op]) == Apply(goods, Replay(goods, ops), op)
    ensures Serial(goods, ops + [op]) <==> Serial(goods, ops) && Judge(goods, Replay(goods, ops), op) == Accepted
  {
    assert Front(ops + [op]) == ops && Last(ops + [op]) == op;
  }

  // ---- Statements of account ----

  function Sent(rows: seq<Transfer>, user: UserId): int
  {
    if rows == [] then 0 else Sent(Front(rows), user) + (if Last(rows).from == user then Last(rows).amount else 0)
  }

  function Received(rows: seq<Transfer>, user: UserId): int
  {
    if rows == [] then 0 else Received(Front(rows), user) + (if Last(rows).to == user then Last(rows).amount else 0)
  }

  function Spent(goods: Catalogue, rows: seq<Purchase>, user: UserId): int
  {
    if rows == [] then 0
    else Spent(goods, Front(rows), user) + (if Last(rows).user == user then Price(goods, Last(rows).good) else 0)
  }

  /** What the recorded rows say that a user should own. */
  function Statement(goods: Catalogue, t: Tables, user: UserId): int
  {
    START_BALANCE + Received(t.transactions, user) - Sent(t.transactions, user) - Spent(goods, t.purchases, user)
  }

  lemma SentAppend(rows: seq<Transfer>, row: Transfer, user: UserId)
    ensures Sent(rows + [row], user) == Sent(rows, user) + (if row.from == user then row.amount else 0)
    ensures Received(rows + [row], user) == Received(rows, user) + (if row.to == user then row.amount else 0)
  {
    assert Front(rows + [row]) == rows && Last(rows + [row]) == row;
  }

  lemma SpentAppend(goods: Catalogue, rows: seq<Purchase>, row: Purchase, user: UserId)
    ensures Spent(goods, rows + [row], user)
         == Spent(goods, rows, user) + (if row.user == user then Price(goods, row.good) else 0)
  {
    assert Front(rows + [row]) == rows && Last(rows + [row]) == row;
  }

  /** The shape of everything the tables hold, kept by every operation. */
  ghost predicate Sound(goods: Catalogue, t: Tables)
  {
    && (forall u | u in t.balances :: 0 <= t.balances[u] <= INT_MAX)
    && (forall i | 0 <= i < |t.transactions| :: SoundTransfer(t, t.transactions[i]))
    && (forall i | 0 <= i < |t.purchases| :: SoundPurchase(goods, t, t.purchases[i]))
  }

  ghost predicate SoundTransfer(t: Tables, row: Transfer)
  {
    row.from in t.balances && row.to in t.balances && row.from != row.to && 0 <= row.amount <= INT_MAX
  }

  ghost predicate SoundPurchase(goods: Catalogue, t: Tables, row: Purchase)
  {
    row.user in t.balances && row.good in goods && 0 <= Price(goods, row.good)
  }

  lemma ApplyKeepsSound(goods: Catalogue, t: Tables, op: Op)
    requires Sound(goods, t)
    ensures Sound(goods, Apply(goods, t, op))
  {
  }

  lemma {:induction false} ReplaySound(goods: Catalogue, ops: seq<Op>)
    ensures Sound(goods, Replay(goods, ops))
  {
    if ops != [] {
      ReplaySound(goods, Front(ops));
      ApplyKeepsSound(goods, Replay(goods, Front(ops)), Last(ops));
    }
  }

  /** What an accepted operation does to the fortune of a user who has an account. */
  function Change(goods: Catalogue, op: Op, user: UserId): int
  {
    match op
    case Open(_) => 0
    case Move(t) => (if t.to == user then t.amount else 0) - (if t.from == user then t.amount else 0)
    case Buy(p) => -(if p.user == user then Price(goods, p.good) else 0)
  }

  lemma StatementAfter(goods: Catalogue, t: Tables, op: Op, user: UserId)
    requires Judge(goods, t, op) == Accepted
    ensures Statement(goods, Apply(goods, t, op), user) == Statement(goods, t, user) + Change(goods, op, user)
  {
    match op {
      case Open(_) =>
      case Move(row) => SentAppend(t.transactions, row, user);
      case Buy(row) => SpentAppend(goods, t.purchases, row, user);
    }
  }

  lemma BalanceAfter(goods: Catalogue, t: Tables, op: Op, user: UserId)
    requires Judge(goods, t, op) == Accepted
    ensures user in Apply(goods, t, op).balances <==> user in t.balances || op == Open(user)
    ensures user in t.balances ==> Apply(goods, t, op).balances[user] == t.balances[user] + Change(goods, op, user)
    ensures op == Open(user) ==> user !in t.balances && Apply(goods, t, op).balances[user] == START_BALANCE
    ensures user !in t.balances ==> Change(goods, op, user) == 0
  {
  }

  /** The user is on neither side of any transfer, and has bought nothing. */
  predicate InNoRow(t: Tables, user: UserId)
  {
    && (forall i | 0 <= i < |t.transactions| :: t.transactions[i].from != user && t.transactions[i].to != user)
    && (forall i | 0 <= i < |t.purchases| :: t.purchases[i].user != user)
  }

  /** A user without an account appears in no row, and so owes nothing and has nothing coming. */
  lemma {:induction false} StrangersOweNothing(goods: Catalogue, ops: seq<Op>, user: UserId)
    requires user !in Replay(goods, ops).balances
    ensures Statement(goods, Replay(goods, ops), user) == START_BALANCE
    ensures InNoRow(Replay(goods, ops), user)
  {
    if ops != [] {
      var t, op := Replay(goods, Front(ops)), Last(ops);
      if Judge(goods, t, op) == Accepted {
        StatementAfter(goods, t, op, user);
        BalanceAfter(goods, t, op, user);
      }
      hide Judge, Change, Statement;
      StrangersOweNothing(goods, Front(ops), user);
    }
    SoundRowsKnowOnlyOwners(goods, ops, user);
  }

  lemma SoundRowsKnowOnlyOwners(goods: Catalogue, ops: seq<Op>, user: UserId)
    requires user !in Replay(goods, ops).balances
    ensures InNoRow(Replay(goods, ops), user)
  {
    hide Replay;
    var t := Replay(goods, ops);
    ReplaySound(goods, ops);
    assert forall i | 0 <= i < |t.transactions| :: SoundTransfer(t, t.transactions[i]);
    assert forall i | 0 <= i < |t.purchases| :: SoundPurchase(goods, t, t.purchases[i]);
  }

  /** Per-user reconciliation: a balance is exactly what the rows say it is. */
  lemma {:induction false} Reconciles(goods: Catalogue, ops: seq<Op>, user: UserId)
    requires user in Replay(goods, ops).balances
    ensures Replay(goods, ops).balances[user] == Statement(goods, Replay(goods, ops), user)
  {
    var t, op := Replay(goods, Front(ops)), Last(ops);
    if Judge(goods, t, op) == Accepted {
      StatementAfter(goods, t, op, user);
      BalanceAfter(goods, t, op, user);
    }
    hide Judge, Change, Statement;
    if user in t.balances {
      Reconciles(goods, Front(ops), user);
    } else {
      StrangersOweNothing(goods, Front(ops), user);
    }
  }

  function Openings(ops: seq<Op>, user: UserId): nat
  {
    if ops == [] then 0 else Openings(Front(ops), user) + (if Last(ops) == Open(user) then 1 else 0)
  }

  /** The opening balance is paid once for a user with an account, and never for another. */
  lemma {:induction false} OpenedOnce(goods: Catalogue, ops: seq<Op>, user: UserId)
    requires Serial(goods, ops)
    ensures Openings(ops, user) == if user in Replay(goods, ops).balances then 1 else 0
  {
    if ops != [] {
      OpenedOnce(goods, Front(ops), user);
    }
  }
}
