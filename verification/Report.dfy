/**
 The read-back pipeline: from database rows over the transfer history, the names of the counterparties
 and the response message to the report of the gateway. Every stage is a loop that rebuilds a
 sequence or a map; Go maps are visited in any order.
 */
module Report {
  import opened Ledger
  import opened StoreSystem
  import opened AuthSystem
  import opened Platform

  /** The rows that a query delivers, in any order, before it ends or breaks off. */
  datatype Cursor<T> = Cursor(rows: seq<T>, failed: bool)

  datatype DirectTransfer = DirectTransfer(targetID: UserId, amount: uint32)

  datatype TransferHistory = TransferHistory(incoming: seq<DirectTransfer>, outcoming: seq<DirectTransfer>)

  datatype NamedTransfer = NamedTransfer(username: string, amount: uint32)

  datatype NamedHistory = NamedHistory(incoming: seq<NamedTransfer>, outcoming: seq<NamedTransfer>)

  /** A row of the purchase query: a good's name and how often it was bought. */
  datatype Counted = Counted(name: string, count: int)

  datatype TotalUserInfo = TotalUserInfo(username: string, balance: uint32, goods: map<string, uint32>, history: NamedHistory)

  datatype Item = Item(name: string, quantity: uint32)

  datatype SentTransfer = SentTransfer(to: string, amount: uint32)

  datatype ReceivedTransfer = ReceivedTransfer(from: string, amount: uint32)

  /** GetUserInfoResponse, the message between the store and the gateway. */
  datatype Response = Response(balance: uint32, inventory: seq<Item>, sent: seq<SentTransfer>, received: seq<ReceivedTransfer>)

  /** What the gateway reports. */
  datatype UserInfo = UserInfo(balance: uint32, inventory: seq<Item>, received: seq<ReceivedTransfer>, sent: seq<SentTransfer>)

  /** What one report reads; a query that fails has no cursor, and either lookup of names may fail as well. */
  datatype Reads = Reads(
    balance: Option<int>,
    purchases: Option<Cursor<Counted>>,
    outcoming: Option<Cursor<Transfer>>,
    incoming: Option<Cursor<Transfer>>,
    nameFails: bool,
    namesFail: bool)

  /** The conversion uint32(x) of Go. */
  function U32(x: int): uint32
  {
    x % 0x1_0000_0000
  }

  /** It loses nothing exactly if the number is a uint32, and otherwise leaves the low 32 bits. */
  lemma U32Wraps(x: int, k: int)
    ensures U32(x) == x <==> 0 <= x < 0x1_0000_0000
    ensures U32(x + k * 0x1_0000_0000) == U32(x)
  {
  }

  /** Reading a Go map of names: a missing key reads as the empty string. */
  function NameIn(usernames: map<UserId, string>, id: UserId): string
  {
    if id in usernames then usernames[id] else ""
  }

  /** The next key of a Go map that is iterated over: any that has not been visited. */
  method Visit<T>(rest: set<T>) returns (key: T)
    requires rest != {}
    ensures key in rest
  {
    key :| key in rest;
  }

  // ---- internal/store/infrastructure/postgres/user_info_repository.go ----

  /** processRows: one entry per row, in the order of the rows; an error if the iteration broke off. */
  method ProcessRows(rows: Cursor<Transfer>, getTargetID: Transfer -> UserId) returns (result: Option<seq<DirectTransfer>>)
    ensures result.Some? <==> !rows.failed
    ensures result.Some? ==>
              && |result.value| == |rows.rows|
              && forall i | 0 <= i < |rows.rows| ::
                   result.value[i] == DirectTransfer(getTargetID(rows.rows[i]), U32(rows.rows[i].amount))
  {
    var entries: seq<DirectTransfer> := [];
    for i := 0 to |rows.rows|
      invariant |entries| == i
      invariant forall k | 0 <= k < i :: entries[k] == DirectTransfer(getTargetID(rows.rows[k]), U32(rows.rows[k].amount))
    {
      var transfer := rows.rows[i];
      entries := entries + [DirectTransfer(getTargetID(transfer), U32(transfer.amount))];
    }
    if rows.failed {
      return None;
    }
    result := Some(entries);
  }

  /** A query that ran to its end. */
  predicate Complete<T>(query: Option<Cursor<T>>)
  {
    query.Some? && !query.value.failed
  }

  /** What the user sent lists the recipients, what the user received the senders, both in the order of the rows. */
  predicate HistoryOf(tf: TransferHistory, outcoming: seq<Transfer>, incoming: seq<Transfer>)
  {
    && |tf.outcoming| == |outcoming| && |tf.incoming| == |incoming|
    && (forall i | 0 <= i < |outcoming| :: tf.outcoming[i] == DirectTransfer(outcoming[i].to, U32(outcoming[i].amount)))
    && (forall i | 0 <= i < |incoming| :: tf.incoming[i] == DirectTransfer(incoming[i].from, U32(incoming[i].amount)))
  }

  /** FetchUserCoinTransfers: both queries are open before either is read. */
  method FetchUserCoinTransfers(outcomingRows: Option<Cursor<Transfer>>, incomingRows: Option<Cursor<Transfer>>)
      returns (history: Option<TransferHistory>)
    ensures history.Some? <==> Complete(outcomingRows) && Complete(incomingRows)
    ensures history.Some? ==> HistoryOf(history.value, outcomingRows.value.rows, incomingRows.value.rows)
  {
    if outcomingRows.None? || incomingRows.None? {
      return None;
    }
    var out := ProcessRows(outcomingRows.value, (t: Transfer) => t.to);
    if out.None? {
      return None;
    }
    var into := ProcessRows(incomingRows.value, (t: Transfer) => t.from);
    if into.None? {
      return None;
    }
    history := Some(TransferHistory(into.value, out.value));
  }

  predicate DistinctNames(rows: seq<Counted>)
  {
    forall i, j | 0 <= i < j < |rows| :: rows[i].name != rows[j].name
  }

  /** The map of the counts, which is what the rows say. */
  ghost predicate CountsOf(goods: map<string, uint32>, rows: seq<Counted>)
  {
    && (forall i | 0 <= i < |rows| :: rows[i].name in goods && goods[rows[i].name] == U32(rows[i].count))
    && (forall name | name in goods :: exists i :: 0 <= i < |rows| && rows[i].name == name)
  }

  /** FetchUserPurchases. It does not ask whether the iteration broke off, so only the query itself can fail. */
  method FetchUserPurchases(rows: Option<Cursor<Counted>>) returns (goods: Option<map<string, uint32>>)
    requires rows.Some? ==> DistinctNames(rows.value.rows)
    ensures goods.Some? <==> rows.Some?
    ensures goods.Some? ==> CountsOf(goods.value, rows.value.rows)
  {
    if rows.None? {
      return None;
    }
    var counted := rows.value.rows;
    var m: map<string, uint32> := map[];
    for i := 0 to |counted|
      invariant CountsOf(m, counted[..i])
    {
      ghost var done, before := counted[..i], m;
      m := m[counted[i].name := U32(counted[i].count)];
      assert counted[..i + 1] == done + [counted[i]];
      OneMoreCount(before, done, counted[i]);
    }
    assert counted[..|counted|] == counted;
    goods := Some(m);
  }

  lemma OneMoreCount(goods: map<string, uint32>, rows: seq<Counted>, row: Counted)
    requires CountsOf(goods, rows) && DistinctNames(rows + [row])
    ensures CountsOf(goods[row.name := U32(row.count)], rows + [row])
  {
    var rows' := rows + [row];
    assert rows'[|rows|] == row;
    assert forall i | 0 <= i < |rows| :: rows'[i] == rows[i] && rows[i].name != row.name;
  }

  // ---- internal/store/application/user_info_case.go: extractUserIDs ----

  predicate Counterparty(tf: TransferHistory, id: UserId)
  {
    || (exists i :: 0 <= i < |tf.incoming| && tf.incoming[i].targetID == id)
    || (exists i :: 0 <= i < |tf.outcoming| && tf.outcoming[i].targetID == id)
  }

  predicate NoDuplicates<T(==)>(s: seq<T>)
  {
    forall i, j | 0 <= i < j < |s| :: s[i] != s[j]
  }

  /** Every counterparty once, nobody else, in any order. */
  method ExtractUserIDs(tf: TransferHistory) returns (userIDs: seq<UserId>)
    ensures NoDuplicates(userIDs)
    ensures forall id :: id in userIDs <==> Counterparty(tf, id)
  {
    var userIDSet: set<UserId> := {};
    for i := 0 to |tf.incoming|
      invariant forall id :: id in userIDSet <==> exists k :: 0 <= k < i && tf.incoming[k].targetID == id
    {
      userIDSet := userIDSet + {tf.incoming[i].targetID};
    }
    for i := 0 to |tf.outcoming|
      invariant forall id :: id in userIDSet <==>
                  || (exists k :: 0 <= k < |tf.incoming| && tf.incoming[k].targetID == id)
                  || (exists k :: 0 <= k < i && tf.outcoming[k].targetID == id)
    {
      userIDSet := userIDSet + {tf.outcoming[i].targetID};
    }
    assert forall id :: id in userIDSet <==> Counterparty(tf, id);
    userIDs := [];
    ghost var all := userIDSet;
    while userIDSet != {}
      invariant userIDSet <= all && NoDuplicates(userIDs)
      invariant forall id :: id in userIDs <==> id in all && id !in userIDSet
      decreases userIDSet
    {
      var id := Visit(userIDSet);
      userIDs := userIDs + [id];
      userIDSet := userIDSet - {id};
    }
  }

  // ---- Names of users: internal/store/grpc/auth_adapter.go, internal/auth/grpc/auth_service.go, users.go ----

  /** SELECT id, username FROM users WHERE id = ANY(...), in the order in which the table is stored. */
  function WithIds(users: seq<UserRow>, ids: seq<UserId>): (rows: seq<UserRow>)
    ensures forall row :: row in rows <==> row in users && row.id in ids
  {
    if users == [] then []
    else WithIds(Front(users), ids) + (if Last(users).id in ids then [Last(users)] else [])
  }

  /** Ids are unique and fit the SERIAL column. */
  ghost predicate UniqueIds(users: seq<UserRow>)
  {
    && (forall row | row in users :: 1 <= row.id <= INT_MAX)
    && (forall row, other | row in users && other in users :: row.id == other.id ==> row == other)
  }

  /** m is the direct lookup of the ids in the table: it has the registered ones among them, with their names. */
  ghost predicate LooksUp(m: map<UserId, string>, users: seq<UserRow>, ids: seq<UserId>)
  {
    && (forall id :: id in m <==> id in ids && Registered(users, id))
    && (forall id | id in m :: NameOf(users, id) == Some(m[id]))
  }

  lemma NameOfRow(users: seq<UserRow>, row: UserRow)
    requires UniqueIds(users) && row in users
    ensures NameOf(users, row.id) == Some(row.username)
  {
  }

  /** UsersRepository.GetUsernames: the rows become a map; an iteration that breaks off is an error. */
  method FetchUsernames(users: seq<UserRow>, userIDs: seq<UserId>, failed: bool) returns (usernames: Option<map<UserId, string>>)
    requires UniqueIds(users)
    ensures usernames.Some? <==> !failed
    ensures usernames.Some? ==> LooksUp(usernames.value, users, userIDs)
  {
    var rows := WithIds(users, userIDs);
    var m: map<UserId, string> := map[];
    for i := 0 to |rows|
      invariant forall id :: id in m <==> exists k :: 0 <= k < i && rows[k].id == id
      invariant forall id | id in m :: exists k :: 0 <= k < i && rows[k] == UserRow(id, m[id], rows[k].hash)
    {
      m := m[rows[i].id := rows[i].username];
    }
    if failed {
      return None;
    }
    LookupIsDirect(users, userIDs, rows, m);
    usernames := Some(m);
  }

  lemma LookupIsDirect(users: seq<UserRow>, ids: seq<UserId>, rows: seq<UserRow>, m: map<UserId, string>)
    requires UniqueIds(users) && rows == WithIds(users, ids)
    requires forall id :: id in m <==> exists k :: 0 <= k < |rows| && rows[k].id == id
    requires forall id | id in m :: exists k :: 0 <= k < |rows| && rows[k] == UserRow(id, m[id], rows[k].hash)
    ensures LooksUp(m, users, ids)
  {
    forall id | id in m
      ensures id in ids && NameOf(users, id) == Some(m[id])
    {
      var k :| 0 <= k < |rows| && rows[k] == UserRow(id, m[id], rows[k].hash);
      assert rows[k] in rows;
      NameOfRow(users, rows[k]);
    }
    forall id | id in ids && Registered(users, id)
      ensures id in m
    {
      var row :| row in users && row.id == id;
      assert row in rows;
      var k :| 0 <= k < |rows| && rows[k] == row;
    }
  }

  /** AuthServerGRPC.GetUsernames: ids come as int32, and the names go back keyed by int32. */
  method ServeUsernames(users: seq<UserRow>, rawIDs: seq<int>, failed: bool) returns (reply: Option<map<int, string>>)
    requires UniqueIds(users)
    ensures reply.Some? <==> !failed
    ensures reply.Some? ==> LooksUp(reply.value, users, rawIDs)
  {
    var userIDs := new UserId[|rawIDs|];
    for i := 0 to |rawIDs|
      invariant userIDs[..i] == rawIDs[..i]
    {
      userIDs[i] := rawIDs[i];
    }
    assert userIDs[..] == rawIDs;
    var usernamesMap := FetchUsernames(users, userIDs[..], failed);
    if usernamesMap.None? {
      return None;
    }
    forall id | id in usernamesMap.value ensures Int32(id) == id { RegisteredFits(users, id); }
    var usernames := NarrowKeys(usernamesMap.value);
    reply := Some(usernames);
  }

  ghost predicate SameEntries(copy: map<int, string>, m: map<int, string>)
  {
    && (forall id :: id in copy <==> id in m)
    && (forall id | id in m :: copy[id] == m[id])
  }

  /** The server's loop: each key is converted to an int32. Keys that fit keep their entries apart. */
  method NarrowKeys(m: map<UserId, string>) returns (narrowed: map<int, string>)
    ensures (forall id | id in m :: Int32(id) == id) ==> SameEntries(narrowed, m)
  {
    narrowed := map[];
    var rest := m.Keys;
    ghost var fit := forall id | id in m :: Int32(id) == id;
    while rest != {}
      invariant rest <= m.Keys
      invariant fit ==> forall id :: id in narrowed <==> id in m && id !in rest
      invariant fit ==> forall id | id in narrowed :: narrowed[id] == m[id]
      decreases rest
    {
      var id := Visit(rest);
      narrowed := narrowed[Int32(id) := m[id]];
      rest := rest - {id};
    }
  }

  /** The client's loop: each key is converted back to an int. */
  method WidenKeys(m: map<int, string>) returns (widened: map<UserId, string>)
    ensures SameEntries(widened, m)
  {
    widened := map[];
    var rest := m.Keys;
    while rest != {}
      invariant rest <= m.Keys
      invariant forall id :: id in widened <==> id in m && id !in rest
      invariant forall id | id in widened :: widened[id] == m[id]
      decreases rest
    {
      var id := Visit(rest);
      widened := widened[id := m[id]];
      rest := rest - {id};
    }
  }

  lemma RegisteredFits(users: seq<UserRow>, id: UserId)
    requires UniqueIds(users) && Registered(users, id)
    ensures Int32(id) == id
  {
    var row :| row in users && row.id == id;
  }

  /**
   AuthAdapter.GetUsernames: the ids are cut down to int32, sent, and the answer is widened again.
   For ids that fit, the trip is the same as asking the table itself.
   */
  method GetUsernames(users: seq<UserRow>, userIDs: seq<UserId>, failed: bool) returns (names: Option<map<UserId, string>>)
    requires UniqueIds(users)
    ensures names.Some? <==> !failed
    ensures names.Some? ==> LooksUp(names.value, users, seq(|userIDs|, i requires 0 <= i < |userIDs| => Int32(userIDs[i])))
    ensures names.Some? && (forall id | id in userIDs :: Int32(id) == id) ==> LooksUp(names.value, users, userIDs)
  {
    var convertedIDs := new int[|userIDs|];
    for i := 0 to |userIDs|
      invariant forall k | 0 <= k < i :: convertedIDs[k] == Int32(userIDs[k])
    {
      convertedIDs[i] := Int32(userIDs[i]);
    }
    var resp := ServeUsernames(users, convertedIDs[..], failed);
    if resp.None? {
      return None;
    }
    var convertedUsernames := WidenKeys(resp.value);
    assert convertedIDs[..] == seq(|userIDs|, i requires 0 <= i < |userIDs| => Int32(userIDs[i]));
    if forall id | id in userIDs :: Int32(id) == id {
      assert forall k | 0 <= k < |userIDs| :: userIDs[k] in userIDs;
      assert convertedIDs[..] == userIDs;
    }
    names := Some(convertedUsernames);
  }

  /** The name under which a user is registered; someone unknown has the empty name. */
  function UserName(users: seq<UserRow>, id: UserId): string
  {
    match NameOf(users, id)
    case None => ""
    case Some(name) => name
  }

  lemma ReadsAsUserName(users: seq<UserRow>, ids: seq<UserId>, m: map<UserId, string>, id: UserId)
    requires LooksUp(m, users, ids) && id in ids
    ensures NameIn(m, id) == UserName(users, id)
  {
  }

  /** AuthAdapter.GetUsername. */
  method GetUsername(users: seq<UserRow>, userID: UserId, failed: bool) returns (name: Option<string>)
    requires UniqueIds(users)
    ensures name.Some? <==> !failed
    ensures name.Some? && Int32(userID) == userID ==> name.value == UserName(users, userID)
  {
    var rawResult := GetUsernames(users, [userID], failed);
    if rawResult.None? {
      return None;
    }
    name := Some(NameIn(rawResult.value, userID));
  }

  // ---- internal/store/application/user_info_case.go ----

  /** Each id is replaced by the name of the user, each amount stays, and so does the order. */
  predicate Named(users: seq<UserRow>, named: seq<NamedTransfer>, direct: seq<DirectTransfer>)
  {
    && |named| == |direct|
    && forall i | 0 <= i < |direct| :: named[i] == NamedTransfer(UserName(users, direct[i].targetID), direct[i].amount)
  }

  predicate SameAmounts(named: seq<NamedTransfer>, direct: seq<DirectTransfer>)
  {
    |named| == |direct| && forall i | 0 <= i < |direct| :: named[i].amount == direct[i].amount
  }

  ghost predicate FitInt32(tf: TransferHistory)
  {
    forall id :: Counterparty(tf, id) ==> Int32(id) == id
  }

  method NameAll(usernames: map<UserId, string>, direct: seq<DirectTransfer>) returns (named: seq<NamedTransfer>)
    ensures |named| == |direct|
    ensures forall i | 0 <= i < |direct| :: named[i] == NamedTransfer(NameIn(usernames, direct[i].targetID), direct[i].amount)
  {
    named := [];
    for i := 0 to |direct|
      invariant |named| == i
      invariant forall k | 0 <= k < i :: named[k] == NamedTransfer(NameIn(usernames, direct[k].targetID), direct[k].amount)
    {
      named := named + [NamedTransfer(NameIn(usernames, direct[i].targetID), direct[i].amount)];
    }
  }

  /** convertToNamedTransferHistory. */
  method ConvertToNamed(users: seq<UserRow>, tf: TransferHistory, failed: bool) returns (history: Option<NamedHistory>)
    requires UniqueIds(users)
    ensures history.Some? <==> !failed
    ensures history.Some? ==> SameAmounts(history.value.incoming, tf.incoming) && SameAmounts(history.value.outcoming, tf.outcoming)
    ensures history.Some? && FitInt32(tf) ==>
              Named(users, history.value.incoming, tf.incoming) && Named(users, history.value.outcoming, tf.outcoming)
  {
    var ids := ExtractUserIDs(tf);
    var usernames := GetUsernames(users, ids, failed);
    if usernames.None? {
      return None;
    }
    var incoming := NameAll(usernames.value, tf.incoming);
    var outcoming := NameAll(usernames.value, tf.outcoming);
    history := Some(NamedHistory(incoming, outcoming));
    if FitInt32(tf) {
      NamesAreDirect(users, ids, usernames.value, tf, history.value);
    }
  }

  lemma NamesAreDirect(users: seq<UserRow>, ids: seq<UserId>, m: map<UserId, string>, tf: TransferHistory, h: NamedHistory)
    requires LooksUp(m, users, ids) && forall id :: id in ids <==> Counterparty(tf, id)
    requires |h.incoming| == |tf.incoming| && |h.outcoming| == |tf.outcoming|
    requires forall i | 0 <= i < |tf.incoming| ::
               h.incoming[i] == NamedTransfer(NameIn(m, tf.incoming[i].targetID), tf.incoming[i].amount)
    requires forall i | 0 <= i < |tf.outcoming| ::
               h.outcoming[i] == NamedTransfer(NameIn(m, tf.outcoming[i].targetID), tf.outcoming[i].amount)
    ensures Named(users, h.incoming, tf.incoming) && Named(users, h.outcoming, tf.outcoming)
  {
    hide LooksUp, NameIn, UserName;
    forall i | 0 <= i < |tf.incoming|
      ensures h.incoming[i].username == UserName(users, tf.incoming[i].targetID)
    {
      ReadsAsUserName(users, ids, m, tf.incoming[i].targetID);
    }
    forall i | 0 <= i < |tf.outcoming|
      ensures h.outcoming[i].username == UserName(users, tf.outcoming[i].targetID)
    {
      ReadsAsUserName(users, ids, m, tf.outcoming[i].targetID);
    }
  }

  /** FetchUserBalance: a missing row is an error, and so is a balance that is no uint32. */
  function FetchUserBalance(row: Option<int>): Option<uint32>
  {
    if row.Some? && 0 <= row.value < 0x1_0000_0000 then Some(row.value) else None
  }

  /** Everything the report needs has arrived. The iteration over the purchases may have broken off. */
  predicate Delivered(got: Reads)
  {
    && !got.nameFails && !got.namesFail && FetchUserBalance(got.balance).Some?
    && got.purchases.Some? && Complete(got.outcoming) && Complete(got.incoming)
  }

  /**
   UserInfoCase.GetUserInfo. The three goroutines share nothing but their results and are joined before
   these are used, so they are run here one after the other over reads that were made at any time.
   */
  method GetUserInfo(callers: seq<UserRow>, users: seq<UserRow>, userId: UserId, got: Reads) returns (info: Option<TotalUserInfo>)
    requires UniqueIds(callers) && UniqueIds(users)
    requires got.purchases.Some? ==> DistinctNames(got.purchases.value.rows)
    ensures info.Some? <==> Delivered(got)
    ensures info.Some? ==> info.value.balance == got.balance.value && CountsOf(info.value.goods, got.purchases.value.rows)
    ensures info.Some? && Int32(userId) == userId ==> info.value.username == UserName(callers, userId)
    ensures info.Some? ==> exists tf | HistoryOf(tf, got.outcoming.value.rows, got.incoming.value.rows) ::
                             Naming(users, info.value.history, tf)
  {
    var username := GetUsername(callers, userId, got.nameFails);
    var balance := FetchUserBalance(got.balance);
    var purchases := FetchUserPurchases(got.purchases);
    var rawTransfers := FetchUserCoinTransfers(got.outcoming, got.incoming);
    if username.None? || balance.None? || purchases.None? || rawTransfers.None? {
      return None;
    }
    var transfers := ConvertToNamed(users, rawTransfers.value, got.namesFail);
    if transfers.None? {
      return None;
    }
    assert Naming(users, transfers.value, rawTransfers.value);
    info := Some(TotalUserInfo(username.value, balance.value, purchases.value, transfers.value));
  }

  ghost predicate Naming(users: seq<UserRow>, history: NamedHistory, tf: TransferHistory)
  {
    && SameAmounts(history.incoming, tf.incoming) && SameAmounts(history.outcoming, tf.outcoming)
    && (FitInt32(tf) ==> Named(users, history.incoming, tf.incoming) && Named(users, history.outcoming, tf.outcoming))
  }

  // ---- internal/store/grpc/store_service.go and internal/gateway/grpc/store_adapter.go ----

  /** The items list the goods outside rest, each once, with its quantity. */
  ghost predicate Lists(items: seq<Item>, goods: map<string, uint32>, rest: set<string>)
  {
    && (forall i, j | 0 <= i < j < |items| :: items[i].name != items[j].name)
    && (forall i | 0 <= i < |items| :: items[i].name in goods && items[i].name !in rest && items[i].quantity == goods[items[i].name])
    && (forall name | name in goods && name !in rest :: exists i :: 0 <= i < |items| && items[i].name == name)
  }

  ghost predicate SentAs(sent: seq<SentTransfer>, named: seq<NamedTransfer>)
  {
    |sent| == |named| && forall i | 0 <= i < |named| :: sent[i] == SentTransfer(named[i].username, named[i].amount)
  }

  ghost predicate ReceivedAs(received: seq<ReceivedTransfer>, named: seq<NamedTransfer>)
  {
    |received| == |named| && forall i | 0 <= i < |named| :: received[i] == ReceivedTransfer(named[i].username, named[i].amount)
  }

  /** convertToUserInfoResponse; the goods are visited in any order. */
  method ConvertToUserInfoResponse(info: TotalUserInfo) returns (resp: Response)
    ensures resp.balance == info.balance && Lists(resp.inventory, info.goods, {})
    ensures SentAs(resp.sent, info.history.outcoming) && ReceivedAs(resp.received, info.history.incoming)
  {
    var inventory := ListGoods(info.goods);
    var sent: seq<SentTransfer> := [];
    for i := 0 to |info.history.outcoming|
      invariant SentAs(sent, info.history.outcoming[..i])
    {
      var transfer := info.history.outcoming[i];
      sent := sent + [SentTransfer(transfer.username, transfer.amount)];
    }
    var received: seq<ReceivedTransfer> := [];
    for i := 0 to |info.history.incoming|
      invariant ReceivedAs(received, info.history.incoming[..i])
    {
      var transfer := info.history.incoming[i];
      received := received + [ReceivedTransfer(transfer.username, transfer.amount)];
    }
    resp := Response(info.balance, inventory, sent, received);
  }

  method ListGoods(goods: map<string, uint32>) returns (inventory: seq<Item>)
    ensures Lists(inventory, goods, {})
  {
    inventory := [];
    var rest := goods.Keys;
    while rest != {}
      invariant rest <= goods.Keys && Lists(inventory, goods, rest)
      decreases rest
    {
      var good := Visit(rest);
      OneMoreItem(inventory, goods, rest, good);
      inventory := inventory + [Item(good, goods[good])];
      rest := rest - {good};
    }
  }

  lemma OneMoreItem(items: seq<Item>, goods: map<string, uint32>, rest: set<string>, good: string)
    requires Lists(items, goods, rest) && good in goods && good in rest
    ensures Lists(items + [Item(good, goods[good])], goods, rest - {good})
  {
    var items' := items + [Item(good, goods[good])];
    assert items'[|items|].name == good;
    assert forall i | 0 <= i < |items| :: items'[i] == items[i];
  }

  /** convertToUserInfo of the gateway: three loops, each of which copies one list. */
  method ConvertToUserInfo(resp: Response) returns (userInfo: UserInfo)
    ensures userInfo == UserInfo(resp.balance, resp.inventory, resp.received, resp.sent)
  {
    var inventory: seq<Item> := [];
    for i := 0 to |resp.inventory|
      invariant inventory == resp.inventory[..i]
    {
      inventory := inventory + [Item(resp.inventory[i].name, resp.inventory[i].quantity)];
    }
    var received: seq<ReceivedTransfer> := [];
    for i := 0 to |resp.received|
      invariant received == resp.received[..i]
    {
      received := received + [ReceivedTransfer(resp.received[i].from, resp.received[i].amount)];
    }
    var sent: seq<SentTransfer> := [];
    for i := 0 to |resp.sent|
      invariant sent == resp.sent[..i]
    {
      sent := sent + [SentTransfer(resp.sent[i].to, resp.sent[i].amount)];
    }
    userInfo := UserInfo(resp.balance, inventory, received, sent);
  }

  // ---- The whole pipeline ----

  /** Everyone whom the rows name on the other side is a user. */
  predicate Known(users: seq<UserRow>, got: Reads)
    requires Delivered(got)
  {
    && (forall t | t in got.outcoming.value.rows :: Registered(users, t.to))
    && (forall t | t in got.incoming.value.rows :: Registered(users, t.from))
  }

  predicate ItemOf(item: Item, row: Counted)
  {
    item.name == row.name && item.quantity == U32(row.count)
  }

  ghost predicate Counting(rows: seq<Counted>, item: Item)
  {
    exists j :: 0 <= j < |rows| && ItemOf(item, rows[j])
  }

  ghost predicate Itemized(items: seq<Item>, row: Counted)
  {
    exists i :: 0 <= i < |items| && ItemOf(items[i], row)
  }

  /** The inventory lists the counted goods, each once, and nothing else. */
  ghost predicate Inventory(items: seq<Item>, rows: seq<Counted>)
  {
    && (forall i, j | 0 <= i < j < |items| :: items[i].name != items[j].name)
    && (forall i | 0 <= i < |items| :: Counting(rows, items[i]))
    && (forall j | 0 <= j < |rows| :: Itemized(items, rows[j]))
  }

  /** A report gives the balance, the inventory, and both lists row by row, with the counterparty's name. */
  ghost predicate Reports(users: seq<UserRow>, got: Reads, report: UserInfo)
    requires Delivered(got)
  {
    var outcoming, incoming := got.outcoming.value.rows, got.incoming.value.rows;
    && report.balance == got.balance.value
    && Inventory(report.inventory, got.purchases.value.rows)
    && |report.sent| == |outcoming| && |report.received| == |incoming|
    && (forall i | 0 <= i < |outcoming| :: report.sent[i].amount == U32(outcoming[i].amount))
    && (forall i | 0 <= i < |incoming| :: report.received[i].amount == U32(incoming[i].amount))
    && (Known(users, got) ==>
          && (forall i | 0 <= i < |outcoming| :: NameOf(users, outcoming[i].to) == Some(report.sent[i].to))
          && (forall i | 0 <= i < |incoming| :: NameOf(users, incoming[i].from) == Some(report.received[i].from)))
  }

  /** From the rows to the report: the composition of all the stages. */
  method GetReport(callers: seq<UserRow>, users: seq<UserRow>, userId: UserId, got: Reads) returns (report: Option<UserInfo>)
    requires UniqueIds(callers) && UniqueIds(users)
    requires got.purchases.Some? ==> DistinctNames(got.purchases.value.rows)
    ensures report.Some? <==> Delivered(got)
    ensures report.Some? ==> Reports(users, got, report.value)
  {
    var info := GetUserInfo(callers, users, userId, got);
    if info.None? {
      return None;
    }
    var resp := ConvertToUserInfoResponse(info.value);
    var userInfo := ConvertToUserInfo(resp);
    InventoryIsListed(userInfo.inventory, info.value.goods, got.purchases.value.rows);
    ghost var tf :| HistoryOf(tf, got.outcoming.value.rows, got.incoming.value.rows) && Naming(users, info.value.history, tf);
    if Known(users, got) {
      KnownFit(users, got, tf);
    }
    report := Some(userInfo);
  }

  lemma InventoryIsListed(items: seq<Item>, goods: map<string, uint32>, rows: seq<Counted>)
    requires Lists(items, goods, {}) && CountsOf(goods, rows)
    ensures Inventory(items, rows)
  {
    forall i | 0 <= i < |items|
      ensures Counting(rows, items[i])
    {
      var j :| 0 <= j < |rows| && rows[j].name == items[i].name;
      assert ItemOf(items[i], rows[j]);
    }
    forall j | 0 <= j < |rows|
      ensures Itemized(items, rows[j])
    {
      var i :| 0 <= i < |items| && items[i].name == rows[j].name;
      assert ItemOf(items[i], rows[j]);
    }
  }

  lemma KnownFit(users: seq<UserRow>, got: Reads, tf: TransferHistory)
    requires UniqueIds(users) && Delivered(got) && Known(users, got)
    requires HistoryOf(tf, got.outcoming.value.rows, got.incoming.value.rows)
    ensures FitInt32(tf)
  {
    var outcoming, incoming := got.outcoming.value.rows, got.incoming.value.rows;
    forall id | Counterparty(tf, id)
      ensures Int32(id) == id
    {
      hide Int32, NameOf, Complete;
      if i :| 0 <= i < |tf.incoming| && tf.incoming[i].targetID == id {
        assert incoming[i] in incoming;
      } else {
        var j :| 0 <= j < |tf.outcoming| && tf.outcoming[j].targetID == id;
        assert outcoming[j] in outcoming;
      }
      RegisteredFits(users, id);
    }
  }
}
