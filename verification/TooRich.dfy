/** The bound on the number of accounts is exact: with one account more, a credit can overflow its INTEGER column. */
module TooRich {
  import opened Ledger
  import opened StoreSystem
  import opened StoreInvariant
  import Conservation
  import Refinement
  import SoloRuns
  import Sums

  /** Users 1 to k have each paid all they had to user 0, one after the other. */
  ghost predicate Collected(s: State, k: nat)
  {
    && Reachable(s) && s.locks == map[]
    && (forall r :: r in s.sessions <==> 0 <= r < k)
    && s.serials.accounts <= 2 * k && s.serials.transfers == k
    && (forall u :: u in s.tables.balances <==> k > 0 && 0 <= u <= k)
    && (k > 0 ==> s.tables.balances[0] == START_BALANCE * (k + 1))
  }

  /** User k + 1 is about to hand everything over as well. */
  ghost predicate AboutToPay(s: State, k: nat)
  {
    && Reachable(s) && s.locks == map[k + 1 := k]
    && (forall r :: r in s.sessions <==> 0 <= r <= k)
    && s.sessions[k].pc == Credit && s.sessions[k].job == Some(Move(Transfer(k + 1, 0, START_BALANCE)))
    && s.serials.accounts <= 2 * k + 2 && s.serials.transfers == k
    && (forall u :: u in s.tables.balances <==> 0 <= u <= k + 1)
    && s.tables.balances[0] == START_BALANCE * (k + 1)
  }

  lemma NextPayer(s: State, k: nat) returns (s': State)
    requires Collected(s, k) && k <= Conservation.SAFE_ACCOUNTS
    ensures AboutToPay(s', k)
  {
    hide Reachable;
    s' := SoloRuns.RunsToCredit(s, k, Transfer(k + 1, 0, START_BALANCE), "collector");
  }

  lemma Pays(s: State, k: nat) returns (s': State)
    requires AboutToPay(s, k) && START_BALANCE * (k + 2) <= INT_MAX
    ensures Collected(s', k + 1)
  {
    hide Reachable;
    s' := SoloRuns.RunsToPaid(s, k);
    assert s'.locks == map[];
  }

  lemma {:induction false} Collects(k: nat) returns (s: State)
    requires START_BALANCE * (k + 1) <= INT_MAX
    ensures Collected(s, k)
  {
    if k == 0 {
      s := Init(map[]);
      assert s == Exec(Init(s.goods), []);
    } else {
      hide Collected, AboutToPay;
      var before := Collects(k - 1);
      var about := NextPayer(before, k - 1);
      s := Pays(about, k - 1);
    }
  }

  lemma {:induction false} CountUpTo(users: set<UserId>, n: nat)
    requires forall u :: u in users <==> 0 <= u < n
    ensures |users| == n
  {
    if n == 0 {
      if users != {} { var u := Sums.SomeMember(users); }
    } else {
      CountUpTo(users - {n - 1}, n - 1);
    }
  }

  /** A reachable state with one account more than is safe, where a credit fails for want of room in the column. */
  lemma SafeAccountsIsTight() returns (s: State, r: ReqId)
    ensures Reachable(s) && |s.tables.balances| == Conservation.SAFE_ACCOUNTS + 1
    ensures r in s.sessions && s.sessions[r].pc.Credit? && s.sessions[r].job.Some? && s.sessions[r].job.value.Move?
    ensures !HeldByOther(s, r, s.sessions[r].job.value.transfer.to)
    ensures Next(s, Advance(r)).sessions[r].pc == Rollback(Failure)
  {
    r := Conservation.SAFE_ACCOUNTS - 1;
    var before := Collects(r);
    s := NextPayer(before, r);
    hide Reachable, Next, Collected;
    CountUpTo(s.tables.balances.Keys, r + 2);
    Refinement.CreditNeverMisses(s, r);
  }
}
