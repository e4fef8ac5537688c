/** What an answer to SendCoins or BuyItem says about the effect of the call, over every run. */
module Outcomes {
  import opened Ledger
  import opened StoreSystem
  import opened StoreInvariant

  /** The gRPC status codes the service answers with. */
  datatype Code = OK | InvalidArgument | NotFound | FailedPrecondition | Internal

  function SendCode(o: Outcome): Code
  {
    match o
    case Ok => OK
    case InvalidArguments => InvalidArgument
    case UserNotFound => NotFound
    case InsufficientBalance => FailedPrecondition
    case _ => Internal
  }

  function BuyCode(o: Outcome): Code
  {
    match o
    case Ok => OK
    case GoodNotFound => InvalidArgument
    case InsufficientBalance => FailedPrecondition
    case UserNotFound => NotFound
    case _ => Internal
  }

  function Reply(ss: Session): Code
    requires ss.pc.Done?
  {
    if ss.request.SendCoins? then SendCode(ss.pc.outcome) else BuyCode(ss.pc.outcome)
  }

  /** The transfers and purchases that the request has committed. */
  function Effects(journal: seq<Entry>, r: ReqId): seq<Op>
  {
    if journal == [] then []
    else
      var e := Last(journal);
      Effects(Front(journal), r) + (if e.req == r && !e.op.Open? then [e.op] else [])
  }

  lemma EffectsAppend(journal: seq<Entry>, e: Entry, r: ReqId)
    ensures Effects(journal + [e], r) == Effects(journal, r) + (if e.req == r && !e.op.Open? then [e.op] else [])
  {
    assert Front(journal + [e]) == journal && Last(journal + [e]) == e;
  }

  /** The record that the request asks for. */
  predicate Matches(goods: Catalogue, q: Request, op: Op)
  {
    match q
    case SendCoins(from, _, amount) =>
      op.Move? && op.transfer.from == from && op.transfer.amount == amount && op.transfer.to != from
    case BuyItem(user, item) =>
      op.Buy? && op.purchase.user == user && op.purchase.good in goods && goods[op.purchase.good].name == item
  }

  /** The accounts that a request may open: its caller's, and its recipient's once that is known. */
  predicate MayOpen(ss: Session, u: UserId)
  {
    u == Caller(ss.request) || (ss.job.Some? && ss.job.value.Move? && u == ss.job.value.transfer.to)
  }

  ghost predicate AccountedFor(journal: seq<Entry>, r: ReqId, ss: Session)
  {
    && (ss.pc.Intercept? || ss.pc.Resolve? ==> ss.job.None?)
    && ss.pc != Rollback(Ok)
    && match ss.pc
       case Done(Ok) => ss.job.Some? && Effects(journal, r) == [ss.job.value]
       case Done(Failure) => Effects(journal, r) == [] || (ss.job.Some? && Effects(journal, r) == [ss.job.value])
       case _ => Effects(journal, r) == []
  }

  ghost predicate Accounted(s: State)
  {
    && (forall r | r in s.sessions :: AccountedFor(s.journal, r, s.sessions[r]))
    && (forall i | 0 <= i < |s.journal| ::
          s.journal[i].req in s.sessions
          && (s.journal[i].op.Open? ==> MayOpen(s.sessions[s.journal[i].req], s.journal[i].op.user)))
  }

  /**
   A step of a live request writes at most one journal entry, for that request: its job, when it
   commits, or the opening of an account it may open. It is the commit alone that leads to Ok.
   */
  ghost predicate Books(s: State, s': State, r: ReqId)
    requires r in s.sessions && r in s'.sessions
  {
    var ss, ss' := s.sessions[r], s'.sessions[r];
    && ss'.request == ss.request && (ss.job.Some? ==> ss'.job == ss.job)
    && (ss'.pc.Intercept? || ss'.pc.Resolve? ==> ss'.job.None?)
    && (if ss.pc.Commit? && s'.journal != s.journal then
          && ss.job.Some? && !ss.job.value.Open? && s'.journal == s.journal + [Entry(r, ss.job.value)]
          && (ss'.pc == Done(Ok) || ss'.pc == Done(Failure))
        else
          && ss'.pc != Done(Ok) && ss'.pc != Rollback(Ok)
          && (s'.journal == s.journal || exists u :: s'.journal == s.journal + [Entry(r, Open(u))] && MayOpen(ss, u)))
  }

  lemma OpenThenBooks(s: State, r: ReqId, u: UserId, next: Pc)
    requires r in s.sessions && MayOpen(s.sessions[r], u) && next != Done(Ok) && next != Rollback(Ok)
    requires !s.sessions[r].pc.Commit?
    requires next.Resolve? || next.Intercept? ==> s.sessions[r].job.None?
    ensures Books(s, OpenThen(s, r, u, next), r)
  {
  }

  lemma ResolveBooks(s: State, r: ReqId, user: Option<UserId>)
    requires r in s.sessions && s.sessions[r].pc.Resolve? && s.sessions[r].job.None?
    ensures s.sessions[r].request.SendCoins? ==> Books(s, AnswerRecipient(s, r, user), r)
    ensures s.sessions[r].request.BuyItem? ==> Books(s, LookUpGood(s, r), r)
  {
  }

  lemma DebitBooks(s: State, r: ReqId)
    requires r in s.sessions && s.sessions[r].job.Some?
    ensures s.sessions[r].pc.Lock? ==> Books(s, LockPayer(s, r), r)
    ensures s.sessions[r].pc.Check? ==> Books(s, CheckBalance(s, r), r)
    ensures s.sessions[r].pc.Debit? ==> Books(s, DebitPayer(s, r), r)
  {
  }

  lemma RecordBooks(s: State, r: ReqId)
    requires r in s.sessions && s.sessions[r].job.Some?
    ensures s.sessions[r].pc.Credit? && s.sessions[r].job.value.Move? ==> Books(s, CreditRecipient(s, r), r)
    ensures s.sessions[r].pc.Record? ==> Books(s, InsertRecord(s, r), r)
  {
  }

  lemma EndBooks(s: State, r: ReqId, o: Outcome)
    requires r in s.sessions && s.sessions[r].job.Some? && !s.sessions[r].job.value.Open?
    ensures s.sessions[r].pc == Rollback(o) && o != Ok ==> Books(s, EndTx(s, r, o), r)
    ensures s.sessions[r].pc.Commit? && (o == Ok || o == Failure) ==> Books(s, CommitTx(s, r, o), r)
  {
  }

  lemma ExecuteBooks(s: State, r: ReqId)
    requires Inv(s) && r in s.sessions && Live(s.sessions[r].pc) && AccountedFor(s.journal, r, s.sessions[r])
    ensures Books(s, Execute(s, r), r)
  {
    var ss := s.sessions[r];
    InvAt(s, r);
    assert ss.job.Some? ==> !ss.job.value.Open?;
    var j := s.sessions[r].job;
    match ss.pc {
      case Intercept => OpenThenBooks(s, r, Caller(ss.request), Resolve);
      case Resolve => ResolveBooks(s, r, None);
      case OpenRecipient => OpenThenBooks(s, r, ss.job.value.transfer.to, Begin);
      case Begin =>
      case Lock => DebitBooks(s, r);
      case Check => DebitBooks(s, r);
      case Debit => DebitBooks(s, r);
      case Credit => RecordBooks(s, r);
      case Record => RecordBooks(s, r);
      case Commit => EndBooks(s, r, Ok);
      case Rollback(why) => EndBooks(s, r, why);
    }
  }

  lemma BreakBooks(s: State, r: ReqId)
    requires r in s.sessions && AccountedFor(s.journal, r, s.sessions[r])
    ensures Break(s, r) == s || Books(s, Break(s, r), r)
  {
  }

  lemma VanishBooks(s: State, r: ReqId)
    requires Inv(s) && r in s.sessions && AccountedFor(s.journal, r, s.sessions[r])
    ensures Vanish(s, r) == s || Books(s, Vanish(s, r), r)
  {
    var ss := s.sessions[r];
    InvAt(s, r);
    assert ss.job.Some? ==> !ss.job.value.Open?;
    hide Inv, SessionFits, Sound;
    match ss.pc {
      case Intercept => OpenThenBooks(s, r, Caller(ss.request), Done(Failure));
      case OpenRecipient => OpenThenBooks(s, r, ss.job.value.transfer.to, Done(Failure));
      case Commit => EndBooks(s, r, Failure);
      case _ =>
    }
  }

  lemma NextBooks(s: State, e: Event)
    requires Inv(s) && Accounted(s) && e.r in s.sessions
    ensures Next(s, e) == s || (Live(s.sessions[e.r].pc) && Books(s, Next(s, e), e.r))
  {
    assert AccountedFor(s.journal, e.r, s.sessions[e.r]);
    hide Inv, Books, Accounted, AccountedFor, Execute, Break, Vanish, AnswerRecipient;
    if s.sessions[e.r].pc.Done? {
      EndedStays(s, e.r);
    } else {
      match e {
        case Arrive(_, _) =>
        case Answer(r, user) =>
          if s.sessions[r].pc == Resolve && s.sessions[r].request.SendCoins? {
            assert s.sessions[r].job.None? by { AccountedJob(s, r); }
            ResolveBooks(s, r, user);
          }
        case Advance(r) => ExecuteBooks(s, r);
        case Fail(r) => BreakBooks(s, r);
        case LoseAck(r) => VanishBooks(s, r);
      }
    }
  }

  lemma AccountedJob(s: State, r: ReqId)
    requires r in s.sessions && AccountedFor(s.journal, r, s.sessions[r]) && s.sessions[r].pc.Resolve?
    ensures s.sessions[r].job.None?
  {
  }

  lemma EndedStays(s: State, r: ReqId)
    requires r in s.sessions && s.sessions[r].pc.Done?
    ensures Execute(s, r) == Break(s, r) == Vanish(s, r) == s
  {
  }

  lemma BooksKeepAccounted(s: State, s': State, r: ReqId)
    requires Accounted(s) && r in s.sessions && OwnSession(s, s', r)
    requires Live(s.sessions[r].pc) && Books(s, s', r)
    ensures Accounted(s')
  {
    assert AccountedFor(s.journal, r, s.sessions[r]);
    if s'.journal != s.journal {
      var e := Last(s'.journal);
      assert s'.journal == s.journal + [e];
      forall q | q in s'.sessions
        ensures AccountedFor(s'.journal, q, s'.sessions[q])
      {
        EffectsAppend(s.journal, e, q);
        assert q != r ==> AccountedFor(s.journal, q, s.sessions[q]);
      }
    }
  }

  /** A request that has not arrived has committed nothing. */
  lemma {:induction false} NoEffectsBefore(s: State, journal: seq<Entry>, r: ReqId)
    requires journal <= s.journal && Accounted(s) && r !in s.sessions
    ensures Effects(journal, r) == []
  {
    if journal != [] {
      assert Last(journal) == s.journal[|journal| - 1];
      NoEffectsBefore(s, Front(journal), r);
    }
  }

  lemma NextKeepsAccounted(s: State, e: Event)
    requires Inv(s) && Accounted(s)
    ensures Accounted(Next(s, e))
  {
    if e.r in s.sessions {
      NextBooks(s, e);
      if Next(s, e) != s {
        NextIsOwn(s, e);
        BooksKeepAccounted(s, Next(s, e), e.r);
      }
    } else if e.Arrive? {
      NoEffectsBefore(s, s.journal, e.r);
    }
  }

  lemma NextIsOwn(s: State, e: Event)
    requires e.r in s.sessions
    ensures OwnSession(s, Next(s, e), e.r)
  {
    hide Execute, Break, Vanish, AnswerRecipient;
  }

  lemma {:induction false} RunIsAccounted(s: State, events: seq<Event>)
    requires Inv(s) && Accounted(s)
    ensures Accounted(Exec(s, events))
  {
    if events != [] {
      RunIsAccounted(s, Front(events));
      RunKeepsInv(s, Front(events));
      NextKeepsAccounted(Exec(s, Front(events)), Last(events));
    }
  }

  lemma ReachableAccounted(s: State)
    requires Reachable(s)
    ensures Inv(s) && Accounted(s)
  {
    var events :| s == Exec(Init(s.goods), events);
    ReachableInv(s);
    RunIsAccounted(Init(s.goods), events);
  }

  /**
   OK means that exactly one record was committed for the request, the one it asks for. A code that
   names the client's fault means that none was. Internal leaves both possible, for a commit may
   have gone through unacknowledged; nothing else can have happened.
   */
  lemma ReplyMatchesEffect(s: State, r: ReqId)
    requires Reachable(s) && r in s.sessions && s.sessions[r].pc.Done?
    ensures var code, effects := Reply(s.sessions[r]), Effects(s.journal, r);
            && (code == OK ==> |effects| == 1)
            && (code != OK && code != Internal ==> effects == [])
            && |effects| <= 1
            && (forall op | op in effects :: s.sessions[r].job == Some(op) && Matches(s.goods, s.sessions[r].request, op))
  {
    ReachableAccounted(s);
    InvAt(s, r);
    assert AccountedFor(s.journal, r, s.sessions[r]);
  }

  /** Before it is answered, a request has committed no transfer and no purchase. */
  lemma PendingHasNoEffect(s: State, r: ReqId)
    requires Reachable(s) && r in s.sessions && Live(s.sessions[r].pc)
    ensures Effects(s.journal, r) == []
  {
    ReachableAccounted(s);
    assert AccountedFor(s.journal, r, s.sessions[r]);
  }

  /** Besides its record, a request can only have opened its caller's or its recipient's account. */
  lemma OpensOnlyItsOwn(s: State, i: nat)
    requires Reachable(s) && i < |s.journal| && s.journal[i].op.Open?
    ensures s.journal[i].req in s.sessions && MayOpen(s.sessions[s.journal[i].req], s.journal[i].op.user)
  {
    ReachableAccounted(s);
  }
}
