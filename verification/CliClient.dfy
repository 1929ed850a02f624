/**
 The client's polling loop, run jointly with the authorization server (RFC 8628, section 3.5).
 A script decides everything the client does not: how long it oversleeps, which other requests the
 server handles meanwhile, whether a token request or its answer is lost. The script may do anything,
 except that a request is handled before its timeout or never, and nobody else polls this device.
 Client and server read one clock.
*/
module CliClient {
  import opened Wrappers
  import opened CliAuthRows
  import opened CliAuthRuns
  import opened CliAuthSafety

  datatype Round = Round(
    oversleep: nat, before: seq<Event>,
    lost: bool, t: Id, delay: nat, between: seq<Event>, entitlement: Entitlement,
    later: seq<Event>, token: CliAuthRows.Token, issueAt: Time,
    replyLost: bool, latency: nat)

  datatype Reply = Success(token: CliAuthRows.Token) | OAuthError(error: AuthError) | TimedOut

  /** One token request: when it was sent, the interval then in force, what came back. */
  datatype Sent = Sent(at: Time, interval: int, reply: Reply, back: Time)

  datatype Outcome =
    | SignedIn(token: CliAuthRows.Token) | AuthorizationDenied | AuthorizationExpired | AuthorizationFailed
    | InvalidAuthorization

  const MAXIMUM_BACKOFF: int := 600

  function Double(interval: int): int {
    if interval * 2 < MAXIMUM_BACKOFF then interval * 2 else MAXIMUM_BACKOFF
  }

  /** Back off on a timeout, add five seconds on slow_down, keep polling on pending. */
  function NextInterval(interval: int, reply: Reply): int {
    match reply
    case TimedOut => Double(interval)
    case OAuthError(SlowDown) => interval + 5
    case _ => interval
  }

  predicate Continues(reply: Reply) {
    reply == TimedOut || reply == OAuthError(SlowDown) || reply == OAuthError(AuthorizationPending)
  }

  function Verdict(reply: Reply): Outcome
    requires !Continues(reply)
  {
    match reply
    case Success(token) => SignedIn(token)
    case OAuthError(AccessDenied) => AuthorizationDenied
    case OAuthError(ExpiredToken) => AuthorizationExpired
    case _ => AuthorizationFailed
  }

  // ---------------------------------------------------------------- the server's side of one round

  function Subject(ev: Event): Option<Id> {
    match ev
    case ReviewRead(t, _, _, _, _) => Some(t)
    case ReviewCommit(t, _) => Some(t)
    case DecideRead(t, _, _, _, _, _, _) => Some(t)
    case DecideCommit(t, _, _) => Some(t)
    case ExchangeRead(t, _, _) => Some(t)
    case ExchangeClaim(t, _) => Some(t)
    case ExchangeFinish(t, _, _) => Some(t)
    case RevokeRead(t, _, _) => Some(t)
    case RevokeCommit(t, _) => Some(t)
    case Abort(t) => Some(t)
    case Create(_, _, _, _, _, _, _, _) => None
  }

  /** Somebody else's event: it neither polls device `d` nor acts for request `t`. */
  predicate Foreign(ev: Event, d: Id, t: Id) {
    !(ev.ExchangeRead? && ev.d == d) && Subject(ev) != Some(t)
  }

  predicate AllForeign(events: seq<Event>, d: Id, t: Id) {
    forall i :: 0 <= i < |events| ==> Foreign(events[i], d, t)
  }

  predicate FairRound(r: Round, d: Id) {
    AllForeign(r.before, d, r.t) && AllForeign(r.between, d, r.t) && AllForeign(r.later, d, r.t)
  }

  /** The server handles the request at time `now`, interleaved with other requests, and ends it one way or another. */
  function Handle(s: Sys, d: Id, r: Round, now: Time): Sys {
    var s1 := Next(s, ExchangeRead(r.t, d, now));
    var s2 := Next(Run(s1, r.between), ExchangeClaim(r.t, r.entitlement));
    var s3 := Next(Run(s2, r.later), ExchangeFinish(r.t, r.token, r.issueAt));
    Next(s3, Abort(r.t))
  }

  function ReplyOf(s: Sys, t: Id): Reply {
    if t !in s.answers then TimedOut
    else match s.answers[t]
      case Token(token) => Success(token)
      case Failed(e) => OAuthError(e)
      case _ => TimedOut
  }

  /** No request but `t` is polling `d`. */
  ghost predicate SolePoller(s: Sys, d: Id, t: Id) {
    forall u :: u in s.txns && u != t && (s.txns[u].Polling? || s.txns[u].Redeeming?) ==> s.txns[u].device != d
  }

  /** Nobody is polling `d`, no penalty was ever stored, and the next poll is allowed by `bound`. */
  ghost predicate Calm(s: Sys, d: Id, bound: Time) {
    && Inv(s) && d in s.db.devices
    && (forall u :: u in s.txns && (s.txns[u].Polling? || s.txns[u].Redeeming?) ==> s.txns[u].device != d)
    && s.db.devices[d].interval == 5
    && s.db.devices[d].nextPollAt <= bound
  }

  /** A device just created is calm: the joint premise holds from the first second of its life. */
  lemma NewDeviceIsCalm(events: seq<Event>, ev: Event, start: Time)
    requires ev.Create? && ev.now <= start
    requires var s := Run(Init, events);
             && ev.d !in s.db.devices && !HasDeviceCode(s.db, ev.deviceCode) && !HasUserCode(s.db, ev.userCode)
             && CreationError(ev.clientId, ev.scopes, ev.rooms) == None
    ensures Calm(Next(Run(Init, events), ev), ev.d, start + 5 * SECOND)
  {
    Reachable(events);
    var s := Run(Init, events);
    NextKeeps(s, ev);
    hide DevicesOk, GrantsOk, IssuedOk, CodesOk, Run, CreationError, HasDeviceCode, HasUserCode;
    assert forall t :: t in s.txns ==> TxnOk(s.db.devices, s.txns[t]);
  }

  /** The part of a row that only polling changes. */
  ghost predicate SamePace(was: Device, row: Device) {
    row.pollVersion == was.pollVersion && row.interval == was.interval && row.nextPollAt == was.nextPollAt
  }

  /** Device `d`'s pace and request `t` are exactly as before. */
  ghost predicate Undisturbed(s: Sys, s': Sys, d: Id, t: Id) {
    && d in s.db.devices && d in s'.db.devices && SamePace(s.db.devices[d], s'.db.devices[d]) && SolePoller(s', d, t)
    && (t in s'.txns <==> t in s.txns) && (t in s.txns ==> s'.txns[t] == s.txns[t])
    && (t in s'.answers <==> t in s.answers) && (t in s.answers ==> s'.answers[t] == s.answers[t])
  }

  lemma ForeignStep(s: Sys, ev: Event, d: Id, t: Id)
    requires Inv(s) && d in s.db.devices && Foreign(ev, d, t) && SolePoller(s, d, t)
    ensures Undisturbed(s, Next(s, ev), d, t)
  {
    hide Inv, Undisturbed, SolePoller;
    match ev
    case ReviewRead(_, _, _, _, _) => ForeignReviewRead(s, ev, d, t);
    case DecideRead(_, _, _, _, _, _, _) => ForeignDecideRead(s, ev, d, t);
    case ExchangeRead(_, _, _) => ForeignExchangeRead(s, ev, d, t);
    case ReviewCommit(_, _) => ForeignReview(s, ev, d, t);
    case DecideCommit(_, _, _) => ForeignDecide(s, ev, d, t);
    case ExchangeClaim(u, _) => ForeignClaim(s, ev, d, t);
    case ExchangeFinish(u, _, _) => ForeignFinish(s, ev, d, t);
    case Create(_, _, _, _, _, _, _, _) => ForeignCreate(s, ev, d, t);
    case RevokeRead(_, _, _) => ForeignRevokeRead(s, ev, d, t);
    case RevokeCommit(_, _) => ForeignRevoke(s, ev, d, t);
    case Abort(u) => ForeignEnd(s, u, Aborted, d, t);
  }

  lemma ForeignEnd(s: Sys, u: Id, a: Answer, d: Id, t: Id)
    requires d in s.db.devices && u != t && SolePoller(s, d, t)
    ensures Undisturbed(s, Answered(s, u, a), d, t) && Undisturbed(s, s, d, t)
  {
  }

  lemma ForeignBegin(s: Sys, u: Id, txn: Txn, d: Id, t: Id)
    requires d in s.db.devices && u != t && SolePoller(s, d, t) && (txn.Polling? ==> txn.device != d) && !txn.Redeeming?
    ensures Undisturbed(s, s.(txns := s.txns[u := txn]), d, t)
  {
  }

  lemma ForeignReviewRead(s: Sys, ev: Event, d: Id, t: Id)
    requires d in s.db.devices && Foreign(ev, d, t) && SolePoller(s, d, t) && ev.ReviewRead?
    ensures Undisturbed(s, DoReviewRead(s, ev), d, t)
  {
    hide Undisturbed, SolePoller, NewRequest;
    ForeignEnd(s, ev.t, Failed(InvalidOrExpiredCode), d, t);
    ForeignEnd(s, ev.t, Failed(AlreadyDecided), d, t);
    ForeignEnd(s, ev.t, Failed(RoomUnavailable), d, t);
    ForeignBegin(s, ev.t, Reviewing(ev.d, ev.user), d, t);
  }

  lemma ForeignDecideRead(s: Sys, ev: Event, d: Id, t: Id)
    requires d in s.db.devices && Foreign(ev, d, t) && SolePoller(s, d, t) && ev.DecideRead?
    ensures Undisturbed(s, DoDecideRead(s, ev), d, t)
  {
    hide Undisturbed, SolePoller, NewRequest;
    ForeignEnd(s, ev.t, Failed(InvalidOrExpiredCode), d, t);
    ForeignEnd(s, ev.t, Failed(AccountMismatch), d, t);
    ForeignEnd(s, ev.t, Failed(RoomUnavailable), d, t);
    ForeignBegin(s, ev.t, Deciding(ev.d, ev.user, ev.approve, ev.now), d, t);
  }

  lemma ForeignExchangeRead(s: Sys, ev: Event, d: Id, t: Id)
    requires d in s.db.devices && Foreign(ev, d, t) && SolePoller(s, d, t) && ev.ExchangeRead?
    ensures Undisturbed(s, DoExchangeRead(s, ev), d, t)
  {
    hide Undisturbed, SolePoller, NewRequest;
    ForeignEnd(s, ev.t, Failed(InvalidGrant), d, t);
    ForeignEnd(s, ev.t, Failed(ExpiredToken), d, t);
    ForeignEnd(s, ev.t, Failed(AccessDenied), d, t);
    if ev.d in s.db.devices {
      ForeignBegin(s, ev.t, Polling(ev.d, s.db.devices[ev.d], ev.now), d, t);
    }
  }

  lemma ForeignReview(s: Sys, ev: Event, d: Id, t: Id)
    requires d in s.db.devices && Foreign(ev, d, t) && SolePoller(s, d, t) && ev.ReviewCommit?
    ensures Undisturbed(s, DoReviewCommit(s, ev), d, t)
  {
    hide Locked;
  }

  lemma ForeignDecide(s: Sys, ev: Event, d: Id, t: Id)
    requires d in s.db.devices && Foreign(ev, d, t) && SolePoller(s, d, t) && ev.DecideCommit?
    ensures Undisturbed(s, DoDecideCommit(s, ev), d, t)
  {
    hide Locked;
  }

  lemma ForeignCreate(s: Sys, ev: Event, d: Id, t: Id)
    requires d in s.db.devices && SolePoller(s, d, t) && ev.Create?
    ensures Undisturbed(s, DoCreate(s, ev), d, t)
  {
    hide CreationError, HasDeviceCode, HasUserCode;
  }

  lemma ForeignRevokeRead(s: Sys, ev: Event, d: Id, t: Id)
    requires d in s.db.devices && Foreign(ev, d, t) && SolePoller(s, d, t) && ev.RevokeRead?
    ensures Undisturbed(s, DoRevokeRead(s, ev), d, t)
  {
    hide Undisturbed, SolePoller, NewRequest;
    ForeignEnd(s, ev.t, Failed(GrantNotFound), d, t);
    ForeignEnd(s, ev.t, Fine, d, t);
    ForeignBegin(s, ev.t, Revoking(ev.g), d, t);
  }

  lemma ForeignRevoke(s: Sys, ev: Event, d: Id, t: Id)
    requires d in s.db.devices && Foreign(ev, d, t) && SolePoller(s, d, t) && ev.RevokeCommit?
    ensures Undisturbed(s, DoRevokeCommit(s, ev), d, t)
  {
  }

  /** Another device's row may change in any way. */
  lemma ForeignStore(s: Sys, u: Id, e: Id, row: Device, history: map<Id, History>, a: Answer, d: Id, t: Id)
    requires d in s.db.devices && u != t && e != d && SolePoller(s, d, t)
    ensures Undisturbed(s, Answered(s.(db := s.db.(devices := s.db.devices[e := row]), history := history), u, a), d, t)
  {
  }

  lemma ForeignLock(s: Sys, u: Id, d: Id, t: Id)
    requires d in s.db.devices && u != t && SolePoller(s, d, t) && u in s.txns && s.txns[u].Polling?
    ensures s.txns[u].device != d
    ensures Undisturbed(s, s.(txns := s.txns[u := Redeeming(s.txns[u].device, s.txns[u].row, s.txns[u].now)]), d, t)
  {
  }

  lemma ForeignClaim(s: Sys, ev: Event, d: Id, t: Id)
    requires d in s.db.devices && Foreign(ev, d, t) && SolePoller(s, d, t) && ev.ExchangeClaim?
    ensures Undisturbed(s, DoExchangeClaim(s, ev), d, t)
  {
    hide Locked, ClaimUpdate, Usable, TooEarly, Undisturbed, SolePoller;
    ForeignEnd(s, ev.t, Failed(SlowDown), d, t);
    ForeignEnd(s, ev.t, Failed(AccessDenied), d, t);
    ForeignEnd(s, ev.t, Failed(RoomUnavailable), d, t);
    if DoExchangeClaim(s, ev) != s
       && ClaimUpdate(s.db, s.txns[ev.t].device, s.txns[ev.t].row, s.txns[ev.t].now).Some? {
      ForeignClaimed(s, ev, d, t);
    }
  }

  lemma ForeignClaimed(s: Sys, ev: Event, d: Id, t: Id)
    requires d in s.db.devices && Foreign(ev, d, t) && SolePoller(s, d, t) && ev.ExchangeClaim?
    requires ev.t in s.txns && s.txns[ev.t].Polling? && s.txns[ev.t].device in s.db.devices
               && s.txns[ev.t].device in s.history
    requires ClaimUpdate(s.db, s.txns[ev.t].device, s.txns[ev.t].row, s.txns[ev.t].now).Some?
    ensures Undisturbed(s, DoExchangeClaim(s, ev), d, t)
  {
    hide Locked, ClaimUpdate, Usable, TooEarly, Undisturbed, SolePoller;
    var txn := s.txns[ev.t];
    var e, claimed := txn.device, ClaimUpdate(s.db, txn.device, txn.row, txn.now).value;
    ForeignLock(s, ev.t, d, t);
    ForeignEnd(s, ev.t, Failed(AccessDenied), d, t);
    ForeignEnd(s, ev.t, Failed(RoomUnavailable), d, t);
    ForeignStore(s, ev.t, e, claimed, Recorded(s, e, Poll(txn.now, Slow)), Failed(SlowDown), d, t);
    ForeignStore(s, ev.t, e, claimed, Recorded(s, e, Poll(txn.now, Waiting)), Failed(AuthorizationPending), d, t);
    ForeignStore(s, ev.t, e, claimed, Recorded(s, e, Poll(txn.now, GrantGone)), Failed(ExpiredToken), d, t);
  }

  lemma ForeignFinish(s: Sys, ev: Event, d: Id, t: Id)
    requires d in s.db.devices && Foreign(ev, d, t) && SolePoller(s, d, t) && ev.ExchangeFinish?
    ensures Undisturbed(s, DoExchangeFinish(s, ev), d, t)
  {
    hide Locked, ClaimUpdate, Usable, Recorded, Holds;
  }

  lemma {:induction false} ForeignRun(s: Sys, events: seq<Event>, d: Id, t: Id)
    requires Inv(s) && d in s.db.devices && AllForeign(events, d, t) && SolePoller(s, d, t)
    ensures Inv(Run(s, events)) && Undisturbed(s, Run(s, events), d, t)
    ensures d in Run(s, events).db.devices && RowMoves(s.db.devices[d], Run(s, events).db.devices[d])
  {
    hide Inv, RowMoves;
    RunKeeps(s, events);
    RunMoves(s, events, d);
    hide Next, SolePoller;
    if events != [] {
      var before, last := events[..|events| - 1], events[|events| - 1];
      ForeignRun(s, before, d, t);
      ForeignStep(Run(s, before), last, d, t);
    }
  }

  // ---------------------------------------------------------------- one handled request

  /** Why an answer came: slow_down only after a decision committed between the request's read and its claim. */
  ghost predicate Explained(s: Sys, s': Sys, d: Id, reply: Reply) {
    && d in s.db.devices && d in s'.db.devices
    && (reply == OAuthError(SlowDown) ==>
          && s.db.devices[d].status == Pending
          && (s'.db.devices[d].status == Approved || s'.db.devices[d].status == Denied))
    && (reply.Success? ==> exists e :: e in s'.issued && e.device == d && e.token == reply.token)
  }

  /** The request read at `now`, unfinished or already answered, and what is known of device `d` meanwhile. */
  ghost predicate Underway(s: Sys, m: Sys, d: Id, t: Id, now: Time) {
    && Inv(m) && d in s.db.devices && d in m.db.devices && RowMoves(s.db.devices[d], m.db.devices[d])
    && SolePoller(m, d, t)
    && m.db.devices[d].interval == 5 && m.db.devices[d].nextPollAt <= now + 5 * SECOND
    && (t in m.txns ==>
          && t !in m.answers && (m.txns[t].Polling? || m.txns[t].Redeeming?)
          && m.txns[t].device == d && m.txns[t].now == now
          && m.txns[t].row.status == s.db.devices[d].status
          && (m.txns[t].Polling? ==>
                && !TooEarly(m.txns[t].row, now) && m.txns[t].row.interval == 5
                && m.txns[t].row.pollVersion == s.db.devices[d].pollVersion == m.db.devices[d].pollVersion))
    && (t in m.answers ==> !m.answers[t].Token? && Explained(s, m, d, ReplyOf(m, t)))
  }

  lemma ReadUnderway(s: Sys, d: Id, t: Id, now: Time)
    requires Calm(s, d, now) && NewRequest(s, t)
    ensures Underway(s, Next(s, ExchangeRead(t, d, now)), d, t, now)
  {
    hide Inv;
    NextKeeps(s, ExchangeRead(t, d, now));
    StepMoves(s, ExchangeRead(t, d, now), d);
  }

  lemma OthersUnderway(s: Sys, m: Sys, events: seq<Event>, d: Id, t: Id, now: Time)
    requires Underway(s, m, d, t, now) && AllForeign(events, d, t)
    ensures Underway(s, Run(m, events), d, t, now)
  {
    hide Inv, Run, SolePoller;
    ForeignRun(m, events, d, t);
    MovesCompose(s.db.devices[d], m.db.devices[d], Run(m, events).db.devices[d]);
  }

  lemma ClaimUnderway(s: Sys, m: Sys, d: Id, t: Id, now: Time, entitlement: Entitlement)
    requires Underway(s, m, d, t, now)
    ensures Underway(s, Next(m, ExchangeClaim(t, entitlement)), d, t, now)
  {
    hide Inv;
    var ev := ExchangeClaim(t, entitlement);
    var m' := DoExchangeClaim(m, ev);
    NextKeeps(m, ev);
    StepMoves(m, ev, d);
    MovesCompose(s.db.devices[d], m.db.devices[d], m'.db.devices[d]);
    if m' != m {
      ClaimCalm(m, d, t, now, entitlement);
    }
  }

  /** The claim of a request that came in time: no penalty, and a lost claim only against a decision. */
  lemma ClaimCalm(m: Sys, d: Id, t: Id, now: Time, entitlement: Entitlement)
    requires t in m.txns && m.txns[t].Polling? && m.txns[t].device == d && m.txns[t].now == now && d in m.db.devices
    requires t !in m.answers && SolePoller(m, d, t) && d in m.history
    requires !TooEarly(m.txns[t].row, now) && m.txns[t].row.interval == 5
    requires m.txns[t].row.pollVersion == m.db.devices[d].pollVersion
    requires m.db.devices[d].interval == 5 && m.db.devices[d].nextPollAt <= now + 5 * SECOND
    ensures var m' := DoExchangeClaim(m, ExchangeClaim(t, entitlement));
            && d in m'.db.devices && SolePoller(m', d, t)
            && m'.db.devices[d].interval == 5 && m'.db.devices[d].nextPollAt <= now + 5 * SECOND
            && m'.db.devices[d].status == m.db.devices[d].status
            && (t in m'.txns ==> t !in m'.answers && (m' == m || m'.txns[t] == Redeeming(d, m.txns[t].row, now)))
            && (t in m'.answers ==>
                  && m'.answers[t].Failed?
                  && (m'.answers[t].error == SlowDown ==> m.txns[t].row.status != m.db.devices[d].status))
  {
    var ev := ExchangeClaim(t, entitlement);
    var row := m.txns[t].row;
    ClaimAnswers(m, d, t, now, entitlement);
    ClaimSolePoller(m, d, t, entitlement);
    if DoExchangeClaim(m, ev) != m {
      ClaimedDevices(m, ev);
      hide DoExchangeClaim, SolePoller;
      assert ClaimUpdate(m.db, d, row, now).Some? ==>
        ClaimUpdate(m.db, d, row, now).value ==
          m.db.devices[d].(pollVersion := row.pollVersion + 1, interval := 5, nextPollAt := now + 5 * SECOND);
    }
  }

  lemma ClaimAnswers(m: Sys, d: Id, t: Id, now: Time, entitlement: Entitlement)
    requires t in m.txns && m.txns[t].Polling? && m.txns[t].device == d && m.txns[t].now == now && d in m.db.devices
    requires t !in m.answers && !TooEarly(m.txns[t].row, now)
               && m.txns[t].row.pollVersion == m.db.devices[d].pollVersion
    ensures var m' := DoExchangeClaim(m, ExchangeClaim(t, entitlement));
            && (t in m'.txns ==> t !in m'.answers && (m' == m || m'.txns[t] == Redeeming(d, m.txns[t].row, now)))
            && (t in m'.answers ==>
                  && m'.answers[t].Failed?
                  && (m'.answers[t].error == SlowDown ==> m.txns[t].row.status != m.db.devices[d].status))
  {
    hide Locked, Usable, TooEarly;
  }

  lemma ClaimSolePoller(m: Sys, d: Id, t: Id, entitlement: Entitlement)
    requires SolePoller(m, d, t)
    ensures SolePoller(DoExchangeClaim(m, ExchangeClaim(t, entitlement)), d, t)
  {
    hide Locked, Usable, TooEarly, ClaimUpdate;
  }

  /** The last step of a redemption whose claim came in time. */
  lemma RedeemCalm(m: Sys, d: Id, t: Id, now: Time, token: CliAuthRows.Token, issueAt: Time)
    requires Inv(m) && t in m.txns && m.txns[t].Redeeming? && m.txns[t].device == d && m.txns[t].now == now
    requires d in m.db.devices && m.db.devices[d].interval == 5 && m.db.devices[d].nextPollAt <= now + 5 * SECOND
    requires SolePoller(m, d, t) && t !in m.answers
    ensures var m' := DoExchangeFinish(m, ExchangeFinish(t, token, issueAt));
            && d in m'.db.devices && SolePoller(m', d, t)
            && m'.db.devices[d].interval == 5 && m'.db.devices[d].nextPollAt <= now + 5 * SECOND
            && (m' != m ==> t !in m'.txns && t in m'.answers)
            && (t in m'.answers ==>
                  || m'.answers[t] == Failed(ExpiredToken)
                  || (m'.answers[t] == Token(token) && m'.issued != [] && m'.issued[|m'.issued| - 1].device == d
                      && m'.issued[|m'.issued| - 1].token == token))
  {
    hide Inv, RowOk, GrantOk, Holds;
    RedeemingFacts(m, t);
    SnapshotEarlier(m, t);
    RedeemingInTime(m, t);
    hide Advances, Earlier;
  }

  lemma RedeemingInTime(m: Sys, t: Id)
    requires Inv(m) && t in m.txns && m.txns[t].Redeeming?
    ensures m.txns[t].device in m.db.devices
    ensures !TooEarly(m.txns[t].row, m.txns[t].now)
    ensures m.txns[t].row.pollVersion == m.db.devices[m.txns[t].device].pollVersion
  {
    assert TxnOk(m.db.devices, m.txns[t]);
  }

  lemma AbortCalm(s: Sys, m: Sys, d: Id, t: Id, bound: Time)
    requires Inv(m) && d in m.db.devices && SolePoller(m, d, t) && d in s.db.devices
    requires m.db.devices[d].interval == 5 && m.db.devices[d].nextPollAt <= bound
    requires t in m.answers ==> t !in m.txns && Explained(s, m, d, ReplyOf(m, t))
    ensures var m' := Next(m, Abort(t));
            && m'.db == m.db && Calm(m', d, bound) && Explained(s, m', d, ReplyOf(m', t))
  {
    hide Inv;
    NextKeeps(m, Abort(t));
  }

  lemma FinishCalm(s: Sys, m: Sys, d: Id, t: Id, now: Time, token: CliAuthRows.Token, issueAt: Time)
    requires Underway(s, m, d, t, now)
    ensures var m' := Next(Next(m, ExchangeFinish(t, token, issueAt)), Abort(t));
            Calm(m', d, now + 5 * SECOND) && Explained(s, m', d, ReplyOf(m', t))
                && RowMoves(s.db.devices[d], m'.db.devices[d])
  {
    hide Inv;
    var ev := ExchangeFinish(t, token, issueAt);
    var m1 := Next(m, ev);
    NextKeeps(m, ev);
    StepMoves(m, ev, d);
    MovesCompose(s.db.devices[d], m.db.devices[d], m1.db.devices[d]);
    hide RowMoves;
    FinishExplained(s, m, d, t, now, token, issueAt);
    hide SolePoller, Explained, Underway, Calm;
    AbortCalm(s, m1, d, t, now + 5 * SECOND);
  }

  lemma FinishExplained(s: Sys, m: Sys, d: Id, t: Id, now: Time, token: CliAuthRows.Token, issueAt: Time)
    requires Underway(s, m, d, t, now)
    ensures var m1 := Next(m, ExchangeFinish(t, token, issueAt));
            && d in m1.db.devices && d in s.db.devices && SolePoller(m1, d, t)
            && m1.db.devices[d].interval == 5 && m1.db.devices[d].nextPollAt <= now + 5 * SECOND
            && (t in m1.answers ==> t !in m1.txns && Explained(s, m1, d, ReplyOf(m1, t)))
  {
    hide Inv, RowMoves, SolePoller;
    if t in m.txns && m.txns[t].Redeeming? {
      RedeemCalm(m, d, t, now, token, issueAt);
      var m1 := DoExchangeFinish(m, ExchangeFinish(t, token, issueAt));
      hide DoExchangeFinish;
      if t in m1.answers && m1.answers[t] == Token(token) {
        assert m1.issued[|m1.issued| - 1] in m1.issued;
      }
    }
  }

  /** A request sent no earlier than the server allows is never penalised, however it interleaves. */
  lemma HandleIsCalm(s: Sys, d: Id, r: Round, now: Time)
    requires Calm(s, d, now) && FairRound(r, d) && NewRequest(s, r.t)
    ensures var s' := Handle(s, d, r, now);
            && Calm(s', d, now + 5 * SECOND)
            && Explained(s, s', d, ReplyOf(s', r.t))
            && RowMoves(s.db.devices[d], s'.db.devices[d])
  {
    hide Underway, Calm, Explained, RowMoves, Next, Run;
    var s1 := Next(s, ExchangeRead(r.t, d, now));
    ReadUnderway(s, d, r.t, now);
    OthersUnderway(s, s1, r.between, d, r.t, now);
    ClaimUnderway(s, Run(s1, r.between), d, r.t, now, r.entitlement);
    var s2 := Next(Run(s1, r.between), ExchangeClaim(r.t, r.entitlement));
    OthersUnderway(s, s2, r.later, d, r.t, now);
    FinishCalm(s, Run(s2, r.later), d, r.t, now, r.token, r.issueAt);
  }

  // ---------------------------------------------------------------- the polling loop

  function IntervalAfter(interval: int, trace: seq<Sent>): int {
    if trace == [] then interval
    else NextInterval(IntervalAfter(interval, trace[..|trace| - 1]), trace[|trace| - 1].reply)
  }

  function SlowDowns(trace: seq<Sent>): nat {
    if trace == [] then 0
    else SlowDowns(trace[..|trace| - 1]) + if trace[|trace| - 1].reply == OAuthError(SlowDown) then 1 else 0
  }

  /** The `i`-th request waits out the interval in force since the last answer and goes out before the deadline. */
  ghost predicate WaitsOut(trace: seq<Sent>, i: nat, start: Time, interval: int, deadline: Time)
    requires i < |trace|
  {
    var since := if i == 0 then start else trace[i - 1].back;
    && trace[i].interval == IntervalAfter(interval, trace[..i])
    && since + trace[i].interval * SECOND <= trace[i].at < deadline
    && trace[i].at <= trace[i].back
    && (i < |trace| - 1 ==> Continues(trace[i].reply))
  }

  ghost predicate Courteous(trace: seq<Sent>, start: Time, interval: int, deadline: Time) {
    forall i :: 0 <= i < |trace| ==> WaitsOut(trace, i, start, interval, deadline)
  }

  /** The smaller of twice the interval and ten minutes, in seconds. */
  predicate BackedOff(interval: int, next: int) {
    next <= 600 && next <= 2 * interval && (next == 600 || next == 2 * interval)
  }

  /** The pace on the trace itself: what each answer does to the wait before the next request. */
  ghost predicate Paces(trace: seq<Sent>, i: nat, next: int)
    requires i < |trace|
  {
    && (trace[i].reply == OAuthError(SlowDown) ==> next == trace[i].interval + 5)
    && (trace[i].reply == TimedOut ==> BackedOff(trace[i].interval, next))
    && (trace[i].reply == OAuthError(AuthorizationPending) ==> next == trace[i].interval)
  }

  /**
   The client's whole course in numbers. The first request waits the offered interval; a `slow_down` adds five seconds
   to every later wait, a timeout doubles it up to ten minutes, a pending answer leaves it; every request but the last
   had one of those three answers.
  */
  ghost predicate Course(trace: seq<Sent>, start: Time, firstInterval: int, deadline: Time) {
    && (trace != [] ==> trace[0].interval == firstInterval)
    && (forall i :: 0 < i < |trace| ==> Paces(trace, i - 1, trace[i].interval))
    && (forall i :: 0 <= i < |trace| - 1 ==>
          trace[i].reply in {TimedOut, OAuthError(SlowDown), OAuthError(AuthorizationPending)})
    && (forall i :: 0 <= i < |trace| ==>
          && (if i == 0 then start else trace[i - 1].back) + trace[i].interval * SECOND <= trace[i].at < deadline
          && trace[i].at <= trace[i].back)
  }

  lemma IntervalPaces(trace: seq<Sent>, i: nat, start: Time, interval: int, deadline: Time)
    requires Courteous(trace, start, interval, deadline) && i < |trace|
    ensures Paces(trace, i, NextInterval(trace[i].interval, trace[i].reply))
    ensures i + 1 < |trace| ==> trace[i + 1].interval == NextInterval(trace[i].interval, trace[i].reply)
  {
    assert WaitsOut(trace, i, start, interval, deadline);
    if i + 1 < |trace| {
      assert WaitsOut(trace, i + 1, start, interval, deadline);
      assert trace[..i + 1][..i] == trace[..i];
    }
  }

  lemma CourteousCourse(trace: seq<Sent>, start: Time, interval: int, deadline: Time)
    requires Courteous(trace, start, interval, deadline)
    ensures Course(trace, start, interval, deadline)
  {
    hide Paces, NextInterval;
    forall i | 0 <= i < |trace|
      ensures WaitsOut(trace, i, start, interval, deadline)
      ensures i > 0 ==> Paces(trace, i - 1, trace[i].interval)
    {
      if i > 0 {
        IntervalPaces(trace, i - 1, start, interval, deadline);
      }
    }
    if trace != [] {
      assert trace[..0] == [];
    }
  }

  /** What the user is told, by the answer to the last request. */
  ghost predicate Tells(trace: seq<Sent>, outcome: Outcome) {
    if trace == [] then outcome == AuthorizationExpired
    else match trace[|trace| - 1].reply
      case Success(token) => outcome == SignedIn(token)
      case TimedOut => outcome == AuthorizationExpired
      case OAuthError(error) =>
        && (error == AuthorizationPending || error == SlowDown || error == ExpiredToken ==>
              outcome == AuthorizationExpired)
        && (error == AccessDenied ==> outcome == AuthorizationDenied)
        && (error !in {AuthorizationPending, SlowDown, ExpiredToken, AccessDenied} ==> outcome == AuthorizationFailed)
  }

  lemma VerdictTells(trace: seq<Sent>)
    ensures Tells(trace, if trace == [] || Continues(trace[|trace| - 1].reply) then AuthorizationExpired
                         else Verdict(trace[|trace| - 1].reply))
  {
  }

  /** Whoever gives up without a final answer could not have sent another request before the deadline. */
  ghost predicate OutOfTime(trace: seq<Sent>, start: Time, firstInterval: int, oversleep: nat, deadline: Time) {
    exists next ::
      && (if trace == [] then next == firstInterval else Paces(trace, |trace| - 1, next))
      && (if trace == [] then start else trace[|trace| - 1].back) + next * SECOND + oversleep >= deadline
  }

  lemma GivesUp(trace: seq<Sent>, start: Time, first: int, interval: int, oversleep: nat, deadline: Time)
    requires Courteous(trace, start, first, deadline) && interval == IntervalAfter(first, trace)
    requires (if trace == [] then start else trace[|trace| - 1].back) + interval * SECOND + oversleep >= deadline
    ensures OutOfTime(trace, start, first, oversleep, deadline)
  {
    if trace != [] {
      var i := |trace| - 1;
      assert WaitsOut(trace, i, start, first, deadline);
      IntervalPaces(trace, i, start, first, deadline);
    }
  }

  lemma CalmLater(s: Sys, d: Id, bound: Time, later: Time)
    requires Calm(s, d, bound) && bound <= later
    ensures Calm(s, d, later)
  {
  }

  /** What others do between two requests does not change this device's pace. */
  lemma CalmRun(s: Sys, events: seq<Event>, d: Id, t: Id, bound: Time)
    requires Calm(s, d, bound) && AllForeign(events, d, t)
    ensures Calm(Run(s, events), d, bound)
    ensures d in Run(s, events).db.devices && RowMoves(s.db.devices[d], Run(s, events).db.devices[d])
  {
    hide Inv, RowMoves, Run;
    ForeignRun(s, events, d, t);
  }

  lemma CourteousStep(trace: seq<Sent>, next: Sent, start: Time, interval: int, deadline: Time)
    requires Courteous(trace, start, interval, deadline)
    requires next.interval == IntervalAfter(interval, trace) && next.at < deadline && next.at <= next.back
    requires var since := if trace == [] then start else trace[|trace| - 1].back;
               since + next.interval * SECOND <= next.at
    requires trace != [] ==> Continues(trace[|trace| - 1].reply)
    ensures Courteous(trace + [next], start, interval, deadline)
    ensures IntervalAfter(interval, trace + [next]) == NextInterval(next.interval, next.reply)
    ensures SlowDowns(trace + [next]) == SlowDowns(trace) + if next.reply == OAuthError(SlowDown) then 1 else 0
  {
    var trace' := trace + [next];
    assert trace'[..|trace|] == trace;
    hide IntervalAfter;
    forall i | 0 <= i < |trace'|
      ensures WaitsOut(trace', i, start, interval, deadline)
    {
      if i < |trace| {
        assert WaitsOut(trace, i, start, interval, deadline);
        assert trace'[..i] == trace[..i];
      }
    }
  }

  /** One round as the server sees it: others first, then, unless lost, this request. */
  function ServerRound(s: Sys, d: Id, r: Round, sentAt: Time): Sys {
    var s1 := Run(s, r.before);
    if r.lost || !NewRequest(s1, r.t) then s1 else Handle(s1, d, r, sentAt + r.delay)
  }

  function RoundReply(s: Sys, d: Id, r: Round, sentAt: Time): Reply {
    var s1 := Run(s, r.before);
    if r.lost || !NewRequest(s1, r.t) || r.replyLost then TimedOut
    else ReplyOf(Handle(s1, d, r, sentAt + r.delay), r.t)
  }

  /** What the loop keeps true of the server while the client is courteous. */
  ghost predicate InStep(s0: Sys, s: Sys, d: Id, trace: seq<Sent>, bound: Time) {
    && Calm(s, d, bound) && d in s0.db.devices && RowMoves(s0.db.devices[d], s.db.devices[d])
    && SlowDowns(trace) <= 1 && (SlowDowns(trace) == 1 ==> s.db.devices[d].status != Pending)
    && (trace != [] && trace[|trace| - 1].reply.Success? ==>
          exists e :: e in s.issued && e.device == d && e.token == trace[|trace| - 1].reply.token)
  }

  lemma RoundInStep(s0: Sys, s: Sys, d: Id, r: Round, trace: seq<Sent>, next: Sent, start: Time, bound: Time)
    requires InStep(s0, s, d, trace, bound) && FairRound(r, d)
    requires next.at >= bound && next.reply == RoundReply(s, d, r, next.at) && next.back >= next.at + r.delay
    requires SlowDowns(trace + [next]) == SlowDowns(trace) + if next.reply == OAuthError(SlowDown) then 1 else 0
    ensures InStep(s0, ServerRound(s, d, r, next.at), d, trace + [next], next.back + 5 * SECOND)
  {
    hide Calm, RowMoves, Run, SlowDowns, Handle;
    CalmLater(s, d, bound, next.at + r.delay);
    CalmRun(s, r.before, d, r.t, next.at + r.delay);
    var s1 := Run(s, r.before);
    CalmHas(s, d, bound);
    MovesCompose(s0.db.devices[d], s.db.devices[d], s1.db.devices[d]);
    StaysDecided(s.db.devices[d], s1.db.devices[d]);
    if r.lost || !NewRequest(s1, r.t) {
      CalmLater(s1, d, next.at + r.delay, next.back + 5 * SECOND);
    } else {
      var s2 := Handle(s1, d, r, next.at + r.delay);
      HandleIsCalm(s1, d, r, next.at + r.delay);
      CalmLater(s2, d, next.at + r.delay + 5 * SECOND, next.back + 5 * SECOND);
      MovesCompose(s0.db.devices[d], s1.db.devices[d], s2.db.devices[d]);
      StaysDecided(s1.db.devices[d], s2.db.devices[d]);
    }
  }

  lemma CalmHas(s: Sys, d: Id, bound: Time)
    requires Calm(s, d, bound)
    ensures d in s.db.devices
  {
  }

  lemma StaysDecided(a: Device, b: Device)
    requires RowMoves(a, b)
    ensures a.status != Pending ==> b.status != Pending
  {
  }

  /** The `while` loop of `run_session`, for an offer already validated. */
  method PollLoop(s0: Sys, d: Id, deadline: Time, firstInterval: int, start: Time, finalOversleep: nat,
                  script: nat -> Round)
    returns (outcome: Outcome, trace: seq<Sent>, final: Sys, ghost waited: int, ghost since: Time)
    requires firstInterval >= 1 && forall k: nat :: FairRound(script(k), d)
    ensures Courteous(trace, start, firstInterval, deadline)
    ensures Course(trace, start, firstInterval, deadline) && Tells(trace, outcome)
    ensures trace == [] || Continues(trace[|trace| - 1].reply) ==>
              OutOfTime(trace, start, firstInterval, script(|trace|).oversleep, deadline)
    ensures Joint(s0, final, d, trace, start, firstInterval, waited, since)
  {
    hide Joint, Courteous, WaitsOut, RoundReply, ServerRound, IntervalAfter, FairRound, SlowDowns, Verdict, Course,
        Tells, OutOfTime;
    final, trace := s0, [];
    var now, interval := start, firstInterval;
    JointStart(s0, d, start, firstInterval);
    CourteousStart(start, firstInterval, deadline);
    var round: nat := 0;
    since, waited := now, interval;
    while now < deadline
      invariant interval >= 1 && interval == IntervalAfter(firstInterval, trace) && round == |trace|
      invariant now == if trace == [] then start else trace[|trace| - 1].back
      invariant trace != [] ==> Continues(trace[|trace| - 1].reply)
      invariant Courteous(trace, start, firstInterval, deadline)
      invariant since == now && waited == interval
      invariant Joint(s0, final, d, trace, start, firstInterval, waited, since)
      decreases deadline - now
    {
      var remaining := deadline - now;
      if remaining <= interval * SECOND {
        GivesUp(trace, start, firstInterval, interval, script(|trace|).oversleep, deadline);
        now := now + remaining + finalOversleep;
        break;
      }
      var r := script(round);
      round := round + 1;
      now := now + interval * SECOND + r.oversleep;
      if now >= deadline {
        GivesUp(trace, start, firstInterval, interval, script(|trace|).oversleep, deadline);
        break;
      }
      var reply := RoundReply(final, d, r, now);
      var sent := Sent(now, interval, reply, now + r.delay + r.latency);
      CourteousStep(trace, sent, start, firstInterval, deadline);
      JointStep(s0, final, d, r, trace, sent, start, firstInterval, since);
      final := ServerRound(final, d, r, now);
      trace := trace + [sent];
      now := sent.back;
      since, waited := now, NextInterval(interval, reply);
      if !Continues(reply) {
        CourteousCourse(trace, start, firstInterval, deadline);
        VerdictTells(trace);
        return Verdict(reply), trace, final, waited, since;
      }
      interval := NextInterval(interval, reply);
    }
    if since >= deadline {
      GivesUp(trace, start, firstInterval, interval, script(|trace|).oversleep, deadline);
    }
    CourteousCourse(trace, start, firstInterval, deadline);
    VerdictTells(trace);
    outcome := AuthorizationExpired;
  }

  /**
   The authorization part of `run_session`: validate the server's offer, then poll until an answer or the deadline.
  */
  method PollForToken(s0: Sys, d: Id, expiresIn: int, firstInterval: int, start: Time, finalOversleep: nat,
                      script: nat -> Round)
    returns (outcome: Outcome, trace: seq<Sent>, final: Sys)
    requires forall k: nat :: FairRound(script(k), d)
    ensures outcome == InvalidAuthorization <==> !(1 <= expiresIn <= 600 && 1 <= firstInterval <= 60)
    ensures outcome == InvalidAuthorization ==> trace == []
    ensures Course(trace, start, firstInterval, start + expiresIn * SECOND)
    ensures outcome != InvalidAuthorization ==> Tells(trace, outcome)
    ensures outcome == AuthorizationExpired ==>
              || (trace != [] && trace[|trace| - 1].reply == OAuthError(ExpiredToken))
              || OutOfTime(trace, start, firstInterval, script(|trace|).oversleep, start + expiresIn * SECOND)
    // The server offers five seconds or the client waits longer: then the server never penalises it.
    ensures outcome != InvalidAuthorization && 5 <= firstInterval && Calm(s0, d, start + 5 * SECOND) ==>
              NeverPenalised(final, d, trace)
              && (outcome.SignedIn? ==> exists e :: e in final.issued && e.device == d && e.token == outcome.token)
  {
    hide Joint, Courteous, FairRound, Calm, Course, OutOfTime, Tells, Continues, NeverPenalised;
    if !(1 <= expiresIn <= 600 && 1 <= firstInterval <= 60) {
      NothingSent(start, firstInterval, start + expiresIn * SECOND);
      return InvalidAuthorization, [], s0;
    }
    ghost var waited, since;
    outcome, trace, final, waited, since :=
      PollLoop(s0, d, start + expiresIn * SECOND, firstInterval, start, finalOversleep, script);
    JointGives(s0, final, d, trace, start, firstInterval, waited, since);
    ToldWhy(trace, outcome);
  }

  /** The server stored no penalty, and answered slow_down at most once, when a decision had won the race. */
  ghost predicate NeverPenalised(s: Sys, d: Id, trace: seq<Sent>) {
    && d in s.db.devices && s.db.devices[d].interval == 5
    && (forall i :: 0 <= i < |trace| ==> trace[i].interval >= 5)
    && SlowDowns(trace) <= 1 && (SlowDowns(trace) == 1 ==> s.db.devices[d].status != Pending)
  }

  lemma NothingSent(start: Time, interval: int, deadline: Time)
    ensures Course([], start, interval, deadline)
  {
  }

  lemma ToldWhy(trace: seq<Sent>, outcome: Outcome)
    requires Tells(trace, outcome)
    ensures outcome.SignedIn? ==> trace != [] && trace[|trace| - 1].reply == Success(outcome.token)
    ensures outcome == AuthorizationExpired ==>
              || trace == [] || Continues(trace[|trace| - 1].reply)
              || trace[|trace| - 1].reply == OAuthError(ExpiredToken)
    ensures outcome != InvalidAuthorization
  {
  }

  /** While the joint premise holds, the client waits at least as long as the server asks. */
  ghost predicate Joint(s0: Sys, s: Sys, d: Id, trace: seq<Sent>, start: Time, firstInterval: int, interval: int,
                        now: Time)
  {
    5 <= firstInterval && Calm(s0, d, start + 5 * SECOND) ==>
      && interval >= 5 && InStep(s0, s, d, trace, now + 5 * SECOND)
      && forall i :: 0 <= i < |trace| ==> trace[i].interval >= 5
  }

  lemma JointStart(s: Sys, d: Id, start: Time, interval: int)
    ensures Joint(s, s, d, [], start, interval, interval, start)
  {
    hide Calm, InStep;
    if 5 <= interval && Calm(s, d, start + 5 * SECOND) {
      MovesNowhere(s, d, start + 5 * SECOND);
    }
  }

  lemma JointStep(s0: Sys, s: Sys, d: Id, r: Round, trace: seq<Sent>, next: Sent, start: Time, first: int, since: Time)
    requires Joint(s0, s, d, trace, start, first, next.interval, since) && FairRound(r, d)
    requires next.at >= since + next.interval * SECOND && next.back >= next.at + r.delay
    requires next.reply == RoundReply(s, d, r, next.at)
    requires SlowDowns(trace + [next]) == SlowDowns(trace) + if next.reply == OAuthError(SlowDown) then 1 else 0
    ensures Joint(s0, ServerRound(s, d, r, next.at), d, trace + [next], start, first,
                  NextInterval(next.interval, next.reply), next.back)
  {
    hide Calm, InStep, RoundReply, ServerRound, SlowDowns, FairRound;
    if 5 <= first && Calm(s0, d, start + 5 * SECOND) {
      RoundInStep(s0, s, d, r, trace, next, start, since + 5 * SECOND);
    }
  }

  lemma JointGives(s0: Sys, s: Sys, d: Id, trace: seq<Sent>, start: Time, first: int, interval: int, now: Time)
    requires Joint(s0, s, d, trace, start, first, interval, now)
    ensures 5 <= first && Calm(s0, d, start + 5 * SECOND) ==>
              NeverPenalised(s, d, trace)
              && (trace != [] && trace[|trace| - 1].reply.Success? ==>
                    exists e :: e in s.issued && e.device == d && e.token == trace[|trace| - 1].reply.token)
  {
    hide Inv, RowMoves;
  }

  lemma CourteousStart(start: Time, interval: int, deadline: Time)
    ensures Courteous([], start, interval, deadline) && IntervalAfter(interval, []) == interval
  {
  }

  lemma MovesNowhere(s: Sys, d: Id, bound: Time)
    requires Calm(s, d, bound)
    ensures InStep(s, s, d, [], bound)
  {
  }
}
