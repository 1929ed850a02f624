/**
 The device-authorization server as a state machine over every interleaving of requests
 (RFC 8628, sections 3.2 to 3.5). A request is a read step and a later guarded commit step;
 a redemption holds its device row locked between its claim and its commit, and an aborted
 transaction leaves no trace. Which request moves next is arbitrary: a run is any sequence of events.
*/
module CliAuthRuns {
  import opened Wrappers
  import opened CliAuthRows

  /** What was persisted by one committed poll. */
  datatype PollKind = Slow | Waiting | GrantGone | TokenIssued

  datatype Poll = Poll(now: Time, kind: PollKind)

  /** What really happened to a device, kept beside the rows and never read by them. */
  datatype History = History(
    scopes: set<string>, rooms: set<string>, createdAt: Time,
    reviews: seq<string>, approver: Option<string>, polls: seq<Poll>)

  datatype Txn =
    | Reviewing(device: Id, user: string)
    | Deciding(device: Id, user: string, approve: bool, now: Time)
    | Polling(device: Id, row: Device, now: Time)
    | Redeeming(device: Id, row: Device, now: Time)
    | Revoking(grant: Id)

  datatype Answer = Fine | Token(token: CliAuthRows.Token) | Failed(error: AuthError) | Aborted

  datatype Issue = Issue(device: Id, grant: Id, token: CliAuthRows.Token)

  datatype Sys = Sys(
    db: Db, txns: map<Id, Txn>, answers: map<Id, Answer>, issued: seq<Issue>,
    history: map<Id, History>, owner: map<Id, Id>)

  /** What the room and account repositories say when asked during a redemption. */
  datatype Entitlement = Entitled | Inactive | RoomLost

  datatype Event =
    | Create(d: Id, deviceCode: Code, userCode: Code, clientId: string, scopes: seq<string>, rooms: seq<string>,
             now: Time, ttl: int)
    | ReviewRead(t: Id, d: Id, user: string, now: Time, roomsOk: bool)
    | ReviewCommit(t: Id, now: Time)
    | DecideRead(t: Id, d: Id, user: string, approve: bool, now: Time, readAt: Time, roomsOk: bool)
    | DecideCommit(t: Id, g: Id, ttl: int)
    | ExchangeRead(t: Id, d: Id, now: Time)
    | ExchangeClaim(t: Id, entitlement: Entitlement)
    | ExchangeFinish(t: Id, token: CliAuthRows.Token, now: Time)
    | RevokeRead(t: Id, g: Id, user: string)
    | RevokeCommit(t: Id, now: Time)
    | Abort(t: Id)

  const Init: Sys := Sys(Db(map[], map[]), map[], map[], [], map[], map[])

  predicate Locked(s: Sys, d: Id) {
    exists t :: t in s.txns && s.txns[t].Redeeming? && s.txns[t].device == d
  }

  predicate NewRequest(s: Sys, t: Id) {
    t !in s.txns && t !in s.answers
  }

  function Answered(s: Sys, t: Id, a: Answer): Sys {
    s.(txns := s.txns - {t}, answers := s.answers[t := a])
  }

  function Recorded(s: Sys, d: Id, p: Poll): map<Id, History>
    requires d in s.history
  {
    s.history[d := s.history[d].(polls := s.history[d].polls + [p])]
  }

  function DoCreate(s: Sys, ev: Event): Sys
    requires ev.Create?
  {
    if ev.d in s.db.devices || HasDeviceCode(s.db, ev.deviceCode) || HasUserCode(s.db, ev.userCode) then s
    else if CreationError(ev.clientId, ev.scopes, ev.rooms).Some? then s
    else
      var row := NewDevice(ev.deviceCode, ev.userCode, ev.scopes, ev.rooms, ev.now, ev.ttl);
      s.(db := s.db.(devices := s.db.devices[ev.d := row]),
         history := s.history[ev.d := History(row.scopes, row.rooms, ev.now, [], None, [])])
  }

  function DoReviewRead(s: Sys, ev: Event): Sys
    requires ev.ReviewRead?
  {
    if !NewRequest(s, ev.t) then s
    else if ev.d !in s.db.devices || s.db.devices[ev.d].expiresAt <= ev.now
        then Answered(s, ev.t, Failed(InvalidOrExpiredCode))
    else if s.db.devices[ev.d].status != Pending then Answered(s, ev.t, Failed(AlreadyDecided))
    else if !ev.roomsOk then Answered(s, ev.t, Failed(RoomUnavailable))
    else s.(txns := s.txns[ev.t := Reviewing(ev.d, ev.user)])
  }

  function DoReviewCommit(s: Sys, ev: Event): Sys
    requires ev.ReviewCommit?
  {
    if ev.t !in s.txns || !s.txns[ev.t].Reviewing? || s.txns[ev.t].device !in s.db.devices
       || s.txns[ev.t].device !in s.history || Locked(s, s.txns[ev.t].device) then s
    else
      var txn := s.txns[ev.t];
      match ReviewUpdate(s.db, txn.device, txn.user, ev.now)
      case None => Answered(s, ev.t, Failed(AccountMismatch))
      case Some(db) =>
        Answered(s.(db := db, history := s.history[txn.device :=
                   s.history[txn.device].(reviews := s.history[txn.device].reviews + [txn.user])]), ev.t, Fine)
  }

  function DoDecideRead(s: Sys, ev: Event): Sys
    requires ev.DecideRead?
  {
    if !NewRequest(s, ev.t) then s
    else if ev.d !in s.db.devices || s.db.devices[ev.d].expiresAt <= ev.readAt
        then Answered(s, ev.t, Failed(InvalidOrExpiredCode))
    else if s.db.devices[ev.d].reviewer != Some(ev.user) then Answered(s, ev.t, Failed(AccountMismatch))
    else if ev.approve && !ev.roomsOk then Answered(s, ev.t, Failed(RoomUnavailable))
    else s.(txns := s.txns[ev.t := Deciding(ev.d, ev.user, ev.approve, ev.now)])
  }

  function DoDecideCommit(s: Sys, ev: Event): Sys
    requires ev.DecideCommit?
  {
    if ev.t !in s.txns || !s.txns[ev.t].Deciding? || s.txns[ev.t].device !in s.db.devices
       || s.txns[ev.t].device !in s.history || Locked(s, s.txns[ev.t].device) || ev.g in s.db.grants then s
    else
      var txn := s.txns[ev.t];
      match DecideUpdate(s.db, txn.device, txn.user, txn.approve, txn.now, ev.g, ev.ttl)
      case None => Answered(s, ev.t, Failed(AlreadyDecided))
      case Some(db) =>
        Answered(if txn.approve
                 then s.(db := db, owner := s.owner[ev.g := txn.device],
                         history := s.history[txn.device := s.history[txn.device].(approver := Some(txn.user))])
                 else s.(db := db), ev.t, Fine)
  }

  function DoExchangeRead(s: Sys, ev: Event): Sys
    requires ev.ExchangeRead?
  {
    if !NewRequest(s, ev.t) then s
    else if ev.d !in s.db.devices || s.db.devices[ev.d].status == Redeemed then Answered(s, ev.t, Failed(InvalidGrant))
    else if s.db.devices[ev.d].expiresAt <= ev.now then Answered(s, ev.t, Failed(ExpiredToken))
    else if s.db.devices[ev.d].status == Denied then Answered(s, ev.t, Failed(AccessDenied))
    else s.(txns := s.txns[ev.t := Polling(ev.d, s.db.devices[ev.d], ev.now)])
  }

  function DoExchangeClaim(s: Sys, ev: Event): Sys
    requires ev.ExchangeClaim?
  {
    if ev.t !in s.txns || !s.txns[ev.t].Polling? || s.txns[ev.t].device !in s.db.devices
       || s.txns[ev.t].device !in s.history || Locked(s, s.txns[ev.t].device) then s
    else
      var txn := s.txns[ev.t];
      match ClaimUpdate(s.db, txn.device, txn.row, txn.now)
      case None => Answered(s, ev.t, Failed(SlowDown))
      case Some(claimed) =>
        var stored := s.db.(devices := s.db.devices[txn.device := claimed]);
        if TooEarly(txn.row, txn.now) then
          Answered(s.(db := stored, history := Recorded(s, txn.device, Poll(txn.now, Slow))), ev.t, Failed(SlowDown))
        else if txn.row.status == Pending then
          Answered(s.(db := stored, history := Recorded(s, txn.device, Poll(txn.now, Waiting))), ev.t,
                   Failed(AuthorizationPending))
        else if !Usable(s.db, txn.row.grant, txn.now) then
          Answered(s.(db := stored, history := Recorded(s, txn.device, Poll(txn.now, GrantGone))), ev.t,
                   Failed(ExpiredToken))
        else if ev.entitlement == Inactive then Answered(s, ev.t, Failed(AccessDenied))
        else if ev.entitlement == RoomLost then Answered(s, ev.t, Failed(RoomUnavailable))
        else s.(txns := s.txns[ev.t := Redeeming(txn.device, txn.row, txn.now)])
  }

  function DoExchangeFinish(s: Sys, ev: Event): Sys
    requires ev.ExchangeFinish?
  {
    if ev.t !in s.txns || !s.txns[ev.t].Redeeming? || s.txns[ev.t].device !in s.db.devices
       || s.txns[ev.t].device !in s.history || exists g :: g in s.db.grants && Holds(s.db, g, ev.token) then s
    else
      var txn := s.txns[ev.t];
      match ClaimUpdate(s.db, txn.device, txn.row, txn.now)
      case None => Answered(s, ev.t, Failed(SlowDown))
      case Some(claimed) =>
        match RedeemUpdate(s.db, txn.device, claimed, ev.token, ev.now)
        case Err(e) => Answered(s, ev.t, Failed(e))
        case Ok(db) =>
          Answered(s.(db := db, history := Recorded(s, txn.device, Poll(txn.now, TokenIssued)),
                      issued := s.issued + [Issue(txn.device, claimed.grant.value, ev.token)]), ev.t, Token(ev.token))
  }

  function DoRevokeRead(s: Sys, ev: Event): Sys
    requires ev.RevokeRead?
  {
    if !NewRequest(s, ev.t) then s
    else if ev.g !in s.db.grants || s.db.grants[ev.g].user != ev.user then Answered(s, ev.t, Failed(GrantNotFound))
    else if s.db.grants[ev.g].revokedAt.Some? then Answered(s, ev.t, Fine)
    else s.(txns := s.txns[ev.t := Revoking(ev.g)])
  }

  /** The commit of a revocation is not guarded: it stores its time whatever was committed since its read. */
  function DoRevokeCommit(s: Sys, ev: Event): Sys
    requires ev.RevokeCommit?
  {
    if ev.t !in s.txns || !s.txns[ev.t].Revoking? || s.txns[ev.t].grant !in s.db.grants then s
    else
      var g := s.txns[ev.t].grant;
      Answered(s.(db := s.db.(grants := s.db.grants[g := s.db.grants[g].(revokedAt := Some(ev.now))])), ev.t, Fine)
  }

  /** One step of the system; an event that is not enabled changes nothing. */
  function Next(s: Sys, ev: Event): Sys {
    match ev
    case Create(_, _, _, _, _, _, _, _) => DoCreate(s, ev)
    case ReviewRead(_, _, _, _, _) => DoReviewRead(s, ev)
    case ReviewCommit(_, _) => DoReviewCommit(s, ev)
    case DecideRead(_, _, _, _, _, _, _) => DoDecideRead(s, ev)
    case DecideCommit(_, _, _) => DoDecideCommit(s, ev)
    case ExchangeRead(_, _, _) => DoExchangeRead(s, ev)
    case ExchangeClaim(_, _) => DoExchangeClaim(s, ev)
    case ExchangeFinish(_, _, _) => DoExchangeFinish(s, ev)
    case RevokeRead(_, _, _) => DoRevokeRead(s, ev)
    case RevokeCommit(_, _) => DoRevokeCommit(s, ev)
    case Abort(t) => if t in s.txns then Answered(s, t, Aborted) else s
  }

  function Run(s: Sys, events: seq<Event>): Sys {
    if events == [] then s else Next(Run(s, events[..|events| - 1]), events[|events| - 1])
  }

  // ---------------------------------------------------------------- the invariant

  function SlowCount(polls: seq<Poll>): nat {
    if polls == [] then 0
    else SlowCount(polls[..|polls| - 1]) + if polls[|polls| - 1].kind == Slow then 1 else 0
  }

  /**
   A poll was answered slow_down exactly when it came before the previous
   committed poll plus the interval then stored.
  */
  ghost predicate Paced(h: History) {
    forall i :: 0 <= i < |h.polls| ==>
      (h.polls[i].kind == Slow <==>
        h.polls[i].now < if i == 0 then h.createdAt
                         else h.polls[i - 1].now + (FIRST_INTERVAL + PENALTY * SlowCount(h.polls[..i])) * SECOND)
  }

  predicate Granted(status: Status) {
    status == Approved || status == Redeemed
  }

  /** A device row agrees with what really happened to the device. */
  ghost predicate RowOk(row: Device, h: History) {
    && row.scopes == h.scopes && row.rooms == h.rooms
    && row.pollVersion == |h.polls|
    && row.interval == FIRST_INTERVAL + PENALTY * SlowCount(h.polls)
    && row.nextPollAt == (if h.polls == [] then h.createdAt else h.polls[|h.polls| - 1].now + row.interval * SECOND)
    && (forall i :: 0 <= i < |h.reviews| ==> row.reviewer == Some(h.reviews[i]))
    && (row.reviewer.Some? ==> h.reviews != [])
    && (row.grant.Some? <==> Granted(row.status))
    && h.approver == (if Granted(row.status) then row.reviewer else None)
    && (Granted(row.status) ==> row.reviewer.Some?)
    && Paced(h)
  }

  /** A grant copies its device and its approver, and holds a token exactly when its device is redeemed. */
  ghost predicate GrantOk(row: Device, grant: Grant) {
    && row.reviewer == Some(grant.user) && grant.clientId == row.clientId
    && grant.scopes == row.scopes && grant.rooms == row.rooms
    && (grant.token.Some? <==> row.status == Redeemed)
  }

  ghost predicate DevicesOk(devices: map<Id, Device>, history: map<Id, History>) {
    && history.Keys == devices.Keys
    && (forall d :: d in devices ==> RowOk(devices[d], history[d]))
  }

  ghost predicate GrantsOk(devices: map<Id, Device>, grants: map<Id, Grant>, owner: map<Id, Id>) {
    && owner.Keys == grants.Keys
    && (forall d :: d in devices && devices[d].grant.Some? ==>
          devices[d].grant.value in owner && owner[devices[d].grant.value] == d)
    && (forall g :: g in grants ==>
          owner[g] in devices && devices[owner[g]].grant == Some(g) && GrantOk(devices[owner[g]], grants[g]))
  }

  /** The log of issued tokens and the token column are the same thing, and neither repeats. */
  ghost predicate IssuedOk(grants: map<Id, Grant>, owner: map<Id, Id>, issued: seq<Issue>) {
    && owner.Keys == grants.Keys
    && (forall i :: 0 <= i < |issued| ==>
          && issued[i].grant in grants && owner[issued[i].grant] == issued[i].device
          && grants[issued[i].grant].token == Some(issued[i].token))
    && (forall i, j :: 0 <= i < j < |issued| ==> issued[i].grant != issued[j].grant)
    && (forall g :: g in grants && grants[g].token.Some? ==> Issue(owner[g], g, grants[g].token.value) in issued)
    && (forall g, h :: g in grants && h in grants && g != h && grants[g].token.Some? ==>
          grants[g].token != grants[h].token)
  }

  ghost predicate CodesOk(devices: map<Id, Device>) {
    forall d, e :: d in devices && e in devices && d != e ==>
      devices[d].deviceCode != devices[e].deviceCode && devices[d].userCode != devices[e].userCode
  }

  /** `row` is some earlier committed version of `current`. */
  ghost predicate Earlier(row: Device, current: Device) {
    && row.pollVersion <= current.pollVersion
    && (row.pollVersion == current.pollVersion ==>
        row.interval == current.interval && row.nextPollAt == current.nextPollAt)
    && (row.status == Approved ==> Granted(current.status) && row.grant == current.grant)
    && (row.status == Pending || row.status == Approved)
  }

  ghost predicate TxnOk(devices: map<Id, Device>, txn: Txn) {
    && (!txn.Revoking? ==> txn.device in devices)
    && (txn.Polling? || txn.Redeeming? ==> Earlier(txn.row, devices[txn.device]))
    && (txn.Redeeming? ==>
          && !TooEarly(txn.row, txn.now) && txn.row.status == Approved
          && devices[txn.device].pollVersion == txn.row.pollVersion
          && devices[txn.device].status == Approved)
  }

  ghost predicate TxnsOk(devices: map<Id, Device>, txns: map<Id, Txn>) {
    && (forall t :: t in txns ==> TxnOk(devices, txns[t]))
    && (forall t, u :: t in txns && u in txns && t != u && txns[t].Redeeming? && txns[u].Redeeming? ==>
          txns[t].device != txns[u].device)
  }

  ghost predicate Inv(s: Sys) {
    && DevicesOk(s.db.devices, s.history)
    && GrantsOk(s.db.devices, s.db.grants, s.owner)
    && IssuedOk(s.db.grants, s.owner, s.issued)
    && CodesOk(s.db.devices)
    && TxnsOk(s.db.devices, s.txns)
  }

  // ---------------------------------------------------------------- elementary changes

  /** How a committed row may change while a request still holds an older snapshot of it. */
  ghost predicate Advances(was: Device, row: Device) {
    && was.pollVersion <= row.pollVersion
    && (was.pollVersion == row.pollVersion ==> was.interval == row.interval && was.nextPollAt == row.nextPollAt)
    && (Granted(was.status) ==> Granted(row.status) && row.grant == was.grant)
    && row.deviceCode == was.deviceCode && row.userCode == was.userCode
  }

  ghost predicate Free(txns: map<Id, Txn>, d: Id) {
    forall t :: t in txns && txns[t].Redeeming? ==> txns[t].device != d
  }

  lemma DropTxn(devices: map<Id, Device>, txns: map<Id, Txn>, t: Id)
    requires TxnsOk(devices, txns)
    ensures TxnsOk(devices, txns - {t})
  {
  }

  lemma DropRedeeming(devices: map<Id, Device>, txns: map<Id, Txn>, t: Id)
    requires TxnsOk(devices, txns) && t in txns && txns[t].Redeeming?
    ensures Free(txns - {t}, txns[t].device)
  {
  }

  lemma AddTxn(devices: map<Id, Device>, txns: map<Id, Txn>, t: Id, txn: Txn)
    requires TxnsOk(devices, txns) && TxnOk(devices, txn) && (txn.Redeeming? ==> Free(txns - {t}, txn.device))
    ensures TxnsOk(devices, txns[t := txn])
  {
    if txn.Redeeming? {
      forall u | u in txns && u != t && txns[u].Redeeming?
        ensures txns[u].device != txn.device
      {
        assert u in txns - {t};
      }
    }
  }

  /** A request that holds no lock cannot stop another transaction from advancing the row it read. */
  lemma AdvanceKeepsTxns(devices: map<Id, Device>, txns: map<Id, Txn>, d: Id, row: Device)
    requires TxnsOk(devices, txns) && d in devices && Advances(devices[d], row) && Free(txns, d)
    ensures TxnsOk(devices[d := row], txns)
  {
  }

  lemma AdvanceKeepsCodes(devices: map<Id, Device>, d: Id, row: Device)
    requires CodesOk(devices) && d in devices && Advances(devices[d], row)
    ensures CodesOk(devices[d := row])
  {
  }

  lemma AdvanceKeepsDevices(devices: map<Id, Device>, history: map<Id, History>, d: Id, row: Device, h: History)
    requires DevicesOk(devices, history) && d in devices && RowOk(row, h)
    ensures DevicesOk(devices[d := row], history[d := h])
  {
    assert (devices[d := row]).Keys == devices.Keys;
  }

  lemma AdvanceKeepsGrants(devices: map<Id, Device>, grants: map<Id, Grant>, owner: map<Id, Id>, d: Id, row: Device)
    requires GrantsOk(devices, grants, owner) && d in devices && row.grant == devices[d].grant
    requires row.grant.Some? ==>
      row.grant.value in grants && GrantOk(row, grants[row.grant.value])
    ensures GrantsOk(devices[d := row], grants, owner)
  {
  }

  /** Approval adds one grant, owned by the device it was created for. */
  lemma ApproveKeepsGrants(
    devices: map<Id, Device>, grants: map<Id, Grant>, owner: map<Id, Id>, d: Id, row: Device, g: Id, grant: Grant)
    requires GrantsOk(devices, grants, owner) && d in devices && devices[d].grant == None && g !in grants
    requires row.grant == Some(g) && GrantOk(row, grant)
    ensures GrantsOk(devices[d := row], grants[g := grant], owner[g := d])
  {
    assert (owner[g := d]).Keys == owner.Keys + {g} && (grants[g := grant]).Keys == grants.Keys + {g};
  }

  lemma ApproveKeepsIssued(grants: map<Id, Grant>, owner: map<Id, Id>, issued: seq<Issue>, g: Id, grant: Grant, d: Id)
    requires IssuedOk(grants, owner, issued) && g !in grants && grant.token == None
    ensures IssuedOk(grants[g := grant], owner[g := d], issued)
  {
    assert (owner[g := d]).Keys == owner.Keys + {g} && (grants[g := grant]).Keys == grants.Keys + {g};
  }

  /** Redemption stores the token and moves the device in one commit. */
  lemma RedeemKeepsGrants(
    devices: map<Id, Device>, grants: map<Id, Grant>, owner: map<Id, Id>, d: Id, row: Device, g: Id, grant: Grant)
    requires GrantsOk(devices, grants, owner) && d in devices && devices[d].grant == Some(g) && g in grants
    requires row.grant == Some(g) && GrantOk(row, grant)
    ensures GrantsOk(devices[d := row], grants[g := grant], owner)
  {
    assert (grants[g := grant]).Keys == grants.Keys;
  }

  lemma RedeemKeepsIssued(grants: map<Id, Grant>, owner: map<Id, Id>, issued: seq<Issue>, g: Id,
                          token: CliAuthRows.Token)
    requires IssuedOk(grants, owner, issued) && g in grants && grants[g].token == None
    requires forall h :: h in grants ==> grants[h].token != Some(token)
    ensures IssuedOk(grants[g := grants[g].(token := Some(token))], owner, issued + [Issue(owner[g], g, token)])
  {
    var grants', issued' := grants[g := grants[g].(token := Some(token))], issued + [Issue(owner[g], g, token)];
    assert grants'.Keys == grants.Keys;
    assert Issue(owner[g], g, token) == issued'[|issued|];
    assert forall e :: e in issued ==> e in issued';
  }

  lemma RevokeKeepsGrants(
    devices: map<Id, Device>, grants: map<Id, Grant>, owner: map<Id, Id>, issued: seq<Issue>, g: Id, at: Time)
    requires GrantsOk(devices, grants, owner) && IssuedOk(grants, owner, issued) && g in grants
    ensures GrantsOk(devices, grants[g := grants[g].(revokedAt := Some(at))], owner)
    ensures IssuedOk(grants[g := grants[g].(revokedAt := Some(at))], owner, issued)
  {
    assert (grants[g := grants[g].(revokedAt := Some(at))]).Keys == grants.Keys;
  }

  lemma CreateKeepsRows(
    devices: map<Id, Device>, history: map<Id, History>, grants: map<Id, Grant>, owner: map<Id, Id>,
    txns: map<Id, Txn>, d: Id, row: Device, h: History)
    requires DevicesOk(devices, history) && GrantsOk(devices, grants, owner) && TxnsOk(devices, txns)
    requires d !in devices && RowOk(row, h) && row.grant == None
    ensures DevicesOk(devices[d := row], history[d := h])
    ensures GrantsOk(devices[d := row], grants, owner)
    ensures TxnsOk(devices[d := row], txns)
  {
    assert (devices[d := row]).Keys == devices.Keys + {d} && (history[d := h]).Keys == history.Keys + {d};
  }

  lemma CreateKeepsCodes(db: Db, d: Id, row: Device)
    requires CodesOk(db.devices) && !HasDeviceCode(db, row.deviceCode) && !HasUserCode(db, row.userCode)
    ensures CodesOk(db.devices[d := row])
  {
  }

  // ---------------------------------------------------------------- every step keeps the invariant

  lemma CreateKeeps(s: Sys, ev: Event)
    requires ev.Create? && Inv(s)
    ensures Inv(DoCreate(s, ev))
  {
    hide DevicesOk, GrantsOk, IssuedOk, CodesOk, TxnsOk, CreationError;
    if DoCreate(s, ev) != s {
      var row := NewDevice(ev.deviceCode, ev.userCode, ev.scopes, ev.rooms, ev.now, ev.ttl);
      CreateKeepsRows(s.db.devices, s.history, s.db.grants, s.owner, s.txns, ev.d, row,
                      History(row.scopes, row.rooms, ev.now, [], None, []));
      CreateKeepsCodes(s.db, ev.d, row);
    }
  }

  lemma AnsweredKeeps(s: Sys, t: Id, a: Answer)
    requires Inv(s)
    ensures Inv(Answered(s, t, a))
  {
    hide DevicesOk, GrantsOk, IssuedOk, CodesOk, TxnsOk;
    DropTxn(s.db.devices, s.txns, t);
  }

  /** The read steps only take a snapshot: nothing but the request itself moves. */
  ghost predicate OnlyRead(s: Sys, s': Sys, t: Id) {
    || s' == s
    || (t in s'.answers && s' == Answered(s, t, s'.answers[t]))
    || (t in s'.txns && s' == s.(txns := s.txns[t := s'.txns[t]])
        && !s'.txns[t].Redeeming? && TxnOk(s.db.devices, s'.txns[t]))
  }

  lemma ReviewReads(s: Sys, ev: Event)
    requires ev.ReviewRead?
    ensures OnlyRead(s, DoReviewRead(s, ev), ev.t)
  {
  }

  lemma DecideReads(s: Sys, ev: Event)
    requires ev.DecideRead?
    ensures OnlyRead(s, DoDecideRead(s, ev), ev.t)
  {
  }

  lemma ExchangeReads(s: Sys, ev: Event)
    requires ev.ExchangeRead?
    ensures OnlyRead(s, DoExchangeRead(s, ev), ev.t)
  {
  }

  lemma RevokeReads(s: Sys, ev: Event)
    requires ev.RevokeRead?
    ensures OnlyRead(s, DoRevokeRead(s, ev), ev.t)
  {
  }

  lemma ReadKeeps(s: Sys, s': Sys, t: Id)
    requires OnlyRead(s, s', t) && Inv(s)
    ensures Inv(s')
  {
    hide DevicesOk, GrantsOk, IssuedOk, CodesOk, TxnsOk, TxnOk;
    if t in s'.answers && s' == Answered(s, t, s'.answers[t]) {
      AnsweredKeeps(s, t, s'.answers[t]);
    } else if s' != s {
      AddTxn(s.db.devices, s.txns, t, s'.txns[t]);
    }
  }

  lemma ReviewedRow(s: Sys, d: Id, user: string, now: Time)
    requires DevicesOk(s.db.devices, s.history) && d in s.db.devices
    requires ReviewUpdate(s.db, d, user, now).Some?
    ensures var row := s.db.devices[d].(reviewer := Some(user));
            var h := s.history[d].(reviews := s.history[d].reviews + [user]);
            RowOk(row, h) && Advances(s.db.devices[d], row) && row.grant == None
  {
    var was, h := s.db.devices[d], s.history[d];
    assert RowOk(was, h);
    forall i | 0 <= i <= |h.reviews|
      ensures (h.reviews + [user])[i] == user
    {
      assert i < |h.reviews| ==> was.reviewer == Some(h.reviews[i]);
    }
    assert Paced(h.(reviews := h.reviews + [user]));
  }

  lemma ReviewCommitKeeps(s: Sys, ev: Event)
    requires ev.ReviewCommit? && Inv(s)
    ensures Inv(DoReviewCommit(s, ev))
  {
    hide DevicesOk, GrantsOk, IssuedOk, CodesOk, TxnsOk, RowOk, GrantOk, Advances;
    if DoReviewCommit(s, ev) != s {
      var txn := s.txns[ev.t];
      var d, row := txn.device, s.db.devices[txn.device].(reviewer := Some(txn.user));
      var h := s.history[d].(reviews := s.history[d].reviews + [txn.user]);
      AnsweredKeeps(s, ev.t, Failed(AccountMismatch));
      if ReviewUpdate(s.db, d, txn.user, ev.now).Some? {
        ReviewedRow(s, d, txn.user, ev.now);
        SameGrant(s.db.devices, s.db.grants, s.owner, d);
        assert Free(s.txns, d);
        AdvanceKeepsTxns(s.db.devices, s.txns, d, row);
        AdvanceKeepsCodes(s.db.devices, d, row);
        AdvanceKeepsDevices(s.db.devices, s.history, d, row, h);
        AdvanceKeepsGrants(s.db.devices, s.db.grants, s.owner, d, row);
        AnsweredKeeps(s.(db := s.db.(devices := s.db.devices[d := row]), history := s.history[d := h]), ev.t, Fine);
      }
    }
  }

  lemma DecideCommitKeeps(s: Sys, ev: Event)
    requires ev.DecideCommit? && Inv(s)
    ensures Inv(DoDecideCommit(s, ev))
  {
    hide Inv, DecideUpdate;
    if DoDecideCommit(s, ev) != s {
      var txn := s.txns[ev.t];
      AnsweredKeeps(s, ev.t, Failed(AlreadyDecided));
      if DecideUpdate(s.db, txn.device, txn.user, txn.approve, txn.now, ev.g, ev.ttl).Some? {
        if txn.approve {
          ApprovalKeeps(s, ev);
        } else {
          DenialKeeps(s, ev);
        }
      }
    }
  }

  predicate Decides(s: Sys, ev: Event)
    requires ev.DecideCommit?
  {
    && DoDecideCommit(s, ev) != s && ev.t in s.txns && s.txns[ev.t].Deciding?
    && var txn := s.txns[ev.t]; DecideUpdate(s.db, txn.device, txn.user, txn.approve, txn.now, ev.g, ev.ttl).Some?
  }

  lemma SameGrant(devices: map<Id, Device>, grants: map<Id, Grant>, owner: map<Id, Id>, d: Id)
    requires GrantsOk(devices, grants, owner) && d in devices
    ensures devices[d].grant.Some? ==> devices[d].grant.value in grants
  {
  }

  lemma ApprovedRow(s: Sys, d: Id, user: string, now: Time, g: Id, ttl: int)
    requires DevicesOk(s.db.devices, s.history) && d in s.db.devices
    requires DecideUpdate(s.db, d, user, true, now, g, ttl).Some?
    ensures var was := s.db.devices[d];
            var row, h := was.(status := Approved, grant := Some(g)), s.history[d].(approver := Some(user));
            var grant := Grant(user, was.clientId, was.scopes, was.rooms, None, now, now + ttl * SECOND, None);
            && was.grant == None && RowOk(row, h) && GrantOk(row, grant) && Advances(was, row)
            && DecideUpdate(s.db, d, user, true, now, g, ttl)
                 == Some(Db(s.db.devices[d := row], s.db.grants[g := grant]))
  {
    assert RowOk(s.db.devices[d], s.history[d]);
    hide DevicesOk, SlowCount;
  }

  lemma ApprovalKeeps(s: Sys, ev: Event)
    requires ev.DecideCommit? && Inv(s) && Decides(s, ev) && s.txns[ev.t].approve
    ensures Inv(DoDecideCommit(s, ev))
  {
    hide DevicesOk, GrantsOk, IssuedOk, CodesOk, TxnsOk, RowOk, GrantOk, Advances, DecideUpdate;
    var txn := s.txns[ev.t];
    ApprovedRow(s, txn.device, txn.user, txn.now, ev.g, ev.ttl);
    var d, was := txn.device, s.db.devices[txn.device];
    assert Free(s.txns, d);
    var row := was.(status := Approved, grant := Some(ev.g));
    var h := s.history[d].(approver := Some(txn.user));
    AdvanceKeepsTxns(s.db.devices, s.txns, d, row);
    AdvanceKeepsCodes(s.db.devices, d, row);
    AdvanceKeepsDevices(s.db.devices, s.history, d, row, h);
    var grant := Grant(txn.user, was.clientId, was.scopes, was.rooms, None, txn.now, txn.now + ev.ttl * SECOND, None);
    ApproveKeepsGrants(s.db.devices, s.db.grants, s.owner, d, row, ev.g, grant);
    ApproveKeepsIssued(s.db.grants, s.owner, s.issued, ev.g, grant, d);
    AnsweredKeeps(s.(db := Db(s.db.devices[d := row], s.db.grants[ev.g := grant]),
                     owner := s.owner[ev.g := d], history := s.history[d := h]), ev.t, Fine);
  }

  lemma DenialKeeps(s: Sys, ev: Event)
    requires ev.DecideCommit? && Inv(s) && Decides(s, ev) && !s.txns[ev.t].approve
    ensures Inv(DoDecideCommit(s, ev))
  {
    hide GrantsOk, IssuedOk, CodesOk, TxnsOk;
    var txn := s.txns[ev.t];
    var d, was := txn.device, s.db.devices[txn.device];
    assert Free(s.txns, d);
    var row := was.(status := Denied);
    AdvanceKeepsTxns(s.db.devices, s.txns, d, row);
    AdvanceKeepsCodes(s.db.devices, d, row);
    AdvanceKeepsDevices(s.db.devices, s.history, d, row, s.history[d]);
    assert s.history[d := s.history[d]] == s.history;
    AdvanceKeepsGrants(s.db.devices, s.db.grants, s.owner, d, row);
    AnsweredKeeps(s.(db := s.db.(devices := s.db.devices[d := row])), ev.t, Fine);
  }

  lemma ClaimCommitKeeps(s: Sys, d: Id, row: Device, now: Time, kind: PollKind)
    requires Inv(s) && d in s.db.devices && Free(s.txns, d) && Earlier(row, s.db.devices[d])
    requires ClaimUpdate(s.db, d, row, now).Some? && kind != TokenIssued
    requires kind == Slow <==> TooEarly(row, now)
    ensures d in s.history
    ensures Inv(s.(db := s.db.(devices := s.db.devices[d := ClaimUpdate(s.db, d, row, now).value]),
                   history := Recorded(s, d, Poll(now, kind))))
  {
    ClaimRow(s.db.devices[d], s.history[d], s.db, d, row, now, kind);
    ClaimGrant(s.db, s.owner, d, row, now);
    hide GrantsOk, IssuedOk, CodesOk, TxnsOk, RowOk;
    var claimed := ClaimUpdate(s.db, d, row, now).value;
    AdvanceKeepsTxns(s.db.devices, s.txns, d, claimed);
    AdvanceKeepsCodes(s.db.devices, d, claimed);
    AdvanceKeepsDevices(s.db.devices, s.history, d, claimed,
                        s.history[d].(polls := s.history[d].polls + [Poll(now, kind)]));
    AdvanceKeepsGrants(s.db.devices, s.db.grants, s.owner, d, claimed);
  }

  /** A claimed row accounts for exactly one more poll. */
  lemma ClaimRow(was: Device, h: History, db: Db, d: Id, row: Device, now: Time, kind: PollKind)
    requires d in db.devices && db.devices[d] == was && RowOk(was, h) && Earlier(row, was)
    requires ClaimUpdate(db, d, row, now).Some?
    requires kind == Slow <==> TooEarly(row, now)
    ensures RowOk(ClaimUpdate(db, d, row, now).value, h.(polls := h.polls + [Poll(now, kind)]))
  {
    var polls := h.polls + [Poll(now, kind)];
    assert polls[..|polls| - 1] == h.polls;
    forall i | 0 <= i < |polls|
      ensures polls[i].kind == Slow <==>
        polls[i].now < if i == 0 then h.createdAt
                       else polls[i - 1].now + (FIRST_INTERVAL + PENALTY * SlowCount(polls[..i])) * SECOND
    {
      assert i < |h.polls| ==> polls[..i] == h.polls[..i];
    }
  }

  lemma ClaimGrant(db: Db, owner: map<Id, Id>, d: Id, row: Device, now: Time)
    requires GrantsOk(db.devices, db.grants, owner) && d in db.devices
    requires ClaimUpdate(db, d, row, now).Some?
    ensures var claimed := ClaimUpdate(db, d, row, now).value;
            && claimed.grant == db.devices[d].grant
            && (claimed.grant.Some? ==>
                  claimed.grant.value in db.grants && GrantOk(claimed, db.grants[claimed.grant.value]))
  {
  }

  lemma ExchangeClaimKeeps(s: Sys, ev: Event)
    requires ev.ExchangeClaim? && Inv(s)
    ensures Inv(DoExchangeClaim(s, ev))
  {
    if DoExchangeClaim(s, ev) != s {
      var txn := s.txns[ev.t];
      var d, row := txn.device, txn.row;
      assert TxnOk(s.db.devices, txn);
      assert Free(s.txns, d) && Earlier(row, s.db.devices[d]);
      hide DevicesOk, GrantsOk, IssuedOk, CodesOk, TxnsOk, Inv, Earlier, TxnOk;
      if ClaimUpdate(s.db, d, row, txn.now) == None {
        AnsweredKeeps(s, ev.t, Failed(SlowDown));
      } else if TooEarly(row, txn.now) {
        ClaimAnsweredKeeps(s, ev.t, d, row, txn.now, Slow, Failed(SlowDown));
      } else if row.status == Pending {
        ClaimAnsweredKeeps(s, ev.t, d, row, txn.now, Waiting, Failed(AuthorizationPending));
      } else if !Usable(s.db, row.grant, txn.now) {
        ClaimAnsweredKeeps(s, ev.t, d, row, txn.now, GrantGone, Failed(ExpiredToken));
      } else if ev.entitlement == Inactive {
        AnsweredKeeps(s, ev.t, Failed(AccessDenied));
      } else if ev.entitlement == RoomLost {
        AnsweredKeeps(s, ev.t, Failed(RoomUnavailable));
      } else {
        LockKeeps(s, ev.t);
      }
    }
  }

  lemma ClaimAnsweredKeeps(s: Sys, t: Id, d: Id, row: Device, now: Time, kind: PollKind, a: Answer)
    requires Inv(s) && d in s.db.devices && Free(s.txns, d) && Earlier(row, s.db.devices[d])
    requires ClaimUpdate(s.db, d, row, now).Some? && kind != TokenIssued
    requires kind == Slow <==> TooEarly(row, now)
    ensures d in s.history
    ensures Inv(Answered(s.(db := s.db.(devices := s.db.devices[d := ClaimUpdate(s.db, d, row, now).value]),
                            history := Recorded(s, d, Poll(now, kind))), t, a))
  {
    ClaimCommitKeeps(s, d, row, now, kind);
    hide Inv;
    AnsweredKeeps(s.(db := s.db.(devices := s.db.devices[d := ClaimUpdate(s.db, d, row, now).value]),
                     history := Recorded(s, d, Poll(now, kind))), t, a);
  }

  /** A won claim that goes on to redeem takes the row lock. */
  lemma LockKeeps(s: Sys, t: Id)
    requires Inv(s) && t in s.txns && s.txns[t].Polling? && Free(s.txns, s.txns[t].device)
    requires ClaimUpdate(s.db, s.txns[t].device, s.txns[t].row, s.txns[t].now).Some?
    requires !TooEarly(s.txns[t].row, s.txns[t].now) && s.txns[t].row.status != Pending
    ensures Inv(s.(txns := s.txns[t := Redeeming(s.txns[t].device, s.txns[t].row, s.txns[t].now)]))
  {
    var txn := s.txns[t];
    assert TxnOk(s.db.devices, txn);
    hide DevicesOk, GrantsOk, IssuedOk, CodesOk, TxnsOk;
    DropNothing(s.txns, t, txn.device);
    AddTxn(s.db.devices, s.txns, t, Redeeming(txn.device, txn.row, txn.now));
  }

  lemma DropNothing(txns: map<Id, Txn>, t: Id, d: Id)
    requires Free(txns, d)
    ensures Free(txns - {t}, d)
  {
  }

  /** While a redemption holds its lock, its claim is still good and its grant is still the device's. */
  lemma RedeemingFacts(s: Sys, t: Id)
    requires Inv(s) && t in s.txns && s.txns[t].Redeeming?
    ensures var txn := s.txns[t];
            && txn.device in s.db.devices && txn.device in s.history
            && var was, claim := s.db.devices[txn.device], ClaimUpdate(s.db, txn.device, txn.row, txn.now);
            && claim.Some? && claim.value.status == Approved && claim.value.grant == was.grant && was.grant.Some?
            && was.grant.value in s.db.grants && s.db.grants[was.grant.value].token == None
            && was.grant.value in s.owner && s.owner[was.grant.value] == txn.device
            && GrantOk(claim.value, s.db.grants[was.grant.value])
            && Advances(was, claim.value)
            && RowOk(claim.value,
                     s.history[txn.device].(polls := s.history[txn.device].polls + [Poll(txn.now, TokenIssued)]))
  {
    var txn := s.txns[t];
    var d, was := txn.device, s.db.devices[txn.device];
    assert TxnOk(s.db.devices, txn);
    assert RowOk(was, s.history[d]);
    ClaimGrant(s.db, s.owner, d, txn.row, txn.now);
    assert s.owner[was.grant.value] == d;
    hide DevicesOk, GrantsOk, IssuedOk, CodesOk, TxnsOk;
    ClaimRow(was, s.history[d], s.db, d, txn.row, txn.now, TokenIssued);
  }

  /** Redemption: device and grant change together. */
  lemma RedeemCommitKeeps(s: Sys, t: Id, token: CliAuthRows.Token, d: Id, claimed: Device, g: Id, h: History)
    requires Inv(s) && t in s.txns && s.txns[t].Redeeming? && s.txns[t].device == d
    requires forall k :: k in s.db.grants ==> s.db.grants[k].token != Some(token)
    requires d in s.db.devices && s.db.devices[d].grant == Some(g) && claimed.grant == Some(g)
    requires g in s.db.grants && s.db.grants[g].token == None && g in s.owner && s.owner[g] == d
    requires claimed.status == Approved && GrantOk(claimed, s.db.grants[g]) && Advances(s.db.devices[d], claimed)
    requires RowOk(claimed, h)
    ensures Inv(s.(db := Db(s.db.devices[d := claimed.(status := Redeemed)],
                            s.db.grants[g := s.db.grants[g].(token := Some(token))]),
                   txns := s.txns - {t}, history := s.history[d := h],
                   issued := s.issued + [Issue(d, g, token)]))
  {
    hide DevicesOk, GrantsOk, IssuedOk, CodesOk, TxnsOk;
    var row, grant := claimed.(status := Redeemed), s.db.grants[g].(token := Some(token));
    assert RowOk(row, h) && GrantOk(row, grant) && Advances(s.db.devices[d], row);
    hide RowOk, GrantOk, Advances;
    DropTxn(s.db.devices, s.txns, t);
    DropRedeeming(s.db.devices, s.txns, t);
    AdvanceKeepsTxns(s.db.devices, s.txns - {t}, d, row);
    AdvanceKeepsCodes(s.db.devices, d, row);
    AdvanceKeepsDevices(s.db.devices, s.history, d, row, h);
    RedeemKeepsGrants(s.db.devices, s.db.grants, s.owner, d, row, g, grant);
    RedeemKeepsIssued(s.db.grants, s.owner, s.issued, g, token);
  }

  lemma ExchangeFinishKeeps(s: Sys, ev: Event)
    requires ev.ExchangeFinish? && Inv(s)
    ensures Inv(DoExchangeFinish(s, ev))
  {
    hide Inv, RowOk, GrantOk, Advances;
    if DoExchangeFinish(s, ev) != s {
      RedeemingFacts(s, ev.t);
      var txn := s.txns[ev.t];
      var d := txn.device;
      var claimed := ClaimUpdate(s.db, d, txn.row, txn.now).value;
      var outcome := RedeemUpdate(s.db, d, claimed, ev.token, ev.now);
      hide ClaimUpdate;
      if outcome.Err? {
        AnsweredKeeps(s, ev.t, Failed(outcome.error));
      } else {
        var g := claimed.grant.value;
        var h := s.history[d].(polls := s.history[d].polls + [Poll(txn.now, TokenIssued)]);
        assert forall k :: k in s.db.grants ==> !Holds(s.db, k, ev.token);
        RedeemCommitKeeps(s, ev.t, ev.token, d, claimed, g, h);
        var redeemed := s.(db := outcome.value, txns := s.txns - {ev.t},
                           history := Recorded(s, d, Poll(txn.now, TokenIssued)),
                           issued := s.issued + [Issue(d, g, ev.token)]);
        assert redeemed.txns - {ev.t} == redeemed.txns;
        AnsweredKeeps(redeemed, ev.t, Token(ev.token));
      }
    }
  }

  lemma RevokeKeeps(s: Sys, ev: Event)
    requires ev.RevokeCommit? && Inv(s)
    ensures Inv(DoRevokeCommit(s, ev))
  {
    hide DevicesOk, GrantsOk, IssuedOk, CodesOk, TxnsOk;
    if DoRevokeCommit(s, ev) != s {
      var g := s.txns[ev.t].grant;
      RevokeKeepsGrants(s.db.devices, s.db.grants, s.owner, s.issued, g, ev.now);
      AnsweredKeeps(s.(db := s.db.(grants := s.db.grants[g := s.db.grants[g].(revokedAt := Some(ev.now))])), ev.t,
                    Fine);
    }
  }

  /** The invariant survives every event, whichever request moves. */
  lemma NextKeeps(s: Sys, ev: Event)
    requires Inv(s)
    ensures Inv(Next(s, ev))
  {
    hide Inv, OnlyRead, DoReviewRead, DoDecideRead, DoExchangeRead, DoRevokeRead, DoCreate, DoReviewCommit,
         DoDecideCommit, DoExchangeClaim, DoExchangeFinish, DoRevokeCommit;
    match ev
    case Create(_, _, _, _, _, _, _, _) => CreateKeeps(s, ev);
    case ReviewRead(_, _, _, _, _) => ReviewReads(s, ev); ReadKeeps(s, DoReviewRead(s, ev), ev.t);
    case ReviewCommit(_, _) => ReviewCommitKeeps(s, ev);
    case DecideRead(_, _, _, _, _, _, _) => DecideReads(s, ev); ReadKeeps(s, DoDecideRead(s, ev), ev.t);
    case DecideCommit(_, _, _) => DecideCommitKeeps(s, ev);
    case ExchangeRead(_, _, _) => ExchangeReads(s, ev); ReadKeeps(s, DoExchangeRead(s, ev), ev.t);
    case ExchangeClaim(_, _) => ExchangeClaimKeeps(s, ev);
    case ExchangeFinish(_, _, _) => ExchangeFinishKeeps(s, ev);
    case RevokeRead(_, _, _) => RevokeReads(s, ev); ReadKeeps(s, DoRevokeRead(s, ev), ev.t);
    case RevokeCommit(_, _) => RevokeKeeps(s, ev);
    case Abort(t) => AnsweredKeeps(s, t, Aborted);
  }

  lemma {:induction false} RunKeeps(s: Sys, events: seq<Event>)
    requires Inv(s)
    ensures Inv(Run(s, events))
  {
    if events != [] {
      RunKeeps(s, events[..|events| - 1]);
      NextKeeps(Run(s, events[..|events| - 1]), events[|events| - 1]);
    }
  }
}
