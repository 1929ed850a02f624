/**
 The service as an object over its two tables. Each method is one request that meets no other
 request; the lemmas show that such a request is exactly its steps in the state machine, one after the other.
*/
module CliAuth {
  import opened Wrappers
  import opened CliAuthRows
  import opened CliAuthRuns

  /** What `row_id` a lookup by a unique code may return. */
  ghost predicate FoundByUserCode(db: Db, code: Code, d: Option<Id>) {
    match d
    case None => !HasUserCode(db, code)
    case Some(id) => id in db.devices && db.devices[id].userCode == code
  }

  ghost predicate FoundByDeviceCode(db: Db, code: Code, d: Option<Id>) {
    match d
    case None => !HasDeviceCode(db, code)
    case Some(id) => id in db.devices && db.devices[id].deviceCode == code
  }

  /** A whole review with nothing else in flight. */
  function ReviewAlone(db: Db, d: Option<Id>, user: string, readAt: Time, roomsOk: bool, now: Time)
    : (Db, Result<Id, AuthError>)
    requires d.Some? ==> d.value in db.devices
  {
    if d == None || db.devices[d.value].expiresAt <= readAt then (db, Err(InvalidOrExpiredCode))
    else if db.devices[d.value].status != Pending then (db, Err(AlreadyDecided))
    else if !roomsOk then (db, Err(RoomUnavailable))
    else match ReviewUpdate(db, d.value, user, now)
      case None => (db, Err(AccountMismatch))
      case Some(db') => (db', Ok(d.value))
  }

  function DecideAlone(db: Db, d: Option<Id>, user: string, approve: bool, now: Time, readAt: Time, roomsOk: bool,
                       g: Id, ttl: int): (Db, Result<Status, AuthError>)
    requires d.Some? ==> d.value in db.devices
  {
    if d == None || db.devices[d.value].expiresAt <= readAt then (db, Err(InvalidOrExpiredCode))
    else if db.devices[d.value].reviewer != Some(user) then (db, Err(AccountMismatch))
    else if approve && !roomsOk then (db, Err(RoomUnavailable))
    else match DecideUpdate(db, d.value, user, approve, now, g, ttl)
      case None => (db, Err(AlreadyDecided))
      case Some(db') => (db', Ok(if approve then Approved else Denied))
  }

  /** A whole token request with nothing else in flight. */
  function ExchangeAlone(db: Db, d: Option<Id>, now: Time, entitlement: Entitlement, token: CliAuthRows.Token,
                         issueAt: Time)
    : (Db, Result<CliAuthRows.Token, AuthError>)
    requires d.Some? ==> d.value in db.devices
  {
    if d == None || db.devices[d.value].status == Redeemed then (db, Err(InvalidGrant))
    else if db.devices[d.value].expiresAt <= now then (db, Err(ExpiredToken))
    else if db.devices[d.value].status == Denied then (db, Err(AccessDenied))
    else
      var row := db.devices[d.value];
      var claimed := ClaimUpdate(db, d.value, row, now).value;
      var stored := db.(devices := db.devices[d.value := claimed]);
      if TooEarly(row, now) then (stored, Err(SlowDown))
      else if row.status == Pending then (stored, Err(AuthorizationPending))
      else if !Usable(db, row.grant, now) then (stored, Err(ExpiredToken))
      else if entitlement == Inactive then (db, Err(AccessDenied))
      else if entitlement == RoomLost then (db, Err(RoomUnavailable))
      else match RedeemUpdate(db, d.value, claimed, token, issueAt)
        case Err(e) => (db, Err(e))
        case Ok(db') => (db', Ok(token))
  }

  function RequestableScopes(): set<string> {
    {"identity:read", "rooms:read", "messages:read"}
  }

  /** The row found is still open to a decision or a review at `now`. */
  predicate Open(row: Device, now: Time) {
    row.status == Pending && row.expiresAt > now
  }

  /** A poll of this row gets as far as its pace. */
  predicate Pollable(row: Device, now: Time) {
    row.expiresAt > now && (row.status == Pending || row.status == Approved)
  }

  /** An approved row, polled in time, whose grant is neither revoked nor expired. */
  predicate Redeemable(row: Device, grants: map<Id, Grant>, now: Time) {
    && row.status == Approved && row.nextPollAt <= now && row.grant.Some? && row.grant.value in grants
    && grants[row.grant.value].revokedAt == None && grants[row.grant.value].expiresAt > now
  }

  /** The row after one more poll that added `penalty` seconds to its interval. */
  function PolledRow(was: Device, penalty: int, now: Time): Device {
    was.(pollVersion := was.pollVersion + 1, interval := was.interval + penalty,
         nextPollAt := now + (was.interval + penalty) * 1_000_000)
  }

  class CliAuthService {
    const deviceTtl: int
    const accessTtl: int
    var devices: map<Id, Device>
    var grants: map<Id, Grant>

    function Database(): Db
      reads this
    {
      Db(devices, grants)
    }

    constructor (deviceTtl: int, accessTtl: int)
      requires 1 <= deviceTtl <= 600 && 1 <= accessTtl <= 900
      ensures Database() == Init.db
      ensures this.deviceTtl == deviceTtl && this.accessTtl == accessTtl
    {
      this.deviceTtl, this.accessTtl := deviceTtl, accessTtl;
      devices, grants := map[], map[];
    }

    method CreateDevice(clientId: string, scopes: seq<string>, rooms: seq<string>, now: Time,
                        newId: Id, deviceCode: Code, userCode: Code)
      returns (error: Option<AuthError>)
      requires newId !in devices
      modifies this
      ensures error == CreationError(clientId, scopes, rooms)
      ensures error == Some(InvalidClient) <==> clientId != "character-relay-cli"
      ensures error == Some(InvalidScope) <==>
                && clientId == "character-relay-cli"
                && (scopes == [] || exists i :: 0 <= i < |scopes| && scopes[i] !in RequestableScopes())
      ensures error == Some(InvalidRoomSelection) <==>
                && clientId == "character-relay-cli" && scopes != []
                && (forall i :: 0 <= i < |scopes| ==> scopes[i] in RequestableScopes())
                && (|rooms| == 0 || |rooms| > 32 || exists i :: 0 <= i < |rooms| && !ValidRoom(rooms[i]))
      ensures error.None? || error.value in {InvalidClient, InvalidScope, InvalidRoomSelection}
      ensures grants == old(grants)
      ensures error.Some? ==> devices == old(devices)
      ensures error.None? ==>
                && newId in devices && devices == old(devices)[newId := devices[newId]]
                && devices[newId].status == Pending && devices[newId].reviewer == None && devices[newId].grant == None
                && devices[newId].scopes == Elements(scopes) && devices[newId].rooms == Elements(rooms)
                && devices[newId].interval == 5 && devices[newId].nextPollAt == now
                && devices[newId].expiresAt == now + deviceTtl * 1_000_000 && devices[newId].pollVersion == 0
                && devices[newId].clientId == "character-relay-cli"
                && devices[newId].deviceCode == deviceCode && devices[newId].userCode == userCode
    {
      if clientId != CLIENT_ID {
        return Some(InvalidClient);
      }
      if scopes == [] || !(Elements(scopes) <= SCOPES) {
        return Some(InvalidScope);
      }
      if rooms == [] || |rooms| > 32 {
        return Some(InvalidRoomSelection);
      }
      for i := 0 to |rooms|
        invariant forall k :: 0 <= k < i ==> ValidRoom(rooms[k])
        invariant devices == old(devices) && grants == old(grants)
      {
        if !ValidRoom(rooms[i]) {
          return Some(InvalidRoomSelection);
        }
      }
      devices := devices[newId := NewDevice(deviceCode, userCode, scopes, rooms, now, deviceTtl)];
      error := None;
    }

    method FindByUserCode(code: Code) returns (d: Option<Id>)
      ensures FoundByUserCode(Database(), code, d)
    {
      if exists id :: id in devices && devices[id].userCode == code {
        var id :| id in devices && devices[id].userCode == code;
        return Some(id);
      }
      d := None;
    }

    method FindByDeviceCode(code: Code) returns (d: Option<Id>)
      ensures FoundByDeviceCode(Database(), code, d)
    {
      if exists id :: id in devices && devices[id].deviceCode == code {
        var id :| id in devices && devices[id].deviceCode == code;
        return Some(id);
      }
      d := None;
    }

    method Review(userCode: Code, user: string, readAt: Time, roomsOk: bool, now: Time)
      returns (result: Result<Id, AuthError>, ghost d: Option<Id>)
      modifies this
      ensures FoundByUserCode(old(Database()), userCode, d)
      ensures (Database(), result) == ReviewAlone(old(Database()), d, user, readAt, roomsOk, now)
      // In the rows themselves: the one row found is bound to this account and nothing else moves.
      ensures grants == old(grants) && (result.Err? ==> devices == old(devices))
      ensures result.Ok? ==>
                && d == Some(result.value) && result.value in old(devices)
                && var was := old(devices)[result.value];
                && Open(was, readAt) && Open(was, now) && roomsOk
                && (was.reviewer == None || was.reviewer == Some(user))
                && devices == old(devices)[result.value := was.(reviewer := Some(user))]
      ensures result == Err(InvalidOrExpiredCode) <==> d == None || old(devices)[d.value].expiresAt <= readAt
      ensures result == Err(AlreadyDecided) <==>
                d.Some? && old(devices)[d.value].expiresAt > readAt && old(devices)[d.value].status != Pending
      ensures result == Err(RoomUnavailable) <==> d.Some? && Open(old(devices)[d.value], readAt) && !roomsOk
      ensures result == Err(AccountMismatch) <==>
                && d.Some? && Open(old(devices)[d.value], readAt) && roomsOk
                && (old(devices)[d.value].expiresAt <= now || old(devices)[d.value].reviewer !in {None, Some(user)})
    {
      var found := FindByUserCode(userCode);
      d := found;
      if found == None || devices[found.value].expiresAt <= readAt {
        return Err(InvalidOrExpiredCode), d;
      }
      var id := found.value;
      if devices[id].status != Pending {
        return Err(AlreadyDecided), d;
      }
      if !roomsOk {
        return Err(RoomUnavailable), d;
      }
      var row := devices[id];
      var bound := row.status == Pending && (row.reviewer == None || row.reviewer == Some(user)) && row.expiresAt > now;
      if !bound {
        return Err(AccountMismatch), d;
      }
      devices := devices[id := row.(reviewer := Some(user))];
      result := Ok(id);
    }

    method Decide(userCode: Code, user: string, approve: bool, now: Time, readAt: Time, roomsOk: bool, newId: Id)
      returns (result: Result<Status, AuthError>, ghost d: Option<Id>)
      requires newId !in grants
      modifies this
      ensures FoundByUserCode(old(Database()), userCode, d)
      ensures (Database(), result) ==
              DecideAlone(old(Database()), d, user, approve, now, readAt, roomsOk, newId, accessTtl)
      // In the rows themselves: what was answered is what the row now says, and only an approval makes a grant.
      ensures result.Err? ==> devices == old(devices) && grants == old(grants)
      ensures result.Ok? ==>
                && result.value == (if approve then Approved else Denied)
                && d.Some? && d.value in old(devices) && d.value in devices && devices[d.value].status == result.value
                && var was := old(devices)[d.value];
                && Open(was, readAt) && Open(was, now) && was.reviewer == Some(user) && (approve ==> roomsOk)
                && devices == old(devices)[d.value := devices[d.value]]
                && (!approve ==> devices[d.value] == was.(status := Denied) && grants == old(grants))
                && (approve ==>
                      && devices[d.value] == was.(status := Approved, grant := Some(newId))
                      && grants == old(grants)[newId := Grant(user, was.clientId, was.scopes, was.rooms, None,
                                                              now, now + accessTtl * 1_000_000, None)])
      ensures result == Err(InvalidOrExpiredCode) <==> d == None || old(devices)[d.value].expiresAt <= readAt
      ensures result == Err(AccountMismatch) <==>
                d.Some? && old(devices)[d.value].expiresAt > readAt && old(devices)[d.value].reviewer != Some(user)
      ensures result == Err(RoomUnavailable) <==>
                && d.Some? && old(devices)[d.value].expiresAt > readAt && old(devices)[d.value].reviewer == Some(user)
                && approve && !roomsOk
      ensures result == Err(AlreadyDecided) <==>
                && d.Some? && old(devices)[d.value].expiresAt > readAt && old(devices)[d.value].reviewer == Some(user)
                && (approve ==> roomsOk) && !Open(old(devices)[d.value], now)
    {
      var found := FindByUserCode(userCode);
      d := found;
      if found == None || devices[found.value].expiresAt <= readAt {
        return Err(InvalidOrExpiredCode), d;
      }
      var id := found.value;
      var row := devices[id];
      if row.reviewer != Some(user) {
        return Err(AccountMismatch), d;
      }
      if approve && !roomsOk {
        return Err(RoomUnavailable), d;
      }
      var changed := row.status == Pending && row.reviewer == Some(user) && row.expiresAt > now;
      if !changed {
        return Err(AlreadyDecided), d;
      }
      var decided := row.(status := if approve then Approved else Denied);
      if approve {
        grants := grants[newId := Grant(user, row.clientId, row.scopes, row.rooms, None,
                                        now, now + accessTtl * SECOND, None)];
        decided := decided.(grant := Some(newId));
      }
      devices := devices[id := decided];
      result := Ok(decided.status);
    }

    method Exchange(clientId: string, deviceCode: Code, now: Time, entitlement: Entitlement,
                    token: CliAuthRows.Token, issueAt: Time)
      returns (result: Result<CliAuthRows.Token, AuthError>, ghost d: Option<Id>)
      modifies this
      ensures clientId != CLIENT_ID ==> result == Err(InvalidClient) && Database() == old(Database())
      ensures clientId == CLIENT_ID ==>
                && FoundByDeviceCode(old(Database()), deviceCode, d)
                && (Database(), result) == ExchangeAlone(old(Database()), d, now, entitlement, token, issueAt)
      // In the rows themselves: one poll is accounted for, by the penalty or the plain interval, and only a redemption
      // moves the status and stores the token.
      ensures result == Err(InvalidGrant) <==>
                clientId == CLIENT_ID && (d == None || old(devices)[d.value].status == Redeemed)
      ensures result == Err(SlowDown) <==>
                && clientId == CLIENT_ID && d.Some? && Pollable(old(devices)[d.value], now)
                && old(devices)[d.value].nextPollAt > now
      ensures result == Err(AuthorizationPending) <==>
                && clientId == CLIENT_ID && d.Some? && Pollable(old(devices)[d.value], now)
                && old(devices)[d.value].nextPollAt <= now && old(devices)[d.value].status == Pending
      ensures result == Err(SlowDown) || result == Err(AuthorizationPending) ==>
                && grants == old(grants)
                && devices == old(devices)[d.value :=
                     PolledRow(old(devices)[d.value], if result == Err(SlowDown) then 5 else 0, now)]
      ensures result.Ok? ==>
                && result.value == token && clientId == CLIENT_ID && d.Some? && entitlement == Entitled
                && var was := old(devices)[d.value];
                && was.status == Approved && was.expiresAt > now && was.nextPollAt <= now
                && was.grant.Some? && was.grant.value in old(grants)
                && var grant := old(grants)[was.grant.value];
                && grant.revokedAt == None && grant.expiresAt > now && grant.expiresAt > issueAt && grant.token == None
                && devices == old(devices)[d.value := PolledRow(was, 0, now).(status := Redeemed)]
                && grants == old(grants)[was.grant.value := grant.(token := Some(token))]
      ensures result.Err? && result.error !in {SlowDown, AuthorizationPending, ExpiredToken} ==>
                devices == old(devices) && grants == old(grants)
      ensures result == Err(AccessDenied) <==>
                && clientId == CLIENT_ID && d.Some? && old(devices)[d.value].expiresAt > now
                && (old(devices)[d.value].status == Denied
                    || (entitlement == Inactive && Redeemable(old(devices)[d.value], old(grants), now)))
      ensures result == Err(RoomUnavailable) <==>
                && clientId == CLIENT_ID && d.Some? && old(devices)[d.value].expiresAt > now
                && entitlement == RoomLost && Redeemable(old(devices)[d.value], old(grants), now)
    {
      d := None;
      if clientId != CLIENT_ID {
        return Err(InvalidClient), d;
      }
      var found := FindByDeviceCode(deviceCode);
      d := found;
      if found == None || devices[found.value].status == Redeemed {
        return Err(InvalidGrant), d;
      }
      var id := found.value;
      var row := devices[id];
      if row.expiresAt <= now {
        return Err(ExpiredToken), d;
      }
      if row.status == Denied {
        return Err(AccessDenied), d;
      }
      var slow := row.nextPollAt > now;
      var interval := if slow then row.interval + PENALTY else row.interval;
      var claimed := row.(pollVersion := row.pollVersion + 1, interval := interval,
                          nextPollAt := now + interval * SECOND);
      if slow || row.status == Pending {
        devices := devices[id := claimed];
        return Err(if slow then SlowDown else AuthorizationPending), d;
      }
      if row.grant == None || row.grant.value !in grants || grants[row.grant.value].revokedAt.Some?
         || grants[row.grant.value].expiresAt <= now {
        devices := devices[id := claimed];
        return Err(ExpiredToken), d;
      }
      if entitlement == Inactive {
        return Err(AccessDenied), d;
      }
      if entitlement == RoomLost {
        return Err(RoomUnavailable), d;
      }
      var g := row.grant.value;
      var issued := grants[g].revokedAt == None && grants[g].expiresAt > issueAt && grants[g].token == None;
      if !issued {
        return Err(ExpiredToken), d;
      }
      devices := devices[id := claimed.(status := Redeemed)];
      grants := grants[g := grants[g].(token := Some(token))];
      result := Ok(token);
    }

    method Resolve(token: CliAuthRows.Token, now: Time, active: bool, checkRooms: bool, roomsOk: bool)
      returns (result: Result<Principal, AuthError>)
      requires forall g, h :: Holds(Database(), g, token) && Holds(Database(), h, token) ==> g == h
      ensures result.Ok? ==> Resolves(Database(), token, now, result.value)
      ensures result.Ok? <==> (exists p :: Resolves(Database(), token, now, p)) && active && (checkRooms ==> roomsOk)
      ensures result.Err? ==> (result.error ==
                if (exists p :: Resolves(Database(), token, now, p)) && active then RoomUnavailable else InvalidToken)
      // In the rows themselves: the grant that holds the token, as long as it is neither revoked nor expired.
      ensures result.Ok? ==>
                && result.value.grant in grants && active && (checkRooms ==> roomsOk)
                && var grant := grants[result.value.grant];
                && grant.token == Some(token) && grant.revokedAt == None && grant.expiresAt > now
                && result.value.user == grant.user && result.value.scopes == grant.scopes
                && result.value.rooms == grant.rooms
      ensures result == Err(InvalidToken) <==>
                || !active
                || forall g :: g in grants && grants[g].token == Some(token) ==>
                     grants[g].revokedAt.Some? || grants[g].expiresAt <= now
    {
      if !exists g :: g in grants && grants[g].token == Some(token) {
        return Err(InvalidToken);
      }
      var g :| g in grants && grants[g].token == Some(token);
      assert forall h :: h in grants && grants[h].token == Some(token) ==> Holds(Database(), h, token);
      var grant := grants[g];
      if grant.revokedAt.Some? || grant.expiresAt <= now {
        return Err(InvalidToken);
      }
      var p := Principal(grant.user, g, grant.scopes, grant.rooms);
      assert Resolves(Database(), token, now, p);
      if !active {
        return Err(InvalidToken);
      }
      if checkRooms && !roomsOk {
        return Err(RoomUnavailable);
      }
      result := Ok(p);
    }

    method RevokeGrant(g: Id, user: string, now: Time) returns (error: Option<AuthError>)
      modifies this
      ensures RevokeUpdate(old(Database()), g, user, now) == None ==>
                error == Some(GrantNotFound) && Database() == old(Database())
      ensures RevokeUpdate(old(Database()), g, user, now).Some? ==>
                error == None && Database() == RevokeUpdate(old(Database()), g, user, now).value
      ensures error == (if g in old(grants) && old(grants)[g].user == user then None else Some(GrantNotFound))
      ensures devices == old(devices)
      ensures error.Some? || old(grants)[g].revokedAt.Some? ==> grants == old(grants)
      ensures error.None? && old(grants)[g].revokedAt.None? ==>
                grants == old(grants)[g := old(grants)[g].(revokedAt := Some(now))]
    {
      if g !in grants || grants[g].user != user {
        return Some(GrantNotFound);
      }
      if grants[g].revokedAt == None {
        grants := grants[g := grants[g].(revokedAt := Some(now))];
      }
      error := None;
    }
  }

  // ---------------------------------------------------------------- the service is the state machine, uninterrupted

  ghost predicate Quiet(s: Sys, t: Id) {
    Inv(s) && s.txns == map[] && t !in s.answers
  }

  function Reply(r: Result<CliAuthRows.Token, AuthError>): Answer {
    match r
    case Ok(token) => CliAuthRuns.Token(token)
    case Err(e) => Failed(e)
  }

  lemma KeysAgree(s: Sys)
    requires Inv(s)
    ensures s.history.Keys == s.db.devices.Keys
  {
  }

  /** A single request in flight that has not claimed anything locks nothing. */
  lemma Alone(s: Sys, t: Id, txn: Txn)
    requires s.txns == map[t := txn] && !txn.Redeeming?
    ensures forall d :: !Locked(s, d)
    ensures s.txns - {t} == map[]
  {
  }

  /** A request that ended in `a`, leaving the tables as `db` and nothing in flight. */
  ghost predicate Ended(s: Sys, t: Id, db: Db, a: Answer) {
    s.db == db && s.txns == map[] && t in s.answers && s.answers[t] == a
  }

  lemma ReviewCommitAlone(s: Sys, t: Id, d: Id, user: string, now: Time)
    requires s.txns == map[t := Reviewing(d, user)] && d in s.db.devices && d in s.history
    ensures var s', update := DoReviewCommit(s, ReviewCommit(t, now)), ReviewUpdate(s.db, d, user, now);
            if update.Some? then Ended(s', t, update.value, Fine) else Ended(s', t, s.db, Failed(AccountMismatch))
  {
    Alone(s, t, Reviewing(d, user));
    hide Locked, ReviewUpdate;
  }

  lemma ReviewIsItsSteps(s: Sys, t: Id, d: Id, user: string, readAt: Time, roomsOk: bool, now: Time)
    requires Quiet(s, t)
    ensures var alone := ReviewAlone(s.db, if d in s.db.devices then Some(d) else None, user, readAt, roomsOk, now);
            var s' := DoReviewCommit(DoReviewRead(s, ReviewRead(t, d, user, readAt, roomsOk)), ReviewCommit(t, now));
            Ended(s', t, alone.0, if alone.1.Ok? then Fine else Failed(alone.1.error))
  {
    hide Inv, Locked, ReviewUpdate, DoReviewCommit;
    KeysAgree(s);
    Nothing(s, t);
    var s1 := DoReviewRead(s, ReviewRead(t, d, user, readAt, roomsOk));
    if t in s1.txns {
      assert s1 == s.(txns := map[t := Reviewing(d, user)]);
      ReviewCommitAlone(s1, t, d, user, now);
    } else {
      CommitWaits(s1, t, now, 0, 0);
    }
  }

  lemma CommitWaits(s: Sys, t: Id, now: Time, g: Id, ttl: int)
    requires t !in s.txns
    ensures DoReviewCommit(s, ReviewCommit(t, now)) == s
    ensures DoDecideCommit(s, DecideCommit(t, g, ttl)) == s
  {
  }

  lemma Nothing(s: Sys, t: Id)
    requires s.txns == map[]
    ensures s.txns - {t} == map[]
  {
  }

  lemma DecideCommitAlone(s: Sys, t: Id, d: Id, user: string, approve: bool, now: Time, g: Id, ttl: int)
    requires s.txns == map[t := Deciding(d, user, approve, now)] && d in s.db.devices && d in s.history
               && g !in s.db.grants
    ensures var s' := DoDecideCommit(s, DecideCommit(t, g, ttl));
            var update := DecideUpdate(s.db, d, user, approve, now, g, ttl);
            if update.Some? then Ended(s', t, update.value, Fine) else Ended(s', t, s.db, Failed(AlreadyDecided))
  {
    Alone(s, t, Deciding(d, user, approve, now));
    hide Locked, DecideUpdate;
  }

  lemma DecideIsItsSteps(s: Sys, t: Id, d: Id, user: string, approve: bool, now: Time, readAt: Time, roomsOk: bool,
                         g: Id, ttl: int)
    requires Quiet(s, t) && g !in s.db.grants
    ensures var found := if d in s.db.devices then Some(d) else None;
            var alone := DecideAlone(s.db, found, user, approve, now, readAt, roomsOk, g, ttl);
            var s' := DoDecideCommit(DoDecideRead(s, DecideRead(t, d, user, approve, now, readAt, roomsOk)),
                                     DecideCommit(t, g, ttl));
            Ended(s', t, alone.0, if alone.1.Ok? then Fine else Failed(alone.1.error))
  {
    hide Inv, Locked, DecideUpdate, DoDecideCommit;
    KeysAgree(s);
    Nothing(s, t);
    var s1 := DoDecideRead(s, DecideRead(t, d, user, approve, now, readAt, roomsOk));
    if t in s1.txns {
      assert s1 == s.(txns := map[t := Deciding(d, user, approve, now)]);
      DecideCommitAlone(s1, t, d, user, approve, now, g, ttl);
    } else {
      CommitWaits(s1, t, now, g, ttl);
    }
  }

  lemma RevokeIsItsSteps(s: Sys, t: Id, g: Id, user: string, now: Time)
    requires Quiet(s, t)
    ensures var s' := DoRevokeCommit(DoRevokeRead(s, RevokeRead(t, g, user)), RevokeCommit(t, now));
            match RevokeUpdate(s.db, g, user, now)
            case None => Ended(s', t, s.db, Failed(GrantNotFound))
            case Some(db) => Ended(s', t, db, Fine)
  {
    hide Inv;
    Nothing(s, t);
    var s1 := DoRevokeRead(s, RevokeRead(t, g, user));
    if t in s1.txns {
      assert s1 == s.(txns := map[t := Revoking(g)]);
      assert s1.txns - {t} == map[];
    }
  }

  lemma ExchangeIsItsSteps(s: Sys, t: Id, d: Id, now: Time, entitlement: Entitlement, token: CliAuthRows.Token,
                           issueAt: Time)
    requires Quiet(s, t) && forall g :: g in s.db.grants ==> !Holds(s.db, g, token)
    ensures var found := if d in s.db.devices then Some(d) else None;
            var alone := ExchangeAlone(s.db, found, now, entitlement, token, issueAt);
            var s' := DoExchangeFinish(DoExchangeClaim(DoExchangeRead(s, ExchangeRead(t, d, now)),
                                                       ExchangeClaim(t, entitlement)),
                                      ExchangeFinish(t, token, issueAt));
            Ended(s', t, alone.0, Reply(alone.1))
  {
    hide Inv, Locked, RedeemUpdate, Usable, Holds, ClaimUpdate, DoExchangeClaim, DoExchangeFinish;
    KeysAgree(s);
    Nothing(s, t);
    var s1 := DoExchangeRead(s, ExchangeRead(t, d, now));
    if t in s1.txns {
      var row := s.db.devices[d];
      assert s1 == s.(txns := map[t := Polling(d, row, now)]);
      assert (row.status == Pending || row.status == Approved) && row.expiresAt > now;
      ClaimedExchange(s, s1, t, d, row, now, entitlement, token, issueAt);
    } else {
      EndedStays(s1, t, entitlement, token, issueAt);
    }
  }

  lemma EndedStays(s: Sys, t: Id, entitlement: Entitlement, token: CliAuthRows.Token, issueAt: Time)
    requires t !in s.txns
    ensures DoExchangeFinish(s, ExchangeFinish(t, token, issueAt)) == s
    ensures DoExchangeClaim(s, ExchangeClaim(t, entitlement)) == s
  {
  }

  lemma ClaimedExchange(s: Sys, s1: Sys, t: Id, d: Id, row: Device, now: Time, entitlement: Entitlement,
                        token: CliAuthRows.Token, issueAt: Time)
    requires s1 == s.(txns := map[t := Polling(d, row, now)]) && d in s.db.devices && s.db.devices[d] == row
    requires d in s.history && forall g :: g in s.db.grants ==> !Holds(s.db, g, token)
    requires row.status == Pending || row.status == Approved
    requires row.expiresAt > now
    ensures var alone := ExchangeAlone(s.db, Some(d), now, entitlement, token, issueAt);
            Ended(DoExchangeFinish(DoExchangeClaim(s1, ExchangeClaim(t, entitlement)),
                                   ExchangeFinish(t, token, issueAt)),
                  t, alone.0, Reply(alone.1))
  {
    hide Locked, RedeemUpdate, Usable, Holds, DoExchangeClaim, DoExchangeFinish;
    var s2 := DoExchangeClaim(s1, ExchangeClaim(t, entitlement));
    ClaimAlone(s1, t, d, row, now, entitlement);
    if t in s2.txns {
      FinishAlone(s2, t, d, row, now, token, issueAt);
    } else {
      EndedStays(s2, t, entitlement, token, issueAt);
    }
  }

  /** The claim step of an undisturbed token request. */
  lemma ClaimAlone(s: Sys, t: Id, d: Id, row: Device, now: Time, entitlement: Entitlement)
    requires s.txns == map[t := Polling(d, row, now)] && d in s.db.devices && s.db.devices[d] == row
    requires d in s.history
    ensures var s' := DoExchangeClaim(s, ExchangeClaim(t, entitlement));
            var claimed := ClaimUpdate(s.db, d, row, now).value;
            var stored := s.db.(devices := s.db.devices[d := claimed]);
            if TooEarly(row, now) || row.status == Pending || !Usable(s.db, row.grant, now) then
              && s'.db == stored && s'.txns == map[] && t in s'.answers
              && s'.answers[t] == Failed(if TooEarly(row, now) then SlowDown
                                         else if row.status == Pending then AuthorizationPending else ExpiredToken)
            else if entitlement != Entitled then
              && s'.db == s.db && s'.txns == map[] && t in s'.answers
              && s'.answers[t] == Failed(if entitlement == Inactive then AccessDenied else RoomUnavailable)
            else s' == s.(txns := map[t := Redeeming(d, row, now)])
  {
    Alone(s, t, Polling(d, row, now));
    hide Locked, Usable;
  }

  lemma FinishAlone(s: Sys, t: Id, d: Id, row: Device, now: Time, token: CliAuthRows.Token, issueAt: Time)
    requires s.txns == map[t := Redeeming(d, row, now)] && d in s.db.devices && s.db.devices[d] == row
    requires d in s.history && forall g :: g in s.db.grants ==> !Holds(s.db, g, token)
    ensures var s' := DoExchangeFinish(s, ExchangeFinish(t, token, issueAt));
            match RedeemUpdate(s.db, d, ClaimUpdate(s.db, d, row, now).value, token, issueAt)
            case Err(e) => Ended(s', t, s.db, Failed(e))
            case Ok(db) => Ended(s', t, db, CliAuthRuns.Token(token))
  {
    assert s.txns - {t} == map[];
    hide Holds, Usable;
  }
}
