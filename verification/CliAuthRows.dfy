/**
 Device and grant rows, and the guarded updates the service runs against them. A guarded
 update looks only at the row as committed when the update runs, never at the snapshot the
 request read earlier: this is what the concurrency argument rests on.

 Digests are folded away: a code or token stands for its own digest. Time is in microseconds.
*/
module CliAuthRows {
  import opened Wrappers

  type Id = nat
  type Code = nat
  type Token = nat
  type Time = int

  const SECOND: int := 1_000_000
  const CLIENT_ID: string := "character-relay-cli"
  const TOKEN_PREFIX: string := "crcli_"
  const SCOPES: set<string> := {"identity:read", "rooms:read", "messages:read"}
  const FIRST_INTERVAL: int := 5
  const PENALTY: int := 5

  datatype Status = Pending | Approved | Denied | Redeemed

  datatype Device = Device(
    deviceCode: Code, userCode: Code, clientId: string, scopes: set<string>, rooms: set<string>,
    status: Status, reviewer: Option<string>, grant: Option<Id>,
    expiresAt: Time, nextPollAt: Time, interval: int, pollVersion: nat)

  datatype Grant = Grant(
    user: string, clientId: string, scopes: set<string>, rooms: set<string>, token: Option<Token>,
    approvedAt: Time, expiresAt: Time, revokedAt: Option<Time>)

  datatype Db = Db(devices: map<Id, Device>, grants: map<Id, Grant>)

  datatype AuthError =
    | InvalidClient | InvalidScope | InvalidRoomSelection
    | InvalidOrExpiredCode | AlreadyDecided | AccountMismatch | RoomUnavailable
    | InvalidGrant | ExpiredToken | AccessDenied | SlowDown | AuthorizationPending
    | InvalidToken | GrantNotFound

  // ---------------------------------------------------------------- creation

  function Lower(c: char): char {
    if 'A' <= c <= 'Z' then ((c as int) - ('A' as int) + ('a' as int)) as char else c
  }

  predicate RestrictedCredential(room: string) {
    |room| >= |TOKEN_PREFIX| && forall i :: 0 <= i < |TOKEN_PREFIX| ==> Lower(room[i]) == TOKEN_PREFIX[i]
  }

  predicate RoomChar(c: char) {
    'a' <= c <= 'z' || 'A' <= c <= 'Z' || '0' <= c <= '9' || c == '_' || c == '-'
  }

  predicate ValidRoom(room: string) {
    && 1 <= |room| <= 64
    && !RestrictedCredential(room)
    && forall i :: 0 <= i < |room| ==> RoomChar(room[i])
  }

  function Elements<T>(s: seq<T>): set<T> {
    set x | x in s
  }

  function CreationError(clientId: string, scopes: seq<string>, rooms: seq<string>): Option<AuthError> {
    if clientId != CLIENT_ID then Some(InvalidClient)
    else if scopes == [] || !(Elements(scopes) <= SCOPES) then Some(InvalidScope)
    else if rooms == [] || |rooms| > 32 || exists i :: 0 <= i < |rooms| && !ValidRoom(rooms[i])
      then Some(InvalidRoomSelection)
    else None
  }

  function NewDevice(deviceCode: Code, userCode: Code, scopes: seq<string>, rooms: seq<string>, now: Time,
                     ttl: int): Device
  {
    Device(deviceCode, userCode, CLIENT_ID, Elements(scopes), Elements(rooms), Pending, None, None,
           now + ttl * SECOND, now, FIRST_INTERVAL, 0)
  }

  // ---------------------------------------------------------------- lookups

  predicate HasUserCode(db: Db, code: Code) {
    exists d :: d in db.devices && db.devices[d].userCode == code
  }

  predicate HasDeviceCode(db: Db, code: Code) {
    exists d :: d in db.devices && db.devices[d].deviceCode == code
  }

  // ---------------------------------------------------------------- guarded updates

  /** Bind the reviewing account, or confirm the binding it already has. */
  function ReviewUpdate(db: Db, d: Id, user: string, now: Time): Option<Db>
    requires d in db.devices
  {
    var row := db.devices[d];
    if row.status == Pending && (row.reviewer == None || row.reviewer == Some(user)) && row.expiresAt > now
    then Some(db.(devices := db.devices[d := row.(reviewer := Some(user))]))
    else None
  }

  /** Decide once; approval also creates the grant the device points to. */
  function DecideUpdate(db: Db, d: Id, user: string, approve: bool, now: Time, g: Id, ttl: int): Option<Db>
    requires d in db.devices
  {
    var row := db.devices[d];
    if row.status == Pending && row.reviewer == Some(user) && row.expiresAt > now then
      if approve then
        Some(Db(db.devices[d := row.(status := Approved, grant := Some(g))],
                db.grants[g := Grant(user, row.clientId, row.scopes, row.rooms, None, now, now + ttl * SECOND, None)]))
      else Some(db.(devices := db.devices[d := row.(status := Denied)]))
    else None
  }

  predicate TooEarly(row: Device, now: Time) {
    row.nextPollAt > now
  }

  /** The claim every poll must win: version and status as read, one more poll accounted for. */
  function ClaimUpdate(db: Db, d: Id, row: Device, now: Time): Option<Device>
    requires d in db.devices
  {
    var current := db.devices[d];
    var interval := if TooEarly(row, now) then row.interval + PENALTY else row.interval;
    if current.pollVersion == row.pollVersion && current.status == row.status
    then Some(current.(pollVersion := row.pollVersion + 1, interval := interval, nextPollAt := now + interval * SECOND))
    else None
  }

  predicate Usable(db: Db, g: Option<Id>, now: Time) {
    g.Some? && g.value in db.grants && db.grants[g.value].revokedAt == None && db.grants[g.value].expiresAt > now
  }

  /** Redeem the device and store the token, or leave the database alone. */
  function RedeemUpdate(db: Db, d: Id, claimed: Device, token: Token, now: Time): Result<Db, AuthError>
    requires d in db.devices
  {
    if claimed.status != Approved then Err(InvalidGrant)
    else if !Usable(db, claimed.grant, now) || db.grants[claimed.grant.value].token != None then Err(ExpiredToken)
    else
      var g := claimed.grant.value;
      Ok(Db(db.devices[d := claimed.(status := Redeemed)], db.grants[g := db.grants[g].(token := Some(token))]))
  }

  function RevokeUpdate(db: Db, g: Id, user: string, now: Time): Option<Db> {
    if g !in db.grants || db.grants[g].user != user then None
    else if db.grants[g].revokedAt.Some? then Some(db)
    else Some(db.(grants := db.grants[g := db.grants[g].(revokedAt := Some(now))]))
  }

  // ---------------------------------------------------------------- resolving a token

  datatype Principal = Principal(user: string, grant: Id, scopes: set<string>, rooms: set<string>)

  predicate Holds(db: Db, g: Id, token: Token) {
    g in db.grants && db.grants[g].token == Some(token)
  }

  predicate Resolves(db: Db, token: Token, now: Time, p: Principal) {
    && Holds(db, p.grant, token)
    && db.grants[p.grant].revokedAt == None
    && db.grants[p.grant].expiresAt > now
    && p == Principal(db.grants[p.grant].user, p.grant, db.grants[p.grant].scopes, db.grants[p.grant].rooms)
  }
}
