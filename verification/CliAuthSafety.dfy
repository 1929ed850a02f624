/** What every run of the authorization server guarantees, and how exactly polls are accounted for. */
module CliAuthSafety {
  import opened Arithmetic
  import opened Wrappers
  import opened CliAuthRows
  import opened CliAuthRuns

  lemma InitOk()
    ensures Inv(Init)
  {
  }

  lemma Reachable(events: seq<Event>)
    ensures Inv(Run(Init, events))
  {
    InitOk();
    RunKeeps(Init, events);
  }

  // ---------------------------------------------------------------- single redemption

  /** No device and no grant ever receives two tokens, and no token is issued twice. */
  lemma AtMostOneToken(events: seq<Event>, i: nat, j: nat)
    requires i < j < |Run(Init, events).issued|
    ensures var issued := Run(Init, events).issued;
            && issued[i].device != issued[j].device
            && issued[i].grant != issued[j].grant
            && issued[i].token != issued[j].token
  {
    Reachable(events);
    var s := Run(Init, events);
    var a, b := s.issued[i], s.issued[j];
    assert s.db.devices[s.owner[a.grant]].grant == Some(a.grant);
    assert s.db.devices[s.owner[b.grant]].grant == Some(b.grant);
  }

  lemma DeviceFacts(s: Sys, d: Id)
    requires Inv(s) && d in s.db.devices
    ensures d in s.history && RowOk(s.db.devices[d], s.history[d])
    ensures var row := s.db.devices[d];
            row.grant.Some? ==>
              && row.grant.value in s.db.grants && row.grant.value in s.owner && s.owner[row.grant.value] == d
              && GrantOk(row, s.db.grants[row.grant.value])
  {
    hide IssuedOk, CodesOk, TxnsOk, RowOk, GrantOk;
  }

  lemma TokenFacts(s: Sys, g: Id)
    requires Inv(s) && g in s.db.grants
    ensures g in s.owner && s.owner[g] in s.db.devices && s.db.devices[s.owner[g]].grant == Some(g)
    ensures s.db.grants[g].token.Some? ==> Issue(s.owner[g], g, s.db.grants[g].token.value) in s.issued
    ensures forall e :: e in s.issued && s.owner[g] == e.device ==>
              e.grant == g && s.db.grants[g].token == Some(e.token)
  {
    hide DevicesOk, CodesOk, TxnsOk, GrantOk;
    forall e | e in s.issued && s.owner[g] == e.device
      ensures e.grant == g && s.db.grants[g].token == Some(e.token)
    {
      var i :| 0 <= i < |s.issued| && s.issued[i] == e;
      assert s.db.devices[s.owner[e.grant]].grant == Some(e.grant);
    }
  }

  /**
   In every committed state a device is redeemed exactly when its grant
   holds a token, and that token was issued to it.
  */
  lemma RedeemedIffToken(events: seq<Event>, d: Id)
    requires d in Run(Init, events).db.devices
    ensures var s := Run(Init, events);
            var row := s.db.devices[d];
            && (row.grant.Some? ==> row.grant.value in s.db.grants)
            && (row.status == Redeemed <==> row.grant.Some? && s.db.grants[row.grant.value].token.Some?)
            && (row.status == Redeemed <==> exists e :: e in s.issued && e.device == d)
  {
    Reachable(events);
    var s := Run(Init, events);
    DeviceFacts(s, d);
    IssuedFacts(s);
    hide Inv, Run;
    var row := s.db.devices[d];
    if row.grant.Some? {
      TokenFacts(s, row.grant.value);
    }
    if e :| e in s.issued && e.device == d {
      TokenFacts(s, e.grant);
    }
  }

  lemma IssuedFacts(s: Sys)
    requires Inv(s)
    ensures forall e :: e in s.issued ==>
              e.grant in s.db.grants && e.grant in s.owner && s.owner[e.grant] == e.device
              && s.db.grants[e.grant].token == Some(e.token)
  {
    hide DevicesOk, GrantsOk, CodesOk, TxnsOk;
  }

  // ---------------------------------------------------------------- status and reviewer

  /** The order status may move in. */
  predicate Precedes(a: Status, b: Status) {
    a == b || a == Pending || (a == Approved && b == Redeemed)
  }

  /** What one device may look like before and after any part of a run. */
  ghost predicate RowMoves(was: Device, row: Device) {
    && Precedes(was.status, row.status)
    && (was.status != Redeemed && row.status == Redeemed ==> was.pollVersion < row.pollVersion)
    && (was.reviewer.Some? ==> row.reviewer == was.reviewer)
    && (was.grant.Some? ==> row.grant == was.grant)
    && row.deviceCode == was.deviceCode && row.userCode == was.userCode && row.clientId == was.clientId
    && row.scopes == was.scopes && row.rooms == was.rooms && row.expiresAt == was.expiresAt
    && was.pollVersion <= row.pollVersion && was.interval <= row.interval
  }

  /** What one event may do to a device: every change of status or reviewer is the commit of the matching request. */
  ghost predicate OneStep(was: Device, row: Device, ev: Event) {
    && RowMoves(was, row)
    && (was.status == Pending ==> row.status != Redeemed)
    && (was.status != row.status && row.status != Redeemed ==>
          ev.DecideCommit? && was.reviewer.Some? && row.reviewer == was.reviewer)
    && (was.status != row.status && row.status == Redeemed ==> ev.ExchangeFinish?)
    && (was.reviewer != row.reviewer ==> ev.ReviewCommit?)
  }

  /** One event moves a device only along pending -> approved -> redeemed or pending -> denied. */
  lemma StepMoves(s: Sys, ev: Event, d: Id)
    requires Inv(s) && d in s.db.devices
    ensures d in Next(s, ev).db.devices
    ensures OneStep(s.db.devices[d], Next(s, ev).db.devices[d], ev)
  {
    hide Inv, OneStep, DoReviewCommit, DoDecideCommit, DoExchangeClaim, DoExchangeFinish;
    Unmoved(s.db.devices[d], ev);
    match ev
    case ReviewCommit(_, _) => ReviewMoves(s, ev, d);
    case DecideCommit(_, _, _) => DecideMoves(s, ev, d);
    case ExchangeClaim(_, _) => ClaimMoves(s, ev, d);
    case ExchangeFinish(_, _, _) => FinishMoves(s, ev, d);
    case _ => ElsewhereMoves(s, ev, d);
  }

  lemma Unmoved(row: Device, ev: Event)
    ensures OneStep(row, row, ev)
  {
  }

  /** The other events do not touch an existing device. */
  lemma ElsewhereMoves(s: Sys, ev: Event, d: Id)
    requires d in s.db.devices && !ev.ReviewCommit? && !ev.DecideCommit? && !ev.ExchangeClaim? && !ev.ExchangeFinish?
    ensures d in Next(s, ev).db.devices && Next(s, ev).db.devices[d] == s.db.devices[d]
  {
    hide CreationError, HasDeviceCode, HasUserCode;
  }

  lemma ReviewMoves(s: Sys, ev: Event, d: Id)
    requires d in s.db.devices && ev.ReviewCommit?
    ensures d in DoReviewCommit(s, ev).db.devices
    ensures OneStep(s.db.devices[d], DoReviewCommit(s, ev).db.devices[d], ev)
  {
    hide Locked;
  }

  lemma DecideMoves(s: Sys, ev: Event, d: Id)
    requires Inv(s) && d in s.db.devices && ev.DecideCommit?
    ensures d in DoDecideCommit(s, ev).db.devices
    ensures OneStep(s.db.devices[d], DoDecideCommit(s, ev).db.devices[d], ev)
  {
    hide Inv, OneStep, DoDecideCommit, DecideUpdate;
    UndecidedHasNoGrant(s, d);
    Unmoved(s.db.devices[d], ev);
    if DoDecideCommit(s, ev) != s {
      DecidedDevices(s, ev);
      var txn := s.txns[ev.t];
      if txn.device == d {
        DecidedMoves(s.db, d, txn.user, txn.approve, txn.now, ev);
      }
    }
  }

  /** A decision stores the decided row or nothing. */
  lemma DecidedDevices(s: Sys, ev: Event)
    requires ev.DecideCommit? && DoDecideCommit(s, ev) != s
    ensures ev.t in s.txns && s.txns[ev.t].Deciding? && s.txns[ev.t].device in s.db.devices
    ensures var txn, devices := s.txns[ev.t], DoDecideCommit(s, ev).db.devices;
            var update := DecideUpdate(s.db, txn.device, txn.user, txn.approve, txn.now, ev.g, ev.ttl);
            devices == s.db.devices || (update.Some? && devices == update.value.devices)
    ensures forall e :: e in s.db.devices && e != s.txns[ev.t].device ==>
              e in DoDecideCommit(s, ev).db.devices && DoDecideCommit(s, ev).db.devices[e] == s.db.devices[e]
  {
    hide Locked;
  }

  lemma DecidedMoves(db: Db, d: Id, user: string, approve: bool, now: Time, ev: Event)
    requires d in db.devices && ev.DecideCommit? && (db.devices[d].grant.Some? ==> Granted(db.devices[d].status))
    ensures var update := DecideUpdate(db, d, user, approve, now, ev.g, ev.ttl);
            update.Some? ==> d in update.value.devices && OneStep(db.devices[d], update.value.devices[d], ev)
  {
  }

  lemma ClaimMoves(s: Sys, ev: Event, d: Id)
    requires Inv(s) && d in s.db.devices && ev.ExchangeClaim?
    ensures d in DoExchangeClaim(s, ev).db.devices
    ensures OneStep(s.db.devices[d], DoExchangeClaim(s, ev).db.devices[d], ev)
  {
    hide Inv, OneStep, Locked, Earlier;
    Unmoved(s.db.devices[d], ev);
    if DoExchangeClaim(s, ev) != s {
      SnapshotEarlier(s, ev.t);
      ClaimedMoves(s.db, s.txns[ev.t].device, s.txns[ev.t].row, s.txns[ev.t].now, ev);
      ClaimedDevices(s, ev);
    }
  }

  lemma ClaimedMoves(db: Db, d: Id, row: Device, now: Time, ev: Event)
    requires d in db.devices && Earlier(row, db.devices[d])
    ensures ClaimUpdate(db, d, row, now).Some? ==> OneStep(db.devices[d], ClaimUpdate(db, d, row, now).value, ev)
  {
  }

  /** A claim stores the claimed row or nothing. */
  lemma ClaimedDevices(s: Sys, ev: Event)
    requires ev.ExchangeClaim? && DoExchangeClaim(s, ev) != s
    ensures ev.t in s.txns && s.txns[ev.t].Polling? && s.txns[ev.t].device in s.db.devices
    ensures var txn, devices := s.txns[ev.t], DoExchangeClaim(s, ev).db.devices;
            var claim := ClaimUpdate(s.db, txn.device, txn.row, txn.now);
            devices == s.db.devices || (claim.Some? && devices == s.db.devices[txn.device := claim.value])
  {
    hide ClaimUpdate, Locked, Usable, TooEarly;
  }

  lemma FinishMoves(s: Sys, ev: Event, d: Id)
    requires Inv(s) && d in s.db.devices && ev.ExchangeFinish?
    ensures d in DoExchangeFinish(s, ev).db.devices
    ensures OneStep(s.db.devices[d], DoExchangeFinish(s, ev).db.devices[d], ev)
  {
    hide Inv, RowOk, GrantOk;
    if DoExchangeFinish(s, ev) != s {
      RedeemingFacts(s, ev.t);
      RedeemedIsLater(s, ev.t);
    }
  }

  /** The row a redemption stores: the present row, one poll later, with nothing but its pace moved. */
  lemma RedeemedIsLater(s: Sys, t: Id)
    requires Inv(s) && t in s.txns && s.txns[t].Redeeming?
    ensures var txn := s.txns[t];
            && txn.device in s.db.devices && s.db.devices[txn.device].status == Approved
            && s.db.devices[txn.device].pollVersion == txn.row.pollVersion
            && s.db.devices[txn.device].interval == txn.row.interval && !TooEarly(txn.row, txn.now)
  {
    assert TxnOk(s.db.devices, s.txns[t]);
  }

  lemma SnapshotEarlier(s: Sys, t: Id)
    requires Inv(s) && t in s.txns && (s.txns[t].Polling? || s.txns[t].Redeeming?)
    ensures s.txns[t].device in s.db.devices && Earlier(s.txns[t].row, s.db.devices[s.txns[t].device])
  {
    assert TxnOk(s.db.devices, s.txns[t]);
  }

  lemma UndecidedHasNoGrant(s: Sys, d: Id)
    requires Inv(s) && d in s.db.devices
    ensures s.db.devices[d].grant.Some? <==> Granted(s.db.devices[d].status)
  {
    assert RowOk(s.db.devices[d], s.history[d]);
  }

  /** Over any stretch of a run: status never moves back, and the reviewer, once bound, never changes. */
  lemma {:induction false} RunMoves(s: Sys, events: seq<Event>, d: Id)
    requires Inv(s) && d in s.db.devices
    ensures d in Run(s, events).db.devices && RowMoves(s.db.devices[d], Run(s, events).db.devices[d])
  {
    if events != [] {
      var before := events[..|events| - 1];
      RunMoves(s, before, d);
      RunKeeps(s, before);
      hide Inv, Next;
      StepMoves(Run(s, before), events[|events| - 1], d);
      hide Precedes;
      MovesCompose(s.db.devices[d], Run(s, before).db.devices[d], Run(s, events).db.devices[d]);
    }
  }

  lemma MovesCompose(a: Device, b: Device, c: Device)
    requires RowMoves(a, b) && RowMoves(b, c)
    ensures RowMoves(a, c)
  {
  }

  // ---------------------------------------------------------------- resolving

  /**
   Whoever a token resolves to is the one account that reviewed and approved the device, with exactly
   the scopes and rooms the device was created with, through a grant neither revoked nor expired.
  */
  lemma ResolveIsSound(events: seq<Event>, token: CliAuthRows.Token, now: Time, p: Principal)
    requires Resolves(Run(Init, events).db, token, now, p)
    ensures var s := Run(Init, events);
            && p.grant in s.owner && s.owner[p.grant] in s.history
            && var d := s.owner[p.grant];
            && Issue(d, p.grant, token) in s.issued
            && s.history[d].approver == Some(p.user)
            && s.history[d].reviews != []
            && (forall i :: 0 <= i < |s.history[d].reviews| ==> s.history[d].reviews[i] == p.user)
            && p.scopes == s.history[d].scopes && p.rooms == s.history[d].rooms
            && d in s.db.devices && s.db.devices[d].status == Redeemed
            && s.db.grants[p.grant].revokedAt == None && s.db.grants[p.grant].expiresAt > now
  {
    Reachable(events);
    var s := Run(Init, events);
    var d := s.owner[p.grant];
    assert GrantOk(s.db.devices[d], s.db.grants[p.grant]);
    assert RowOk(s.db.devices[d], s.history[d]);
    assert Issue(d, p.grant, token) in s.issued;
  }

  /** A plain room name, and never something that could be an access token in any case of its letters. */
  predicate PlainRoom(room: string) {
    && 1 <= |room| <= 64
    && (forall i :: 0 <= i < |room| ==>
          'a' <= room[i] <= 'z' || 'A' <= room[i] <= 'Z' || '0' <= room[i] <= '9' || room[i] in {'_', '-'})
    && (|room| >= 6 ==>
          !(room[0] in {'c', 'C'} && room[1] in {'r', 'R'} && room[2] in {'c', 'C'} && room[3] in {'l', 'L'}
            && room[4] in {'i', 'I'} && room[5] == '_'))
  }

  /** Some known scopes, and between 1 and 32 rooms with plain names. */
  ghost predicate Modest(scopes: set<string>, rooms: set<string>) {
    && scopes != {} && scopes <= {"identity:read", "rooms:read", "messages:read"}
    && 1 <= |rooms| <= 32 && forall room :: room in rooms ==> PlainRoom(room)
  }

  lemma CredentialRefused(room: string)
    requires |room| >= 6 && room[0] in {'c', 'C'} && room[1] in {'r', 'R'} && room[2] in {'c', 'C'}
    requires room[3] in {'l', 'L'} && room[4] in {'i', 'I'} && room[5] == '_'
    ensures !ValidRoom(room)
  {
    assert TOKEN_PREFIX == ['c', 'r', 'c', 'l', 'i', '_'];
    assert forall i :: 0 <= i < 6 ==> Lower(room[i]) == TOKEN_PREFIX[i];
  }

  lemma ValidIsPlain(room: string)
    requires ValidRoom(room)
    ensures PlainRoom(room)
  {
    hide RestrictedCredential;
    if |room| >= 6 && room[0] in {'c', 'C'} && room[1] in {'r', 'R'} && room[2] in {'c', 'C'} && room[3] in {'l', 'L'}
       && room[4] in {'i', 'I'} && room[5] == '_' {
      CredentialRefused(room);
    }
  }

  lemma {:induction false} FewElements<T>(s: seq<T>)
    ensures |Elements(s)| <= |s| && (s != [] ==> Elements(s) != {} && |Elements(s)| >= 1)
  {
    if s != [] {
      var before, last := s[..|s| - 1], s[|s| - 1];
      FewElements(before);
      assert Elements(s) == Elements(before) + {last};
      assert last in Elements(s);
    }
  }

  lemma CreatedIsModest(clientId: string, scopes: seq<string>, rooms: seq<string>)
    requires CreationError(clientId, scopes, rooms) == None
    ensures Modest(Elements(scopes), Elements(rooms))
  {
    hide ValidRoom, PlainRoom;
    FewElements(rooms);
    FewElements(scopes);
    forall room | room in Elements(rooms) ensures PlainRoom(room) {
      ValidIsPlain(room);
    }
  }

  lemma {:induction false} DevicesAreModest(events: seq<Event>, d: Id)
    requires d in Run(Init, events).db.devices
    ensures var row := Run(Init, events).db.devices[d]; Modest(row.scopes, row.rooms)
  {
    hide Next, Modest;
    if events != [] {
      var before, ev := events[..|events| - 1], events[|events| - 1];
      Reachable(before);
      if d in Run(Init, before).db.devices {
        DevicesAreModest(before, d);
        StepMoves(Run(Init, before), ev, d);
      } else {
        NewIsModest(Run(Init, before), ev, d);
      }
    }
  }

  lemma NewIsModest(s: Sys, ev: Event, d: Id)
    requires d !in s.db.devices && d in Next(s, ev).db.devices
    ensures var row := Next(s, ev).db.devices[d]; Modest(row.scopes, row.rooms)
  {
    OnlyCreationAdds(s, ev, d);
    hide Next, Modest, HasDeviceCode, HasUserCode, CreationError;
    CreatedIsModest(ev.clientId, ev.scopes, ev.rooms);
  }

  lemma OnlyCreationAdds(s: Sys, ev: Event, d: Id)
    requires d !in s.db.devices && d in Next(s, ev).db.devices
    ensures ev.Create? && CreationError(ev.clientId, ev.scopes, ev.rooms) == None
    ensures Next(s, ev).db.devices[d].scopes == Elements(ev.scopes)
              && Next(s, ev).db.devices[d].rooms == Elements(ev.rooms)
  {
    hide HasDeviceCode, HasUserCode, CreationError, Elements;
    if ev.ReviewCommit? || ev.DecideCommit? || ev.ExchangeClaim? || ev.ExchangeFinish? {
      CommitsAddNothing(s, ev, d);
    } else {
      hide DoReviewCommit, DoDecideCommit, DoExchangeClaim, DoExchangeFinish;
    }
  }

  lemma CommitsAddNothing(s: Sys, ev: Event, d: Id)
    requires ev.ReviewCommit? || ev.DecideCommit? || ev.ExchangeClaim? || ev.ExchangeFinish?
    ensures d in Next(s, ev).db.devices ==> d in s.db.devices
  {
    hide Usable, TooEarly, Holds, Locked, Recorded;
  }

  /** Whatever was asked for in a run, a token opens some of the three scopes and at most 32 plainly named rooms. */
  lemma TokensAreModest(events: seq<Event>, token: CliAuthRows.Token, now: Time, p: Principal)
    requires Resolves(Run(Init, events).db, token, now, p)
    ensures Modest(p.scopes, p.rooms)
  {
    hide Modest, Resolves;
    Reachable(events);
    ResolveIsSound(events, token, now, p);
    var s := Run(Init, events);
    DevicesAreModest(events, s.owner[p.grant]);
    assert RowOk(s.db.devices[s.owner[p.grant]], s.history[s.owner[p.grant]]);
  }

  /** A token names at most one principal. */
  lemma ResolveIsUnique(events: seq<Event>, token: CliAuthRows.Token, now: Time, p: Principal, q: Principal)
    requires Resolves(Run(Init, events).db, token, now, p) && Resolves(Run(Init, events).db, token, now, q)
    ensures p == q
  {
    Reachable(events);
  }

  /** Revoking a grant ends its token at once and for the rest of the run. */
  lemma {:induction false} RevokedStaysRevoked(s: Sys, events: seq<Event>, g: Id)
    requires Inv(s) && g in s.db.grants && s.db.grants[g].revokedAt.Some?
    ensures g in Run(s, events).db.grants && Run(s, events).db.grants[g].revokedAt.Some?
  {
    if events != [] {
      var before := events[..|events| - 1];
      RevokedStaysRevoked(s, before, g);
      RunKeeps(s, before);
      GrantStep(Run(s, before), events[|events| - 1], g);
    }
  }

  /** What one event may do to a grant. */
  ghost predicate GrantMoves(was: Grant, grant: Grant) {
    && (was.revokedAt.Some? ==> grant.revokedAt.Some?)
    && (was.token.Some? ==> grant.token == was.token)
    && grant.expiresAt == was.expiresAt && grant.user == was.user
    && grant.scopes == was.scopes && grant.rooms == was.rooms
  }

  lemma GrantStep(s: Sys, ev: Event, g: Id)
    requires Inv(s) && g in s.db.grants
    ensures g in Next(s, ev).db.grants && GrantMoves(s.db.grants[g], Next(s, ev).db.grants[g])
    ensures s.db.grants[g].revokedAt != Next(s, ev).db.grants[g].revokedAt ==>
              ev.RevokeCommit? && ev.t in s.txns && s.txns[ev.t] == Revoking(g)
  {
    hide Inv, DoExchangeFinish, DoRevokeCommit, DoDecideCommit;
    match ev
    case ExchangeFinish(_, _, _) => FinishGrant(s, ev, g);
    case RevokeCommit(_, _) => RevokeGrants(s, ev, g);
    case DecideCommit(_, _, _) => DecideGrant(s, ev, g);
    case _ => GrantElsewhere(s, ev);
  }

  lemma GrantElsewhere(s: Sys, ev: Event)
    requires !ev.ExchangeFinish? && !ev.RevokeCommit? && !ev.DecideCommit?
    ensures Next(s, ev).db.grants == s.db.grants
  {
    hide DoExchangeClaim, CreationError, HasDeviceCode, HasUserCode, Locked, NewRequest;
    if ev.ExchangeClaim? {
      ClaimGrantless(s, ev);
    }
  }

  lemma ClaimGrantless(s: Sys, ev: Event)
    requires ev.ExchangeClaim?
    ensures DoExchangeClaim(s, ev).db.grants == s.db.grants
  {
    hide Locked, ClaimUpdate, Usable, TooEarly, Recorded;
  }

  lemma DecideGrant(s: Sys, ev: Event, g: Id)
    requires g in s.db.grants && ev.DecideCommit?
    ensures g in DoDecideCommit(s, ev).db.grants && DoDecideCommit(s, ev).db.grants[g] == s.db.grants[g]
  {
    hide Locked;
  }

  lemma RevokeGrants(s: Sys, ev: Event, g: Id)
    requires g in s.db.grants && ev.RevokeCommit?
    ensures g in DoRevokeCommit(s, ev).db.grants && GrantMoves(s.db.grants[g], DoRevokeCommit(s, ev).db.grants[g])
    ensures s.db.grants[g] != DoRevokeCommit(s, ev).db.grants[g] ==> ev.t in s.txns && s.txns[ev.t] == Revoking(g)
  {
  }

  lemma FinishGrant(s: Sys, ev: Event, g: Id)
    requires Inv(s) && g in s.db.grants && ev.ExchangeFinish?
    ensures g in DoExchangeFinish(s, ev).db.grants && GrantMoves(s.db.grants[g], DoExchangeFinish(s, ev).db.grants[g])
    ensures DoExchangeFinish(s, ev).db.grants[g].revokedAt == s.db.grants[g].revokedAt
  {
    hide Inv, RowOk, GrantOk, ClaimUpdate;
    if DoExchangeFinish(s, ev) != s {
      RedeemingFacts(s, ev.t);
    }
  }

  // ---------------------------------------------------------------- what an answer is worth

  /** In every state a device is redeemed exactly when a token was issued for it. */
  lemma RedeemedMeans(s: Sys, d: Id)
    requires Inv(s) && d in s.db.devices
    ensures s.db.devices[d].status == Redeemed <==> exists e :: e in s.issued && e.device == d
    ensures s.db.devices[d].grant.Some? <==> Granted(s.db.devices[d].status)
    ensures forall e :: e in s.issued && e.device == d ==> s.db.devices[d].grant == Some(e.grant)
  {
    DeviceFacts(s, d);
    IssuedFacts(s);
    hide Inv, RowOk, GrantOk;
    var row := s.db.devices[d];
    UndecidedHasNoGrant(s, d);
    forall e | e in s.issued && e.device == d
      ensures row.grant == Some(e.grant) && row.status == Redeemed
    {
      TokenFacts(s, e.grant);
      DeviceFacts(s, d);
      GrantOfToken(s, d, e);
    }
    if row.status == Redeemed {
      TokenFacts(s, row.grant.value);
      GrantOfRedeemed(s, d);
    }
  }

  lemma GrantOfToken(s: Sys, d: Id, e: Issue)
    requires d in s.db.devices && s.db.devices[d].grant == Some(e.grant) && e.grant in s.db.grants
    requires GrantOk(s.db.devices[d], s.db.grants[e.grant]) && s.db.grants[e.grant].token == Some(e.token)
    ensures s.db.devices[d].status == Redeemed
  {
  }

  lemma GrantOfRedeemed(s: Sys, d: Id)
    requires d in s.db.devices && s.db.devices[d].grant.Some? && s.db.devices[d].grant.value in s.db.grants
    requires GrantOk(s.db.devices[d], s.db.grants[s.db.devices[d].grant.value]) && s.db.devices[d].status == Redeemed
    ensures s.db.grants[s.db.devices[d].grant.value].token.Some?
  {
  }

  /** A decision that was answered with success is in the row: nobody had decided before, and this account was bound. */
  lemma DecisionIsStored(s: Sys, t: Id, g: Id, ttl: int)
    requires t in s.txns && s.txns[t].Deciding?
    requires var s' := Next(s, DecideCommit(t, g, ttl)); t !in s'.txns && t in s'.answers && s'.answers[t] == Fine
    ensures var s', txn := Next(s, DecideCommit(t, g, ttl)), s.txns[t];
            && txn.device in s.db.devices && txn.device in s'.db.devices
            && var was, row := s.db.devices[txn.device], s'.db.devices[txn.device];
            && was.status == Pending && was.reviewer == Some(txn.user) && was.expiresAt > txn.now
            && row.status == (if txn.approve then Approved else Denied)
            && row.reviewer == was.reviewer && row.scopes == was.scopes && row.rooms == was.rooms
            && (!txn.approve ==> row.grant == was.grant && s'.db.grants == s.db.grants)
            && (txn.approve ==>
                  && row.grant == Some(g) && g !in s.db.grants && g in s'.db.grants
                  && s'.db.grants[g] == Grant(txn.user, was.clientId, was.scopes, was.rooms, None,
                                              txn.now, txn.now + ttl * 1_000_000, None))
  {
    hide Locked;
  }

  /**
   Denied is denied: once a denying request was answered with success its device is denied in every continuation, no
   token is ever issued for it, and every later token request in its lifetime is refused.
  */
  lemma DenialStands(s: Sys, t: Id, g: Id, ttl: int, events: seq<Event>)
    requires Inv(s) && t in s.txns && s.txns[t].Deciding? && !s.txns[t].approve
    requires var s' := Next(s, DecideCommit(t, g, ttl)); t !in s'.txns && t in s'.answers && s'.answers[t] == Fine
    ensures var d, after := s.txns[t].device, Run(Next(s, DecideCommit(t, g, ttl)), events);
            && d in after.db.devices && after.db.devices[d].status == Denied && after.db.devices[d].grant == None
            && (forall e :: e in after.issued ==> e.device != d)
            && (forall u, now :: NewRequest(after, u) && after.db.devices[d].expiresAt > now ==>
                  var polled := Next(after, ExchangeRead(u, d, now));
                  u in polled.answers && polled.answers[u] == Failed(AccessDenied) && polled.db == after.db)
  {
    var d, s' := s.txns[t].device, Next(s, DecideCommit(t, g, ttl));
    DecisionIsStored(s, t, g, ttl);
    NextKeeps(s, DecideCommit(t, g, ttl));
    hide Inv, Run, Next, NewRequest;
    DeniedForGood(s', events, d);
  }

  lemma DeniedForGood(s: Sys, events: seq<Event>, d: Id)
    requires Inv(s) && d in s.db.devices && s.db.devices[d].status == Denied
    ensures var after := Run(s, events);
            && d in after.db.devices && after.db.devices[d].status == Denied && after.db.devices[d].grant == None
            && (forall e :: e in after.issued ==> e.device != d)
            && (forall u, now :: NewRequest(after, u) && after.db.devices[d].expiresAt > now ==>
                  var polled := Next(after, ExchangeRead(u, d, now));
                  u in polled.answers && polled.answers[u] == Failed(AccessDenied) && polled.db == after.db)
  {
    hide Inv, Run, Next, NewRequest;
    RunKeeps(s, events);
    RunMoves(s, events, d);
    RedeemedMeans(Run(s, events), d);
    DeniedPoll(Run(s, events), d);
  }

  /** A token request for a denied device is refused at its read and changes nothing. */
  lemma DeniedPoll(s: Sys, d: Id)
    requires d in s.db.devices && s.db.devices[d].status == Denied
    ensures forall u, now :: NewRequest(s, u) && s.db.devices[d].expiresAt > now ==>
              var polled := Next(s, ExchangeRead(u, d, now));
              u in polled.answers && polled.answers[u] == Failed(AccessDenied) && polled.db == s.db
  {
  }

  /**
   An approval answered with success made the grant: in every continuation the device keeps that grant, of that
   account, with the scopes and rooms of the device, and any token issued for the device is a token of that grant.
  */
  lemma ApprovalStands(s: Sys, t: Id, g: Id, ttl: int, events: seq<Event>)
    requires Inv(s) && t in s.txns && s.txns[t].Deciding? && s.txns[t].approve
    requires var s' := Next(s, DecideCommit(t, g, ttl)); t !in s'.txns && t in s'.answers && s'.answers[t] == Fine
    ensures var txn, after := s.txns[t], Run(Next(s, DecideCommit(t, g, ttl)), events);
            && txn.device in s.db.devices && txn.device in after.db.devices && g in after.db.grants
            && var was, row, grant := s.db.devices[txn.device], after.db.devices[txn.device], after.db.grants[g];
            && Granted(row.status) && row.grant == Some(g) && row.reviewer == Some(txn.user)
            && grant.user == txn.user && grant.scopes == was.scopes && grant.rooms == was.rooms
            && grant.expiresAt == txn.now + ttl * 1_000_000
            && (forall e :: e in after.issued && e.device == txn.device ==> e.grant == g)
  {
    var d, s' := s.txns[t].device, Next(s, DecideCommit(t, g, ttl));
    DecisionIsStored(s, t, g, ttl);
    NextKeeps(s, DecideCommit(t, g, ttl));
    hide Inv, Run, Next;
    RunKeeps(s', events);
    RunMoves(s', events, d);
    RunGrants(s', events, g);
    RedeemedMeans(Run(s', events), d);
  }

  /** Over any stretch of a run a grant keeps its account, its rights, its expiry and, once it has one, its token. */
  lemma {:induction false} RunGrants(s: Sys, events: seq<Event>, g: Id)
    requires Inv(s) && g in s.db.grants
    ensures g in Run(s, events).db.grants && GrantMoves(s.db.grants[g], Run(s, events).db.grants[g])
  {
    hide Inv, Next;
    if events != [] {
      var before := events[..|events| - 1];
      RunGrants(s, before, g);
      RunKeeps(s, before);
      GrantStep(Run(s, before), events[|events| - 1], g);
    }
  }

  /** A review that was answered with success bound the device to its account for good. */
  lemma ReviewStands(s: Sys, t: Id, now: Time, events: seq<Event>)
    requires Inv(s) && t in s.txns && s.txns[t].Reviewing?
    requires var s' := Next(s, ReviewCommit(t, now)); t !in s'.txns && t in s'.answers && s'.answers[t] == Fine
    ensures var d, after := s.txns[t].device, Run(Next(s, ReviewCommit(t, now)), events);
            d in after.db.devices && after.db.devices[d].reviewer == Some(s.txns[t].user)
  {
    var d, s' := s.txns[t].device, Next(s, ReviewCommit(t, now));
    ReviewIsStored(s, t, now);
    NextKeeps(s, ReviewCommit(t, now));
    hide Inv, Run, Next;
    RunMoves(s', events, d);
  }

  lemma ReviewIsStored(s: Sys, t: Id, now: Time)
    requires t in s.txns && s.txns[t].Reviewing?
    requires var s' := Next(s, ReviewCommit(t, now)); t !in s'.txns && t in s'.answers && s'.answers[t] == Fine
    ensures var s', d := Next(s, ReviewCommit(t, now)), s.txns[t].device;
            && d in s.db.devices && d in s'.db.devices && s'.db.devices[d].reviewer == Some(s.txns[t].user)
            && s.db.devices[d].status == Pending && s.db.devices[d].reviewer in {None, Some(s.txns[t].user)}
            && s.db.devices[d].expiresAt > now
  {
    hide Locked;
  }

  /**
   A token that was handed out works: in every continuation it resolves to the account, scopes and rooms of its grant
   exactly as long as that grant is neither revoked nor expired.
  */
  lemma TokenWorks(s: Sys, t: Id, token: CliAuthRows.Token, now: Time, events: seq<Event>, later: Time)
    requires Inv(s) && t in s.txns && s.txns[t].Redeeming?
    requires var s' := Next(s, ExchangeFinish(t, token, now));
             t in s'.answers && s'.answers[t] == Token(token) && t !in s'.txns
    ensures var d, after := s.txns[t].device, Run(Next(s, ExchangeFinish(t, token, now)), events);
            && d in s.db.devices && s.db.devices[d].grant.Some? && s.db.devices[d].grant.value in after.db.grants
            && var g := s.db.devices[d].grant.value;
            && Issue(d, g, token) in after.issued
            && var grant := after.db.grants[g];
            && ((exists p :: Resolves(after.db, token, later, p)) <==>
                  grant.revokedAt == None && grant.expiresAt > later)
            && (grant.revokedAt == None && grant.expiresAt > later ==>
                  Resolves(after.db, token, later, Principal(grant.user, g, grant.scopes, grant.rooms)))
  {
    var d, s' := s.txns[t].device, Next(s, ExchangeFinish(t, token, now));
    TokenIsStored(s, t, token, now);
    NextKeeps(s, ExchangeFinish(t, token, now));
    var g := s.db.devices[d].grant.value;
    hide Next, Run, Inv, Resolves;
    RunKeeps(s', events);
    RunGrants(s', events, g);
    RunMoves(s', events, d);
    var after := Run(s', events);
    TokenFacts(after, g);
    GrantOfOneDevice(after, d, g);
    HolderResolves(after, g, token, later);
  }

  lemma GrantOfOneDevice(s: Sys, d: Id, g: Id)
    requires Inv(s) && d in s.db.devices && s.db.devices[d].grant == Some(g) && g in s.db.grants
    ensures g in s.owner && s.owner[g] == d
  {
    hide DevicesOk, IssuedOk, CodesOk, TxnsOk, GrantOk;
  }

  lemma HolderResolves(s: Sys, g: Id, token: CliAuthRows.Token, later: Time)
    requires Inv(s) && g in s.db.grants && s.db.grants[g].token == Some(token)
    ensures var grant := s.db.grants[g];
            && ((exists p :: Resolves(s.db, token, later, p)) <==> grant.revokedAt == None && grant.expiresAt > later)
            && (grant.revokedAt == None && grant.expiresAt > later ==>
                  Resolves(s.db, token, later, Principal(grant.user, g, grant.scopes, grant.rooms)))
  {
    var grant := s.db.grants[g];
    OneHolder(s, g, token);
    hide Inv;
    if p :| Resolves(s.db, token, later, p) {
      assert p.grant == g;
    }
    if grant.revokedAt == None && grant.expiresAt > later {
      GrantResolves(s.db, g, token, later);
    }
  }

  lemma GrantResolves(db: Db, g: Id, token: CliAuthRows.Token, later: Time)
    requires g in db.grants && db.grants[g].token == Some(token)
    requires db.grants[g].revokedAt == None && db.grants[g].expiresAt > later
    ensures Resolves(db, token, later, Principal(db.grants[g].user, g, db.grants[g].scopes, db.grants[g].rooms))
  {
  }

  lemma OneHolder(s: Sys, g: Id, token: CliAuthRows.Token)
    requires Inv(s) && g in s.db.grants && s.db.grants[g].token == Some(token)
    ensures forall h :: Holds(s.db, h, token) ==> h == g
  {
    hide DevicesOk, GrantsOk, CodesOk, TxnsOk;
  }

  lemma TokenIsStored(s: Sys, t: Id, token: CliAuthRows.Token, now: Time)
    requires Inv(s) && t in s.txns && s.txns[t].Redeeming?
    requires var s' := Next(s, ExchangeFinish(t, token, now));
             t in s'.answers && s'.answers[t] == Token(token) && t !in s'.txns
    ensures var d, s' := s.txns[t].device, Next(s, ExchangeFinish(t, token, now));
            && d in s.db.devices && d in s'.db.devices && s.db.devices[d].grant.Some?
            && s'.db.devices[d].grant == s.db.devices[d].grant
            && s.db.devices[d].grant.value in s'.db.grants
            && s'.db.grants[s.db.devices[d].grant.value].token == Some(token)
            && s'.db.devices[d].status == Redeemed
  {
    RedeemingFacts(s, t);
    var txn := s.txns[t];
    var claimed := ClaimUpdate(s.db, txn.device, txn.row, txn.now).value;
    hide Inv, RowOk, GrantOk, Advances, ClaimUpdate, Next;
    FinishStores(s, t, claimed, claimed.grant.value, token, now);
  }

  lemma FinishStores(s: Sys, t: Id, claimed: Device, g: Id, token: CliAuthRows.Token, now: Time)
    requires t in s.txns && s.txns[t].Redeeming?
    requires s.txns[t].device in s.db.devices && s.txns[t].device in s.history && claimed.grant == Some(g)
    requires ClaimUpdate(s.db, s.txns[t].device, s.txns[t].row, s.txns[t].now) == Some(claimed)
    requires var s' := Next(s, ExchangeFinish(t, token, now));
             t in s'.answers && s'.answers[t] == Token(token) && t !in s'.txns
    ensures var s' := Next(s, ExchangeFinish(t, token, now));
            && s'.db.devices == s.db.devices[s.txns[t].device := claimed.(status := Redeemed)]
            && g in s'.db.grants && s'.db.grants[g].token == Some(token)
  {
    hide ClaimUpdate, Holds;
  }

  /**
   Two revocations that both read before either commits both succeed, and the later commit's time is the one stored.
  */
  lemma RevocationOverwritten(s: Sys, t: Id, u: Id, g: Id, user: string, now: Time, later: Time)
    requires t != u && NewRequest(s, t) && NewRequest(s, u)
    requires g in s.db.grants && s.db.grants[g].user == user && s.db.grants[g].revokedAt == None
    ensures var read := Next(Next(s, RevokeRead(t, g, user)), RevokeRead(u, g, user));
            var once := Next(read, RevokeCommit(t, now));
            var twice := Next(once, RevokeCommit(u, later));
            && once.db == s.db.(grants := s.db.grants[g := s.db.grants[g].(revokedAt := Some(now))])
            && twice.db == s.db.(grants := s.db.grants[g := s.db.grants[g].(revokedAt := Some(later))])
            && t in twice.answers && twice.answers[t] == Fine && u in twice.answers && twice.answers[u] == Fine
  {
    var read := Next(Next(s, RevokeRead(t, g, user)), RevokeRead(u, g, user));
    assert read == s.(txns := s.txns[t := Revoking(g)][u := Revoking(g)]);
    var once := Next(read, RevokeCommit(t, now));
    assert u in once.txns && once.txns[u] == Revoking(g);
  }

  /** No revocation of `g` that read the grant before is still to commit. */
  ghost predicate NoneRevoking(txns: map<Id, Txn>, g: Id) {
    forall t :: t in txns ==> txns[t] != Revoking(g)
  }

  /** What a request holds when it begins or goes on is no revocation. */
  ghost predicate NoRevoker(txns: map<Id, Txn>, txns': map<Id, Txn>) {
    forall t :: t in txns' ==> (t in txns && txns'[t] == txns[t]) || !txns'[t].Revoking?
  }

  lemma ReviewReadRevokesNothing(s: Sys, ev: Event)
    requires ev.ReviewRead?
    ensures NoRevoker(s.txns, DoReviewRead(s, ev).txns)
  {
  }

  lemma DecideReadRevokesNothing(s: Sys, ev: Event)
    requires ev.DecideRead?
    ensures NoRevoker(s.txns, DoDecideRead(s, ev).txns)
  {
  }

  lemma ExchangeReadRevokesNothing(s: Sys, ev: Event)
    requires ev.ExchangeRead?
    ensures NoRevoker(s.txns, DoExchangeRead(s, ev).txns)
  {
  }

  lemma OthersRevokeNothing(s: Sys, ev: Event)
    requires ev.Create? || ev.RevokeCommit? || ev.Abort?
    ensures NoRevoker(s.txns, Next(s, ev).txns)
  {
    hide CreationError, HasDeviceCode, HasUserCode;
  }

  lemma CommitsRevokeNothing(s: Sys, ev: Event)
    requires ev.ReviewCommit? || ev.DecideCommit? || ev.ExchangeFinish?
    ensures NoRevoker(s.txns, Next(s, ev).txns)
  {
    hide Locked, ClaimUpdate, RedeemUpdate, DecideUpdate, ReviewUpdate, Holds, Recorded;
  }

  lemma ClaimRevokesNothing(s: Sys, ev: Event)
    requires ev.ExchangeClaim?
    ensures NoRevoker(s.txns, Next(s, ev).txns)
  {
    hide Locked, ClaimUpdate, Usable, TooEarly, Recorded;
  }

  /** Once a grant is revoked no request can begin to revoke it. */
  lemma NoNewRevocation(s: Sys, ev: Event, g: Id)
    requires g in s.db.grants && s.db.grants[g].revokedAt.Some? && NoneRevoking(s.txns, g)
    ensures NoneRevoking(Next(s, ev).txns, g)
  {
    hide DoCreate, DoReviewRead, DoReviewCommit, DoDecideRead, DoDecideCommit, DoExchangeRead, DoExchangeClaim,
         DoExchangeFinish, DoRevokeRead, DoRevokeCommit;
    match ev
    case ReviewRead(_, _, _, _, _) => ReviewReadRevokesNothing(s, ev);
    case DecideRead(_, _, _, _, _, _, _) => DecideReadRevokesNothing(s, ev);
    case ExchangeRead(_, _, _) => ExchangeReadRevokesNothing(s, ev);
    case ExchangeClaim(_, _) => ClaimRevokesNothing(s, ev);
    case ReviewCommit(_, _) => CommitsRevokeNothing(s, ev);
    case DecideCommit(_, _, _) => CommitsRevokeNothing(s, ev);
    case ExchangeFinish(_, _, _) => CommitsRevokeNothing(s, ev);
    case RevokeRead(_, _, _) => RevokeReadRefused(s, ev, g);
    case _ => OthersRevokeNothing(s, ev);
  }

  lemma RevokeReadRefused(s: Sys, ev: Event, g: Id)
    requires g in s.db.grants && s.db.grants[g].revokedAt.Some? && NoneRevoking(s.txns, g) && ev.RevokeRead?
    ensures NoneRevoking(DoRevokeRead(s, ev).txns, g)
  {
  }

  lemma {:induction false} RevocationStands(s: Sys, events: seq<Event>, g: Id)
    requires Inv(s) && g in s.db.grants && s.db.grants[g].revokedAt.Some? && NoneRevoking(s.txns, g)
    ensures g in Run(s, events).db.grants && Run(s, events).db.grants[g].revokedAt == s.db.grants[g].revokedAt
    ensures NoneRevoking(Run(s, events).txns, g)
  {
    hide Inv, Next;
    if events != [] {
      var before, last := events[..|events| - 1], events[|events| - 1];
      RevocationStands(s, before, g);
      RunKeeps(s, before);
      GrantStep(Run(s, before), last, g);
      NoNewRevocation(Run(s, before), last, g);
    }
  }

  /** A revocation that read the grant before may still move the stored time. */
  lemma RevocationMoves(s: Sys, t: Id, g: Id)
    requires g in s.db.grants && t in s.txns && s.txns[t] == Revoking(g)
    ensures exists events ::
              g in Run(s, events).db.grants && Run(s, events).db.grants[g].revokedAt != s.db.grants[g].revokedAt
  {
    var was := s.db.grants[g].revokedAt;
    var last := RevokeCommit(t, if was.Some? then was.value + 1 else 0);
    var none: seq<Event> := [];
    RevokeStores(s, t, g, last.now);
    hide Next;
    RunAppend(s, none, last);
    assert Run(s, none) == s;
    var events := none + [last];
    assert g in Run(s, events).db.grants && Run(s, events).db.grants[g].revokedAt != was;
  }

  lemma RevokeStores(s: Sys, t: Id, g: Id, now: Time)
    requires g in s.db.grants && t in s.txns && s.txns[t] == Revoking(g)
    ensures var s' := Next(s, RevokeCommit(t, now)); g in s'.db.grants && s'.db.grants[g].revokedAt == Some(now)
  {
  }

  /**
   Exactly when the stored time of a revocation is final: it stands in every continuation if and only if no other
   revocation of the grant is between its read and its commit.
  */
  lemma RevocationTimeIsFinal(s: Sys, g: Id)
    requires Inv(s) && g in s.db.grants && s.db.grants[g].revokedAt.Some?
    ensures (forall events ::
               g in Run(s, events).db.grants && Run(s, events).db.grants[g].revokedAt == s.db.grants[g].revokedAt)
       <==> NoneRevoking(s.txns, g)
  {
    if NoneRevoking(s.txns, g) {
      forall events: seq<Event>
        ensures g in Run(s, events).db.grants && Run(s, events).db.grants[g].revokedAt == s.db.grants[g].revokedAt
      {
        RevocationStands(s, events, g);
      }
    } else {
      hide Inv, Run;
      var t :| t in s.txns && s.txns[t] == Revoking(g);
      RevocationMoves(s, t, g);
    }
  }

  // ---------------------------------------------------------------- poll accounting

  /** The stored interval counts the persisted penalties; the next allowed poll counts from the last committed one. */
  lemma PollAccounting(events: seq<Event>, d: Id)
    requires d in Run(Init, events).db.devices
    ensures var s := Run(Init, events);
            && d in s.history
            && var row, polls := s.db.devices[d], s.history[d].polls;
            && row.interval == 5 + 5 * SlowCount(polls)
            && row.pollVersion == |polls|
            && (polls != [] ==> row.nextPollAt == polls[|polls| - 1].now + row.interval * SECOND)
            && Paced(s.history[d])
  {
    Reachable(events);
    var s := Run(Init, events);
    assert RowOk(s.db.devices[d], s.history[d]);
  }

  /** Of any two polls the one that commits later captured its time at most `back` before the other's. */
  ghost predicate Skew(polls: seq<Poll>, back: int) {
    forall i, j :: 0 <= i < j < |polls| ==> polls[i].now <= polls[j].now + back
  }

  /** The pending answers given from time `from` to time `to`. */
  function WaitingWithin(polls: seq<Poll>, from: Time, to: Time): nat {
    if polls == [] then 0
    else
      var last := polls[|polls| - 1];
      WaitingWithin(polls[..|polls| - 1], from, to) + if last.kind == Waiting && from <= last.now <= to then 1 else 0
  }

  /** No window of time, wherever it begins, holds more than one pending answer and one for each five seconds. */
  ghost predicate WindowsBounded(polls: seq<Poll>) {
    forall from, to :: from <= to ==> WaitingWithin(polls, from, to) <= 1 + (to - from) / (5 * SECOND)
  }

  lemma SlowGrows(polls: seq<Poll>, k: nat)
    requires k < |polls|
    ensures SlowCount(polls[..k + 1]) == SlowCount(polls[..k]) + if polls[k].kind == Slow then 1 else 0
  {
    assert polls[..k + 1][..k] == polls[..k];
  }

  /** A poll that is not too early keeps the stored interval from the poll before it. */
  lemma Spaced(h: History, i: nat)
    requires Paced(h) && 0 < i < |h.polls| && h.polls[i].kind != Slow
    ensures h.polls[i].now >= h.polls[i - 1].now + (5 + 5 * SlowCount(h.polls[..i])) * SECOND
  {
  }

  /**
   A poll that is not too early comes at least five seconds after every pending answer before it: a step back by at
   most five seconds is itself too early, and the penalty for it makes up for the step.
  */
  lemma {:induction false} PendingApart(h: History, i: nat, j: nat)
    requires Paced(h) && Skew(h.polls, 5 * SECOND) && i < j < |h.polls|
    requires h.polls[i].kind != Slow && h.polls[j].kind != Slow
    ensures h.polls[j].now >= h.polls[i].now + 5 * SECOND
    decreases j
  {
    Spaced(h, j);
    hide Paced, SlowCount;
    if i < j - 1 && SlowCount(h.polls[..j]) == 0 {
      SlowGrows(h.polls, j - 1);
      PendingApart(h, i, j - 1);
    }
  }

  /** Some pending answer in the window is five seconds after its beginning for each of the others. */
  ghost predicate Reached(polls: seq<Poll>, n: nat, from: Time, to: Time, count: int) {
    exists k :: 0 <= k < n <= |polls| && polls[k].kind == Waiting
                && from + (count - 1) * 5 * SECOND <= polls[k].now <= to
  }

  lemma ReachedNext(h: History, n: nat, from: Time, to: Time, count: nat)
    requires Paced(h) && Skew(h.polls, 5 * SECOND) && n < |h.polls|
    requires h.polls[n].kind == Waiting && from <= h.polls[n].now <= to
    requires count > 0 ==> Reached(h.polls, n, from, to, count)
    ensures Reached(h.polls, n + 1, from, to, count + 1)
  {
    hide Paced, Skew;
    if count > 0 {
      var k :| 0 <= k < n && h.polls[k].kind == Waiting && from + (count - 1) * 5 * SECOND <= h.polls[k].now <= to;
      PendingApart(h, k, n);
    }
  }

  lemma ReachedLater(polls: seq<Poll>, n: nat, from: Time, to: Time, count: int)
    requires Reached(polls, n, from, to, count) && n < |polls|
    ensures Reached(polls, n + 1, from, to, count)
  {
  }

  lemma {:induction false} PendingWithin(h: History, n: nat, from: Time, to: Time)
    requires Paced(h) && Skew(h.polls, 5 * SECOND) && n <= |h.polls|
    ensures WaitingWithin(h.polls[..n], from, to) > 0 ==>
              Reached(h.polls, n, from, to, WaitingWithin(h.polls[..n], from, to))
  {
    hide Paced, Skew, Reached;
    if n > 0 {
      var last := h.polls[n - 1];
      PendingWithin(h, n - 1, from, to);
      assert h.polls[..n][..n - 1] == h.polls[..n - 1];
      var count := WaitingWithin(h.polls[..n - 1], from, to);
      if last.kind == Waiting && from <= last.now <= to {
        ReachedNext(h, n - 1, from, to, count);
      } else if count > 0 {
        ReachedLater(h.polls, n - 1, from, to, count);
      }
    }
  }

  /** With a clock that runs back by at most five seconds in commit order, every window of time is bounded. */
  lemma PendingWindow(h: History)
    requires Paced(h) && Skew(h.polls, 5 * SECOND)
    ensures WindowsBounded(h.polls)
  {
    forall from, to | from <= to
      ensures WaitingWithin(h.polls, from, to) <= 1 + (to - from) / (5 * SECOND)
    {
      assert h.polls[..|h.polls|] == h.polls;
      PendingWithin(h, |h.polls|, from, to);
      hide Paced, Skew, WaitingWithin;
      var count := WaitingWithin(h.polls, from, to);
      if count > 0 {
        DivideAtMost(count - 1, 5 * SECOND, to - from);
      } else {
        DivideAtMost(0, 5 * SECOND, to - from);
      }
    }
  }

  lemma PendingWindowInRuns(events: seq<Event>, d: Id)
    requires d in Run(Init, events).history && Skew(Run(Init, events).history[d].polls, 5 * SECOND)
    ensures WindowsBounded(Run(Init, events).history[d].polls)
  {
    Reachable(events);
    PollAccounting(events, d);
    hide Paced, Run, Skew, WindowsBounded;
    PendingWindow(Run(Init, events).history[d]);
  }

  lemma DivideAtMost(n: int, unit: int, span: int)
    requires unit > 0 && n * unit <= span
    ensures n <= span / unit
  {
    if span / unit < n {
      MulMonotone(span / unit + 1, n, unit);
      assert false;
    }
  }

  // ---------------------------------------------------------------- what a redemption can still fail on

  /** Under the row lock a redemption can only be refused because its grant was revoked or ran out meanwhile. */
  lemma FinishFailsOnlyOnGrant(events: seq<Event>, t: Id, token: CliAuthRows.Token, now: Time)
    requires var s := Run(Init, events);
             t in s.txns && s.txns[t].Redeeming? && forall g :: g in s.db.grants ==> !Holds(s.db, g, token)
    ensures var s := Run(Init, events);
            var s' := Next(s, ExchangeFinish(t, token, now));
            var d := s.txns[t].device;
            && d in s.db.devices && t in s'.answers
            && s'.answers[t] == (if Usable(s.db, s.db.devices[d].grant, now) then Token(token)
                                 else Failed(ExpiredToken))
            && (s'.answers[t].Failed? ==> s'.db == s.db)
  {
    Reachable(events);
    hide DevicesOk, GrantsOk, IssuedOk, CodesOk, TxnsOk;
    var s := Run(Init, events);
    RedeemingFacts(s, t);
  }

  // ---------------------------------------------------------------- how far back the clock may run

  lemma RunAppend(s: Sys, events: seq<Event>, ev: Event)
    ensures Run(s, events + [ev]) == Next(Run(s, events), ev)
  {
    assert (events + [ev])[..|events|] == events;
  }

  /** The row after an undisturbed poll of a pending device. */
  function Polled(row: Device, now: Time): Device {
    var interval := if TooEarly(row, now) then row.interval + PENALTY else row.interval;
    row.(pollVersion := row.pollVersion + 1, interval := interval, nextPollAt := now + interval * SECOND)
  }

  /** A device polled with nothing else in flight. */
  lemma PollAlone(s: Sys, t: Id, d: Id, now: Time)
    requires s.txns == map[] && t !in s.answers && d in s.db.devices && d in s.history
    requires s.db.devices[d].status == Pending && s.db.devices[d].expiresAt > now
    ensures var row, s' := s.db.devices[d], Next(Next(s, ExchangeRead(t, d, now)), ExchangeClaim(t, Entitled));
            && s'.txns == map[] && s'.answers.Keys == s.answers.Keys + {t}
            && s'.db == s.db.(devices := s.db.devices[d := Polled(row, now)])
            && s'.history == s.history[d := s.history[d].(polls :=
                 s.history[d].polls + [Poll(now, if TooEarly(row, now) then Slow else Waiting)])]
  {
    var s1 := Next(s, ExchangeRead(t, d, now));
    assert s1 == s.(txns := map[t := Polling(d, s.db.devices[d], now)]);
    assert !Locked(s1, d);
    assert s1.txns - {t} == map[];
  }

  lemma PollAppended(events: seq<Event>, t: Id, d: Id, now: Time)
    requires var s := Run(Init, events);
             s.txns == map[] && t !in s.answers && d in s.db.devices && d in s.history
             && s.db.devices[d].status == Pending && s.db.devices[d].expiresAt > now
    ensures var s := Run(Init, events);
            var s' := Run(Init, events + [ExchangeRead(t, d, now)] + [ExchangeClaim(t, Entitled)]);
            && s'.txns == map[] && s'.answers.Keys == s.answers.Keys + {t}
            && d in s'.db.devices && s'.db.devices[d] == Polled(s.db.devices[d], now)
            && d in s'.history && s'.history[d].polls ==
                 s.history[d].polls + [Poll(now, if TooEarly(s.db.devices[d], now) then Slow else Waiting)]
  {
    var s := Run(Init, events);
    RunAppend(Init, events, ExchangeRead(t, d, now));
    RunAppend(Init, events + [ExchangeRead(t, d, now)], ExchangeClaim(t, Entitled));
    PollAlone(s, t, d, now);
  }

  lemma FirstDevice(d: Id) returns (create: Event)
    ensures var s := Run(Init, [create]);
            && s.txns == map[] && s.answers == map[] && d in s.db.devices && d in s.history
            && s.db.devices[d] == NewDevice(1, 2, ["rooms:read"], ["lobby"], 0, 600)
            && s.history[d].polls == []
  {
    create := Create(d, 1, 2, CLIENT_ID, ["rooms:read"], ["lobby"], 0, 600);
    assert CreationError(CLIENT_ID, ["rooms:read"], ["lobby"]) == None by {
      assert ValidRoom("lobby");
    }
    RunAppend(Init, [], create);
    assert [] + [create] == [create];
    assert Run(Init, [create]) == DoCreate(Init, create);
  }

  /** The device is pending, unexpired and idle after `events`, with this row and these polls. */
  ghost predicate Idle(events: seq<Event>, d: Id, row: Device, polls: seq<Poll>) {
    var s := Run(Init, events);
    && s.txns == map[] && d in s.db.devices && d in s.history
    && s.db.devices[d] == row && row.status == Pending && s.history[d].polls == polls
  }

  lemma FirstIdle(d: Id) returns (events: seq<Event>)
    ensures Idle(events, d, NewDevice(1, 2, ["rooms:read"], ["lobby"], 0, 600), [])
    ensures Run(Init, events).answers == map[]
  {
    var create := FirstDevice(d);
    events := [create];
  }

  /** One more undisturbed poll of an idle device. */
  lemma PollIdle(before: seq<Event>, t: Id, d: Id, row: Device, polls: seq<Poll>, now: Time)
    returns (events: seq<Event>)
    requires Idle(before, d, row, polls) && row.expiresAt > now && t !in Run(Init, before).answers
    ensures Idle(events, d, Polled(row, now), polls + [Poll(now, if TooEarly(row, now) then Slow else Waiting)])
    ensures Run(Init, events).answers.Keys == Run(Init, before).answers.Keys + {t}
  {
    hide Run;
    PollAppended(before, t, d, now);
    events := before + [ExchangeRead(t, d, now)] + [ExchangeClaim(t, Entitled)];
  }

  /** Two pending answers less than five seconds apart: the step back between them is one microsecond too long. */
  const TOO_FAR_BACK: seq<Poll> :=
    [Poll(10 * SECOND, Waiting), Poll(5 * SECOND - 1, Slow), Poll(15 * SECOND - 1, Waiting)]

  lemma WithinAppend(polls: seq<Poll>, last: Poll, from: Time, to: Time)
    ensures WaitingWithin(polls + [last], from, to) ==
            WaitingWithin(polls, from, to) + if last.kind == Waiting && from <= last.now <= to then 1 else 0
  {
    assert (polls + [last])[..|polls|] == polls;
  }

  /** Three polls, two of them pending answers inside the window. */
  lemma TwoOfThree(a: Poll, b: Poll, c: Poll, from: Time, to: Time)
    requires a.kind == c.kind == Waiting && b.kind != Waiting && from <= a.now <= to && from <= c.now <= to
    ensures WaitingWithin([a, b, c], from, to) == 2
  {
    WithinAppend([], a, from, to);
    assert WaitingWithin([], from, to) == 0;
    hide WaitingWithin;
    WithinAppend([a], b, from, to);
    WithinAppend([a, b], c, from, to);
    assert [] + [a] == [a] && [a] + [b] == [a, b] && [a, b] + [c] == [a, b, c];
  }

  lemma TooFarBackFails()
    ensures Skew(TOO_FAR_BACK, 5 * SECOND + 1) && !WindowsBounded(TOO_FAR_BACK)
  {
    TwoOfThree(TOO_FAR_BACK[0], TOO_FAR_BACK[1], TOO_FAR_BACK[2], 10 * SECOND, 15 * SECOND - 1);
    hide WaitingWithin;
    assert 10 * SECOND <= 15 * SECOND - 1 && 1 + (15 * SECOND - 1 - 10 * SECOND) / (5 * SECOND) == 1;
  }

  lemma TooFarBackRun(d: Id) returns (events: seq<Event>)
    ensures exists row :: Idle(events, d, row, TOO_FAR_BACK)
  {
    hide Idle, Run;
    var row := NewDevice(1, 2, ["rooms:read"], ["lobby"], 0, 600);
    var a, b, c := Poll(10 * SECOND, Waiting), Poll(5 * SECOND - 1, Slow), Poll(15 * SECOND - 1, Waiting);
    var e0 := FirstIdle(d);
    var e1 := PollIdle(e0, 10, d, row, [], a.now);
    var row1 := Polled(row, a.now);
    var e2 := PollIdle(e1, 11, d, row1, [] + [a], b.now);
    var row2 := Polled(row1, b.now);
    events := PollIdle(e2, 12, d, row2, [] + [a] + [b], c.now);
    assert [] + [a] + [b] + [c] == TOO_FAR_BACK;
  }

  /** In every run, a device whose polls run back by at most `back` has all its windows bounded. */
  ghost predicate ToleratesSkew(back: int) {
    forall events, d :: d in Run(Init, events).history && Skew(Run(Init, events).history[d].polls, back) ==>
      WindowsBounded(Run(Init, events).history[d].polls)
  }

  lemma SkewWeakens(polls: seq<Poll>, back: int, more: int)
    requires Skew(polls, back) && back <= more
    ensures Skew(polls, more)
  {
  }

  /** The bound on pending answers survives a clock that runs back by five seconds, and not by a microsecond more. */
  lemma PendingWindowThreshold(back: int)
    ensures ToleratesSkew(back) <==> back <= 5 * SECOND
  {
    hide Run, Skew, WindowsBounded;
    if back <= 5 * SECOND {
      forall events, d | d in Run(Init, events).history && Skew(Run(Init, events).history[d].polls, back)
        ensures WindowsBounded(Run(Init, events).history[d].polls)
      {
        SkewWeakens(Run(Init, events).history[d].polls, back, 5 * SECOND);
        PendingWindowInRuns(events, d);
      }
    } else {
      var events := TooFarBackRun(7);
      var row :| Idle(events, 7, row, TOO_FAR_BACK);
      TooFarBackFails();
      SkewWeakens(TOO_FAR_BACK, 5 * SECOND + 1, back);
    }
  }
}
