/**
 Runs of the capture store against its documentation: a table full of stopped sessions is never emptied by time,
 so every new scope is refused long after those sessions expired.
*/
module CaptureRuns {
  import opened Wrappers
  import opened CaptureLog
  import opened CaptureIndex
  import opened CaptureSteps
  import opened DebugCapture

  /** One call of the store's public interface. */
  datatype Call<P> =
    | Start(owner: string, profile: string, scope: Scope, guildName: string, ttlMinutes: int, newId: Id)
    | Current(owner: string, profile: string)
    | Get(session: Id, owner: string)
    | Stop(session: Id, owner: string)
    | Discard(session: Id, owner: string)
    | Capture(scope: Scope, message: string, channel: string, thread: string, deployment: string,
              operation: string, step: string, characterCount: int, payload: P, newId: Id)
    | Mark(id: Id, outcome: Outcome)
    | List(session: Id, owner: string, page: int, pageSize: int)
    | Fetch(id: Id, owner: string)
    | Clear(session: Id, owner: string)

  datatype Timed<P> = At(now: int, call: Call<P>)

  datatype Answer = Started(result: Result<Session, StartError>) | Captured(record: Option<Record>)
                  | Discarded(found: bool) | Served

  /** The caller's part: a new identifier where one is issued, and a positive page size. */
  predicate Proper<P>(call: Call<P>, issued: set<Id>) {
    && (call.Start? || call.Capture? ==> call.newId !in issued)
    && (call.List? ==> call.pageSize > 0)
  }

  predicate Allowed<P>(call: Call<P>) {
    call.Start? && call.ttlMinutes in {15, 60, 1440}
  }

  predicate Holds(sessions: map<Id, Session>, scope: Scope) {
    exists s :: s in sessions && sessions[s].scope == scope
  }

  /** The owner discards a session, or starts a new one in a scope the table holds. */
  predicate Frees<P>(sessions: map<Id, Session>, call: Call<P>) {
    || (call.Discard? && call.session in sessions && sessions[call.session].owner == call.owner)
    || (Allowed(call) && Holds(sessions, call.scope))
  }

  lemma FreesAlike<P>(a: map<Id, Session>, b: map<Id, Session>, call: Call<P>)
    requires SameTable(a, b)
    ensures Frees(a, call) <==> Frees(b, call)
    ensures |a| == |b| && (AllStopped(a) ==> AllStopped(b))
  {
    KeysSize(a, b);
    if call.Start? {
      if s :| s in a && a[s].scope == call.scope {
        assert b[s].scope == call.scope;
      }
      if s :| s in b && b[s].scope == call.scope {
        assert a[s].scope == call.scope;
      }
    }
  }

  lemma SameTableChain(a: map<Id, Session>, b: map<Id, Session>, c: map<Id, Session>)
    requires SameTable(a, b) && SameTable(b, c)
    ensures SameTable(a, c)
  {
  }

  lemma StoppedAlike(a: map<Id, Session>, b: map<Id, Session>)
    requires SameTable(a, b) && AllStopped(a)
    ensures AllStopped(b)
  {
  }

  lemma PrunedTable(log: seq<Record>, sessions: map<Id, Session>, now: int)
    ensures SameTable(sessions, PrunedSessions(log, sessions, now))
  {
    RecountedTable(sessions, PrunedLog(log, sessions, now));
  }

  /** A table of stopped sessions has no active scope. */
  lemma NothingActive<P>(store: CaptureStore<P>)
    requires store.Valid() && AllStopped(store.sessions)
    ensures store.activeScopes == map[]
    ensures forall gone :: StillActive(store.activeScopes, gone) == map[]
  {
    hide Sound, UsageOk, Homed, BoundsOk, HistoryOk, IssuedOk;
  }

  lemma NewKey<P>(store: CaptureStore<P>, id: Id)
    requires store.Valid() && id !in store.issued
    ensures id !in store.sessions
  {
    hide Sound, UsageOk, Homed, BoundsOk, HistoryOk, ScopesOk;
    IssuedKeys(store.log, store.sessions, store.issued);
  }

  lemma HeldOrStuck(sessions: map<Id, Session>, scope: Scope, maximum: nat, now: int)
    requires |sessions| == maximum && AllStopped(sessions)
    ensures TableStuck(sessions, scope, maximum, now) <==> !Holds(sessions, scope)
    ensures !ScopeActive(sessions, scope, now)
  {
    StoppedTableStaysFull(sessions, scope, maximum, now);
  }

  lemma OneAnswer(result: Result<Session, StartError>)
    ensures result.Ok? || result == Err(InvalidTtl) || result == Err(AlreadyActive) || result == Err(SessionLimit)
  {
    if result.Err? {
      match result.error
      case InvalidTtl =>
      case AlreadyActive =>
      case SessionLimit =>
    }
  }

  /** A start on a full table of stopped sessions: refused exactly when the scope is new to the table. */
  method PerformStart<P>(store: CaptureStore<P>, now: int, owner: string, profile: string, scope: Scope,
                         guildName: string, ttlMinutes: int, newId: Id)
    returns (result: Result<Session, StartError>)
    requires store.Valid() && store.lastNow <= now && newId !in store.issued
    requires |store.sessions| == store.maximumSessions && AllStopped(store.sessions)
    modifies store
    ensures store.Valid() && store.lastNow <= now
    ensures result == Err(SessionLimit) <==>
              ttlMinutes in {15, 60, 1440} && !Holds(old(store.sessions), scope)
    ensures result.Ok? <==> ttlMinutes in {15, 60, 1440} && Holds(old(store.sessions), scope)
    ensures SameTable(old(store.sessions), store.sessions) <==> !result.Ok?
    ensures !result.Ok? ==> store.issued == old(store.issued) && store.accepted == old(store.accepted)
  {
    hide CaptureStore.Valid, PrunedSessions, PrunedLog, TableStuck, ScopeActive, Admitting, Holds, AllStopped;
    PrunedTable(store.log, store.sessions, now);
    HeldOrStuck(store.sessions, scope, store.maximumSessions, now);
    NewKey(store, newId);
    result := store.StartSession(owner, profile, scope.connection, scope.guild, guildName, ttlMinutes, now, newId);
    OneAnswer(result);
  }

  method PerformCapture<P>(store: CaptureStore<P>, now: int, call: Call<P>) returns (result: Option<Record>)
    requires store.Valid() && store.lastNow <= now && call.Capture? && call.newId !in store.issued
    requires AllStopped(store.sessions)
    modifies store
    ensures store.Valid() && store.lastNow <= now
    ensures SameTable(old(store.sessions), store.sessions) && result == None
    ensures store.issued == old(store.issued) && store.accepted == old(store.accepted)
  {
    hide CaptureStore.Valid, PrunedSessions, PrunedLog, AllStopped, StillActive, SameTable, Fit, TrimSession, Evicted;
    PrunedTable(store.log, store.sessions, now);
    NothingActive(store);
    result := store.Capture(call.scope.connection, call.scope.guild, call.message, call.channel, call.thread,
                            call.deployment, call.operation, call.step, call.characterCount, call.payload,
                            now, call.newId);
  }

  method PerformDiscard<P>(store: CaptureStore<P>, session: Id, owner: string) returns (found: bool)
    requires store.Valid()
    modifies store
    ensures store.Valid() && store.lastNow == old(store.lastNow)
    ensures found <==> session in old(store.sessions) && old(store.sessions)[session].owner == owner
    ensures SameTable(old(store.sessions), store.sessions) <==> !found
    ensures !found ==> store.issued == old(store.issued) && store.accepted == old(store.accepted)
  {
    hide CaptureStore.Valid, Outside, Released;
    found := store.DiscardSession(session, owner);
  }

  /** Stopping, reading, marking and clearing never free a slot. */
  method PerformOther<P>(store: CaptureStore<P>, now: int, call: Call<P>)
    requires store.Valid() && store.lastNow <= now && AllStopped(store.sessions)
    requires !call.Start? && !call.Capture? && !call.Discard? && (call.List? ==> call.pageSize > 0)
    modifies store
    ensures store.Valid() && store.lastNow <= now
    ensures SameTable(old(store.sessions), store.sessions)
    ensures store.issued == old(store.issued) && store.accepted == old(store.accepted)
  {
    hide CaptureStore.Valid, PrunedSessions, PrunedLog, AllStopped, StillActive, SameTable, AfterStop, Recounted, Of;
    ghost var pruned := PrunedSessions(store.log, store.sessions, now);
    PrunedTable(store.log, store.sessions, now);
    StoppedAlike(store.sessions, pruned);
    match call
    case Stop(session, owner) =>
      if session in pruned {
        StoppedStaysStopped(pruned, session, now);
      }
      var _ := store.StopSession(session, owner, now);
    case Clear(session, owner) =>
      var _ := store.ClearRecords(session, owner, now);
      RecountedTable(pruned, store.log);
      SameTableChain(old(store.sessions), pruned, store.sessions);
    case Current(owner, profile) =>
      var _ := store.CurrentSession(owner, profile, now);
    case Get(session, owner) =>
      var _ := store.GetSession(session, owner, now);
    case Mark(id, outcome) =>
      store.MarkOutcome(id, outcome, now);
    case List(session, owner, page, pageSize) =>
      var _ := store.ListRecords(session, owner, page, pageSize, now);
    case Fetch(id, owner) =>
      var _ := store.GetRecord(id, owner, now);
  }

  /** One call on a full table of stopped sessions changes the table exactly if it is one of the two freeing calls. */
  method Perform<P>(store: CaptureStore<P>, now: int, call: Call<P>) returns (answer: Answer)
    requires store.Valid() && store.lastNow <= now && Proper(call, store.issued)
    requires |store.sessions| == store.maximumSessions && AllStopped(store.sessions)
    modifies store
    ensures store.Valid() && store.lastNow <= now
    ensures SameTable(old(store.sessions), store.sessions) <==> !Frees(old(store.sessions), call)
    ensures answer == Started(Err(SessionLimit)) <==> Allowed(call) && !Holds(old(store.sessions), call.scope)
    ensures call.Capture? ==> answer == Captured(None)
    ensures !Frees(old(store.sessions), call) ==>
              store.issued == old(store.issued) && store.accepted == old(store.accepted)
  {
    hide CaptureStore.Valid, SameTable, AllStopped, Holds;
    if call.Start? {
      var result := PerformStart(store, now, call.owner, call.profile, call.scope, call.guildName,
                                 call.ttlMinutes, call.newId);
      answer := Started(result);
    } else if call.Capture? {
      var record := PerformCapture(store, now, call);
      answer := Captured(record);
    } else if call.Discard? {
      var found := PerformDiscard(store, call.session, call.owner);
      answer := Discarded(found);
    } else {
      PerformOther(store, now, call);
      answer := Served;
    }
  }

  predicate Ordered<P>(script: seq<Timed<P>>, start: int) {
    forall k :: 0 <= k < |script| ==>
      start <= script[k].now && forall j :: 0 <= j < k ==> script[j].now <= script[k].now
  }

  /**
   Never evicted: through any run without a freeing call, whatever else is asked of the store and however much time
   passes, the table keeps its rows, nothing is captured, and every start of a new scope is refused.
  */
  method Serve<P>(store: CaptureStore<P>, script: seq<Timed<P>>) returns (answers: seq<Answer>)
    requires store.Valid() && Ordered(script, store.lastNow)
    requires |store.sessions| == store.maximumSessions && AllStopped(store.sessions)
    requires forall k :: 0 <= k < |script| ==> Proper(script[k].call, store.issued)
    requires forall k :: 0 <= k < |script| ==> !Frees(store.sessions, script[k].call)
    modifies store
    ensures store.Valid() && |answers| == |script|
    ensures SameTable(old(store.sessions), store.sessions)
    ensures |store.sessions| == store.maximumSessions && AllStopped(store.sessions)
    ensures store.issued == old(store.issued) && store.accepted == old(store.accepted)
    ensures forall k :: 0 <= k < |script| && script[k].call.Capture? ==> answers[k] == Captured(None)
    ensures forall k :: 0 <= k < |script| && Allowed(script[k].call) ==> answers[k] == Started(Err(SessionLimit))
  {
    hide CaptureStore.Valid, SameTable, AllStopped, Holds;
    ghost var table := store.sessions;
    SameTableSelf(table);
    answers := [];
    for i := 0 to |script|
      invariant store.Valid() && |answers| == i
      invariant forall k :: i <= k < |script| ==> store.lastNow <= script[k].now
      invariant SameTable(table, store.sessions)
      invariant |store.sessions| == store.maximumSessions && AllStopped(store.sessions)
      invariant store.issued == old(store.issued) && store.accepted == old(store.accepted)
      invariant forall k :: 0 <= k < i && script[k].call.Capture? ==> answers[k] == Captured(None)
      invariant forall k :: 0 <= k < i && Allowed(script[k].call) ==> answers[k] == Started(Err(SessionLimit))
    {
      ghost var was := store.sessions;
      FreesAlike(table, was, script[i].call);
      var answer := Perform(store, script[i].now, script[i].call);
      FreesAlike(was, store.sessions, script[i].call);
      SameTableChain(table, was, store.sessions);
      answers := answers + [answer];
    }
  }

  lemma SameTableSelf(sessions: map<Id, Session>)
    ensures SameTable(sessions, sessions)
  {
  }

  // ---------------------------------------------------------------- a start and what it makes possible

  lemma StartedStays(log: seq<Record>, sessions: map<Id, Session>, s: Id, now: int)
    requires s in sessions && UsageOk(log, sessions) && sessions[s].id == s && sessions[s].recordCount == 0
    requires sessions[s].capturedBytes == 0
    ensures s in PrunedSessions(log, sessions, now) && PrunedSessions(log, sessions, now)[s] == sessions[s]
  {
    var gone := ExpiredIds(sessions, now);
    OutsideOf(log, gone, s);
    hide Of, Outside;
    assert Of(log, s) == [] && Size([]) == 0;
  }

  lemma UsageFacts<P>(store: CaptureStore<P>)
    requires store.Valid()
    ensures UsageOk(store.log, store.sessions) && forall s :: s in store.sessions ==> store.sessions[s].id == s
  {
    hide Sound, UsageOk, Homed, BoundsOk, HistoryOk, IssuedOk, ScopesOk;
    SoundNames(store.log, store.records, store.globalIds, store.dedupe, store.sessions, store.order, store.recordIds);
  }

  /**
   Right after a start the new session is the current one of its owner and profile, its owner finds it and nobody else
   does, and its owner, and nobody else, can stop it.
  */
  method StartAndUse<P>(store: CaptureStore<P>, owner: string, profile: string, connection: string, guild: string,
                        guildName: string, ttlMinutes: int, now: int, newId: Id, asked: string)
    returns (result: Result<Session, StartError>, current: Option<Session>, found: Option<Session>,
             stopped: Option<Session>)
    requires store.Valid() && store.lastNow <= now && newId !in store.issued
    modifies store
    ensures store.Valid()
    ensures result.Ok? ==>
              && current == Some(result.value)
              && found == (if asked == owner then Some(result.value) else None)
              && (stopped.Some? <==> asked == owner)
              && (asked == owner ==>
                    && stopped.value.stoppedAt == Some(now) && stopped.value.owner == owner
                    && stopped.value.profile == profile && stopped.value.scope == Scope(connection, guild))
  {
    hide CaptureStore.Valid, PrunedSessions, PrunedLog, Admitting, UsageOk, TableStuck, ScopeActive;
    current, found, stopped := None, None, None;
    result := store.StartSession(owner, profile, connection, guild, guildName, ttlMinutes, now, newId);
    if result.Ok? {
      UsageFacts(store);
      StartedStays(store.log, store.sessions, newId, now);
      OrderFacts(store);
      current := store.CurrentSession(owner, profile, now);
      UsageFacts(store);
      StartedStays(store.log, store.sessions, newId, now);
      found := store.GetSession(newId, asked, now);
      stopped := store.StopSession(newId, asked, now);
    }
  }

  lemma OrderFacts<P>(store: CaptureStore<P>)
    requires store.Valid()
    ensures NoDup(store.order) && forall s :: s in store.order <==> s in store.sessions
  {
    hide Sound, UsageOk, Homed, BoundsOk, HistoryOk, IssuedOk, ScopesOk;
    SoundOrder(store.log, store.records, store.globalIds, store.dedupe, store.sessions, store.order, store.recordIds);
  }

  // ---------------------------------------------------------------- the failing input

  /** The guild of the `i`-th scope. */
  function Guild(i: nat): string {
    seq(i, _ => 'g')
  }

  /** The table holds one stopped session in each of the first `n` scopes. */
  ghost predicate Filled(sessions: map<Id, Session>, n: nat, expiry: int) {
    && |sessions| == n && (forall s: Id :: s in sessions <==> s < n)
    && forall s :: s in sessions ==>
         sessions[s].owner == "" && sessions[s].scope == Scope("", Guild(s)) &&
         sessions[s].stoppedAt.Some? && sessions[s].expiresAt == expiry
  }

  lemma NewScope(sessions: map<Id, Session>, n: nat, expiry: int)
    requires Filled(sessions, n, expiry)
    ensures forall s :: s in sessions ==> sessions[s].scope != Scope("", Guild(n))
    ensures AllStopped(sessions)
  {
    forall s | s in sessions
      ensures sessions[s].scope != Scope("", Guild(n))
    {
      assert |Guild(s)| == s && |Guild(n)| == n;
    }
  }

  lemma FilledAlike(a: map<Id, Session>, b: map<Id, Session>, n: nat, expiry: int)
    requires Filled(a, n, expiry) && SameTable(a, b)
    ensures Filled(b, n, expiry)
  {
    KeysSize(a, b);
  }

  lemma FilledExpired(sessions: map<Id, Session>, n: nat, expiry: int, now: int)
    requires Filled(sessions, n, expiry) && n > 0 && expiry <= now
    ensures |sessions| == n && exists s :: s in sessions && sessions[s].expiresAt <= now
  {
    assert 0 in sessions;
  }

  lemma NoneFilled(expiry: int)
    ensures Filled(map[], 0, expiry)
  {
  }

  lemma OneMoreFilled(before: map<Id, Session>, after: map<Id, Session>, n: nat, expiry: int)
    requires Filled(before, n, expiry) && after.Keys == before.Keys + {n} && SameTable(before, after - {n})
    requires after[n].owner == "" && after[n].scope == Scope("", Guild(n))
    requires after[n].stoppedAt.Some? && after[n].expiresAt == expiry
    ensures Filled(after, n + 1, expiry)
  {
    var rest := after - {n};
    FilledAlike(before, rest, n, expiry);
    Sizes(after, {n});
    hide SameTable, Guild;
    forall s: Id
      ensures s in after <==> s < n + 1
      ensures s in after && s != n ==> s in rest && after[s] == rest[s]
    {
      assert s in rest <==> s < n;
    }
  }

  /** The session a start started, once it has been stopped. */
  lemma StoppedRow(pruned: map<Id, Session>, session: Session, log: seq<Record>, now: int)
    requires session.id !in pruned && session.stoppedAt == None && session.expiresAt > now
    ensures var after := AfterStop(PrunedSessions(log, pruned[session.id := session], now), session.id, now);
            && after.Keys == pruned.Keys + {session.id} && SameTable(pruned, after - {session.id})
            && after[session.id].owner == session.owner && after[session.id].scope == session.scope
            && after[session.id].stoppedAt.Some? && after[session.id].expiresAt == session.expiresAt
  {
    var started := pruned[session.id := session];
    hide PrunedSessions, SameTable;
    PrunedTable(log, started, now);
    StoppedRowOf(pruned, session, PrunedSessions(log, started, now), now);
  }

  lemma StoppedRowOf(pruned: map<Id, Session>, session: Session, recounted: map<Id, Session>, now: int)
    requires session.id !in pruned && session.stoppedAt == None && session.expiresAt > now
    requires SameTable(pruned[session.id := session], recounted)
    ensures var after := AfterStop(recounted, session.id, now);
            && after.Keys == pruned.Keys + {session.id} && SameTable(pruned, after - {session.id})
            && after[session.id].owner == session.owner && after[session.id].scope == session.scope
            && after[session.id].stoppedAt.Some? && after[session.id].expiresAt == session.expiresAt
  {
    var started := pruned[session.id := session];
    var after := AfterStop(recounted, session.id, now);
    assert session.id in started;
    assert (after - {session.id}).Keys == pruned.Keys;
    forall s | s in pruned
      ensures s in started && after[s] == recounted[s] && started[s] == pruned[s]
    {
    }
  }

  method FillOne<P>(store: CaptureStore<P>, n: nat, now: int, ghost expiry: int)
    requires store.Valid() && store.lastNow == now && expiry == now + 15 * MICROS_PER_MINUTE
    requires n < store.maximumSessions && Filled(store.sessions, n, expiry)
    requires forall id :: id in store.issued ==> id < n
    modifies store
    ensures store.Valid() && store.lastNow == now
    ensures Filled(store.sessions, n + 1, expiry)
    ensures forall id :: id in store.issued ==> id < n + 1
  {
    hide CaptureStore.Valid, PrunedSessions, PrunedLog, TableStuck, ScopeActive, Admitting, AllStopped, SameTable,
         AfterStop, Guild;
    var scope := Scope("", Guild(n));
    ghost var before := store.sessions;
    ghost var pruned := PrunedSessions(store.log, before, now);
    NewScope(before, n, expiry);
    RoomForScope(store.log, before, store.order, scope, store.maximumSessions, now);
    PrunedTable(store.log, before, now);
    FilledAlike(before, pruned, n, expiry);
    hide Filled;
    var result := store.StartSession("", "", "", Guild(n), "", 15, now, n);
    OneAnswer(result);
    StoppedRow(pruned, result.value, store.log, now);
    var _ := store.StopSession(n, "", now);
    OneMoreFilled(pruned, store.sessions, n, expiry);
  }

  /** Start and stop one session in as many scopes as the table holds. */
  method Fill<P>(encode: P -> seq<Byte>, maximum: nat, now: int, ghost expiry: int) returns (store: CaptureStore<P>)
    requires maximum >= 1 && expiry == now + 15 * MICROS_PER_MINUTE
    ensures fresh(store) && store.Valid() && store.maximumSessions == maximum && store.lastNow == now
    ensures Filled(store.sessions, maximum, expiry) && maximum !in store.issued
  {
    hide CaptureStore.Valid, Filled;
    NoneFilled(expiry);
    store := new CaptureStore(encode, 1, 1, 1, 1, maximum, now);
    for i := 0 to maximum
      invariant store.Valid() && store.lastNow == now
      invariant Filled(store.sessions, i, expiry)
      invariant forall id :: id in store.issued ==> id < i
    {
      FillOne(store, i, now, expiry);
    }
  }

  lemma FilledRefused(sessions: map<Id, Session>, n: nat, expiry: int, now: int)
    requires Filled(sessions, n, expiry) && n > 0 && expiry <= now
    ensures |sessions| == n && AllStopped(sessions) && !Holds(sessions, Scope("", Guild(n)))
    ensures !RefusedAsDocumented(sessions, Scope("", Guild(n)), n, now)
  {
    NewScope(sessions, n, expiry);
    FilledExpired(sessions, n, expiry, now);
    StoppedTableStaysFull(sessions, Scope("", Guild(n)), n, now);
  }

  /**
   The failing input, for every table size: once the expiry of a table of stopped sessions has passed, the next scope
   is refused although every summary is past its retention period.
  */
  method RefusedAfterExpiry<P>(encode: P -> seq<Byte>, maximum: nat, now: int, later: int)
    returns (store: CaptureStore<P>, result: Result<Session, StartError>)
    requires maximum >= 1 && later >= now + 15 * MICROS_PER_MINUTE
    ensures fresh(store) && store.Valid() && store.maximumSessions == maximum
    ensures Filled(store.sessions, maximum, now + 15 * MICROS_PER_MINUTE)
    ensures result == Err(SessionLimit)
    ensures !RefusedAsDocumented(store.sessions, Scope("", Guild(maximum)), maximum, later)
  {
    hide CaptureStore.Valid, Filled, AllStopped, Holds, RefusedAsDocumented, SameTable, Guild;
    ghost var expiry := now + 15 * MICROS_PER_MINUTE;
    store := Fill(encode, maximum, now, expiry);
    FilledRefused(store.sessions, maximum, expiry, later);
    ghost var table := store.sessions;
    result := PerformStart(store, later, "", "", Scope("", Guild(maximum)), "", 15, maximum);
    FilledAlike(table, store.sessions, maximum, expiry);
    FilledRefused(store.sessions, maximum, expiry, later);
  }
}
