/**
 The bounded, in-memory capture store. Six containers and two cached counters per session
 are kept consistent with one ghost log; every public method says what happens to that log.

 `now` and newId identifiers are parameters. The lock makes each public method one step.
*/
module DebugCapture {
  import opened Wrappers
  import opened CaptureLog
  import opened CaptureIndex
  import opened CaptureSteps

  const ALLOWED_TTL_MINUTES: set<int> := {15, 60, 1440}
  const MICROS_PER_MINUTE: int := 60_000_000

  datatype StartError = InvalidTtl | AlreadyActive | SessionLimit

  class CaptureStore<P> {
    const encode: P -> seq<Byte>
    const maximumRecords: nat
    const maximumBytes: nat
    const globalMaximumRecords: nat
    const globalMaximumBytes: nat
    const maximumSessions: nat

    var sessions: map<Id, Session>
    var order: seq<Id>
    var records: map<Id, Record>
    var globalIds: seq<Id>
    var recordIds: map<Id, seq<Id>>
    var dedupe: map<DedupeKey, Id>
    var activeScopes: map<Scope, Id>

    /** The abstract value, and the history the invariant accounts for. */
    ghost var log: seq<Record>
    ghost var accepted: map<Id, seq<Id>>
    ghost var dropped: map<Id, nat>
    ghost var lastNow: int
    ghost var issued: set<Id>

    ghost predicate Core()
      reads this
    {
      Sound(log, records, globalIds, dedupe, sessions, order, recordIds)
    }

    ghost predicate Bounded()
      reads this
    {
      && BoundsOk(log, sessions, maximumRecords, maximumBytes, globalMaximumRecords, globalMaximumBytes)
      && |sessions| <= maximumSessions
    }

    ghost predicate Valid()
      reads this
    {
      && maximumRecords >= 1 && maximumBytes >= 1
      && globalMaximumRecords >= 1 && globalMaximumBytes >= 1 && maximumSessions >= 1
      && Core()
      && UsageOk(log, sessions)
      && ScopesOk(sessions, activeScopes, lastNow)
      && Homed(log, sessions, lastNow)
      && Bounded()
      && HistoryOk(log, sessions, accepted, dropped)
      && IssuedOk(log, sessions, issued)
    }

    constructor (encode: P -> seq<Byte>, maximumRecords: nat, maximumBytes: nat,
                 globalMaximumRecords: nat, globalMaximumBytes: nat, maximumSessions: nat, now: int)
      requires maximumRecords >= 1 && maximumBytes >= 1
      requires globalMaximumRecords >= 1 && globalMaximumBytes >= 1 && maximumSessions >= 1
      ensures Valid()
      ensures log == [] && sessions == map[] && order == [] && activeScopes == map[] && lastNow == now
      ensures accepted == map[] && dropped == map[] && issued == {}
      ensures this.encode == encode && this.maximumSessions == maximumSessions
      ensures this.maximumRecords == maximumRecords && this.maximumBytes == maximumBytes
      ensures this.globalMaximumRecords == globalMaximumRecords && this.globalMaximumBytes == globalMaximumBytes
    {
      this.encode := encode;
      this.maximumRecords, this.maximumBytes := maximumRecords, maximumBytes;
      this.globalMaximumRecords, this.globalMaximumBytes := globalMaximumRecords, globalMaximumBytes;
      this.maximumSessions := maximumSessions;
      sessions, order, records, globalIds := map[], [], map[], [];
      recordIds, dedupe, activeScopes := map[], map[], map[];
      log, accepted, dropped, lastNow, issued := [], map[], map[], now, {};
    }

    // -------------------------------------------------------------- internal steps

    method RemoveRecord(id: Id) returns (removed: Option<Record>)
      requires Core()
      modifies `records, `recordIds, `globalIds, `dedupe, `log
      ensures Core()
      ensures removed == if id in old(records) then Some(old(records)[id]) else None
      ensures id in old(records) ==> log == Without(old(log), id)
      ensures id !in old(records) ==> log == old(log)
    {
      hide Sound;
      if id !in records {
        if id in globalIds {
          globalIds := RemoveFirst(globalIds, id);
          NotListed(log, records, old(globalIds), dedupe, sessions, order, recordIds, id);
        }
        return None;
      }
      RemovalKeepsSound(log, records, globalIds, dedupe, sessions, order, recordIds, id);
      var record := records[id];
      records := records - {id};
      if record.session in recordIds && id in recordIds[record.session] {
        recordIds := recordIds[record.session := RemoveFirst(recordIds[record.session], id)];
      }
      if id in globalIds {
        globalIds := RemoveFirst(globalIds, id);
      }
      dedupe := dedupe - {record.key};
      log := Without(log, id);
      removed := Some(record);
    }

    method RefreshUsage(s: Id) returns (updated: Session)
      requires Core() && s in sessions
      modifies `sessions
      ensures Core()
      ensures updated == Recount(old(sessions)[s], log)
      ensures sessions == old(sessions)[s := updated]
    {
      hide Sound;
      SoundViews(log, records, globalIds, dedupe, sessions, order, recordIds, s);
      var retained := Gather(if s in recordIds then recordIds[s] else [], records);
      updated := sessions[s].(recordCount := |retained|, capturedBytes := Size(retained));
      UpdateKeepsSound(log, records, globalIds, dedupe, sessions, order, recordIds, updated);
      sessions := sessions[s := updated];
    }

    method ClearSessionRecords(s: Id)
      requires Core() && s in sessions && s in dropped
      modifies `sessions, `records, `recordIds, `globalIds, `dedupe, `log, `dropped
      ensures Core()
      ensures log == Outside(old(log), {s})
      ensures sessions == old(sessions)[s := Recount(old(sessions)[s], log)]
      ensures dropped == old(dropped)[s := old(dropped)[s] + |Of(old(log), s)|]
    {
      hide Sound, Of, Without, Outside, Size;
      SoundViews(log, records, globalIds, dedupe, sessions, order, recordIds, s);
      var ids := recordIds[s];
      ghost var before := log;
      ghost var view := Of(log, s);
      var i := 0;
      assert view == view[0..];
      while i < |ids|
        invariant i <= |ids| && ids == Ids(view)
        invariant Core() && sessions == old(sessions) && dropped == old(dropped)
        invariant Of(log, s) == view[i..]
        invariant Outside(log, {s}) == Outside(before, {s})
      {
        SoundViews(log, records, globalIds, dedupe, sessions, order, recordIds, s);
        ghost var front := Of(log, s)[0];
        assert front == view[i] && ids[i] == front.id;
        WithoutViews(log, front.id, front);
        WithoutOf(log, front.id, front, s);
        WithoutFront(view[i..]);
        var _ := RemoveRecord(ids[i]);
        i := i + 1;
      }
      SoundViews(log, records, globalIds, dedupe, sessions, order, recordIds, s);
      assert Of(log, s) == [];
      forall r | r in log
        ensures r.session !in {s}
      {
        OfMember(log, s, r);
      }
      OutsideNothing(log, {s});
      assert recordIds[s := []] == recordIds;
      recordIds := recordIds[s := []];
      dropped := dropped[s := old(dropped)[s] + |view|];
      var _ := RefreshUsage(s);
    }

    method ReleaseScope(session: Session)
      modifies `activeScopes
      ensures activeScopes ==
              if session.scope in old(activeScopes) && old(activeScopes)[session.scope] == session.id
              then old(activeScopes) - {session.scope} else old(activeScopes)
    {
      if session.scope in activeScopes && activeScopes[session.scope] == session.id {
        activeScopes := activeScopes - {session.scope};
      }
    }

    /** Remove the oldest record of one session and refresh its counters. */
    method EvictOldest(s: Id) returns (session: Session)
      requires Core() && s in sessions && s in recordIds && recordIds[s] != []
      requires recordIds[s] == Ids(Of(log, s))
      modifies `sessions, `records, `recordIds, `globalIds, `dedupe, `log
      ensures Core()
      ensures log == DropOldest(old(log), s, 1) && Of(log, s) == Of(old(log), s)[1..]
      ensures session == Recount(old(sessions)[s], log) && sessions == old(sessions)[s := session]
      ensures session.id == s && s in recordIds && recordIds[s] == Ids(Of(log, s))
    {
      hide Sound, DropOldest, Of, Size, Without;
      SoundViews(log, records, globalIds, dedupe, sessions, order, recordIds, s);
      WithoutOldest(log, s);
      DropOldestViews(log, s, 1, s);
      var _ := RemoveRecord(recordIds[s][0]);
      session := RefreshUsage(s);
      SoundViews(log, records, globalIds, dedupe, sessions, order, recordIds, s);
    }

    method EnforceCapacity(s: Id)
      requires Core() && s in sessions && sessions[s] == Recount(sessions[s], log)
      modifies `sessions, `records, `recordIds, `globalIds, `dedupe, `log
      ensures Core()
      ensures log == TrimSession(old(log), s, maximumRecords, maximumBytes)
      ensures sessions == old(sessions)[s := Recount(old(sessions)[s], log).(
                evicted := old(sessions)[s].evicted + |Of(old(log), s)| - |Of(log, s)|)]
    {
      hide Core, DropOldest, Of, Fit, Size;
      SessionViews(s);
      DropNone(log, s);
      ghost var before := log;
      ghost var view := Of(log, s);
      var session := sessions[s];
      var ids := recordIds[s];
      var count := 0;
      assert view[0..] == view;
      while ids != [] && (|ids| > maximumRecords || session.capturedBytes > maximumBytes)
        invariant Core()
        invariant count <= |view| && log == DropOldest(before, s, count) && Of(log, s) == view[count..]
        invariant s in sessions && s in recordIds && ids == recordIds[s] == Ids(Of(log, s))
        invariant session.id == s && session == Recount(old(sessions)[s], log)
        invariant sessions == old(sessions)[s := session]
        invariant Fit(view, maximumRecords, maximumBytes) == Fit(view[count..], maximumRecords, maximumBytes)
        decreases |ids|
      {
        DropOldestStep(before, s, count);
        FitCut(view, count, maximumRecords, maximumBytes);
        SliceOfSlice(view, count, 1);
        session := EvictOldest(s);
        count := count + 1;
        ids := recordIds[s];
      }
      FitDone(view[count..], maximumRecords, maximumBytes);
      FitShorter(view, maximumRecords, maximumBytes);
      if count > 0 {
        ChargeSession(sessions[s].(evicted := sessions[s].evicted + count));
      }
    }

    lemma SessionViews(s: Id)
      requires Core() && s in sessions
      ensures sessions[s].id == s && s in recordIds && recordIds[s] == Ids(Of(log, s))
    {
      hide Sound, Of;
      SoundViews(log, records, globalIds, dedupe, sessions, order, recordIds, s);
    }

    /** Store the new row of a session the table holds. */
    method ChargeSession(session: Session)
      requires Core() && session.id in sessions
      modifies `sessions
      ensures Core()
      ensures sessions == old(sessions)[session.id := session]
    {
      hide Sound;
      UpdateKeepsSound(log, records, globalIds, dedupe, sessions, order, recordIds, session);
      sessions := sessions[session.id := session];
    }

    /** `sum(... for item in self._records.values())`, visiting the table in any order. */
    method TotalPayload() returns (total: nat)
      requires Core()
      ensures total == Size(log)
    {
      hide Sound;
      SoundGlobal(log, records, globalIds, dedupe, sessions, order, recordIds);
      total := 0;
      var rest := records.Keys;
      PartSizeWhole(log, rest);
      while rest != {}
        invariant rest <= records.Keys
        invariant total + PartSize(log, rest) == Size(log)
      {
        var id :| id in rest;
        SizeOfPart(log, rest, id, records[id]);
        total := total + records[id].payloadBytes;
        rest := rest - {id};
      }
      PartSizeNone(log);
    }

    /** Refresh one session's counters and charge it with one eviction. */
    method ChargeEviction(s: Id)
      requires Core() && s in sessions
      modifies `sessions
      ensures Core()
      ensures sessions == old(sessions)[s :=
                Recount(old(sessions)[s], log).(evicted := old(sessions)[s].evicted + 1)]
    {
      hide Sound, Of, Size;
      var session := RefreshUsage(s);
      SessionViews(s);
      ChargeSession(session.(evicted := session.evicted + 1));
    }

    method EnforceGlobalCapacity()
      requires Core() && UsageOk(log, sessions)
      modifies `sessions, `records, `recordIds, `globalIds, `dedupe, `log
      ensures Core()
      ensures log == Fit(old(log), globalMaximumRecords, globalMaximumBytes)
      ensures sessions == Evicted(old(sessions), old(log), log)
    {
      hide Sound, Evicted, Of, Fit, Size, Without;
      SoundFront(log, records, globalIds, dedupe, sessions, order, recordIds);
      SoundNames(log, records, globalIds, dedupe, sessions, order, recordIds);
      ghost var before := log;
      ghost var k := 0;
      assert before[0..] == before;
      NothingEvicted(sessions, before);
      var total := TotalPayload();
      while globalIds != [] && (|globalIds| > globalMaximumRecords || total > globalMaximumBytes)
        invariant Core()
        invariant |globalIds| == |log|
        invariant k <= |before| && log == before[k..]
        invariant total == Size(log) && sessions.Keys == old(sessions).Keys
        invariant sessions == Evicted(old(sessions), before, log)
        invariant Fit(before, globalMaximumRecords, globalMaximumBytes) ==
                  Fit(log, globalMaximumRecords, globalMaximumBytes)
        decreases |log|
      {
        SoundFront(log, records, globalIds, dedupe, sessions, order, recordIds);
        ghost var full, was := log, sessions;
        ghost var s := full[0].session;
        FitCut(before, k, globalMaximumRecords, globalMaximumBytes);
        WithoutFront(full);
        var removed := RemoveRecord(globalIds[0]);
        assert removed == Some(full[0]);
        k := k + 1;
        assert log == full[1..] == before[k..];
        FrontEvicted(old(sessions), before, full);
        if removed.Some? {
          ChargeEviction(removed.value.session);
        }
        assert sessions == was[s := Recount(was[s], log).(evicted := was[s].evicted + 1)];
        SoundFront(log, records, globalIds, dedupe, sessions, order, recordIds);
        total := TotalPayload();
      }
      FitDone(log, globalMaximumRecords, globalMaximumBytes);
    }

    /** The loop of `_prune_expired_locked`: every expired session loses its scope and its records. */
    method ReleaseExpired(now: int)
      requires Core() && UsageOk(log, sessions) && ScopesOk(sessions, activeScopes, lastNow)
      requires sessions.Keys <= dropped.Keys
      modifies `sessions, `records, `recordIds, `globalIds, `dedupe, `activeScopes, `log, `dropped
      ensures Core()
      ensures log == PrunedLog(old(log), old(sessions), now)
      ensures sessions == PrunedSessions(old(log), old(sessions), now)
      ensures dropped == DroppedBy(old(dropped), old(log), ExpiredIds(old(sessions), now))
      ensures activeScopes == StillActive(old(activeScopes), ExpiredIds(old(sessions), now))
    {
      hide Sound, UsageOk, ScopesOk, Of, Outside, Size, Recounted, DroppedBy, StillActive, Among;
      SoundNames(log, records, globalIds, dedupe, sessions, order, recordIds);
      SoundOrder(log, records, globalIds, dedupe, sessions, order, recordIds);
      PruneNone(log, sessions, dropped, activeScopes);
      AmongNone(ExpiredIds(sessions, now));
      ghost var gone: set<Id> := {};
      var listed := sessions;
      for i := 0 to |order|
        invariant Core() && sessions.Keys == listed.Keys && dropped.Keys == old(dropped.Keys)
        invariant gone == Among(order[..i], ExpiredIds(listed, now))
        invariant log == Outside(old(log), gone)
        invariant sessions == Recounted(listed, log)
        invariant dropped == DroppedBy(old(dropped), old(log), gone)
        invariant activeScopes == StillActive(old(activeScopes), gone)
      {
        var s := order[i];
        assert s in order;
        AmongStep(order, ExpiredIds(listed, now), i);
        var session := listed[s];
        if session.expiresAt <= now {
          ClearStep(old(log), listed, old(dropped), gone, s);
          ScopeStep(listed, old(activeScopes), lastNow, gone, s);
          ReleaseScope(session);
          ClearSessionRecords(s);
          gone := gone + {s};
        }
      }
      AmongAll(order, ExpiredIds(listed, now));
    }

    method PruneExpired(now: int)
      requires Valid() && lastNow <= now
      modifies `sessions, `records, `recordIds, `globalIds, `dedupe, `activeScopes, `log, `dropped, `lastNow
      ensures Valid() && lastNow == now
      ensures log == PrunedLog(old(log), old(sessions), now)
      ensures sessions == PrunedSessions(old(log), old(sessions), now)
      ensures activeScopes == StillActive(old(activeScopes), ExpiredIds(old(sessions), now))
      ensures dropped == DroppedBy(old(dropped), old(log), ExpiredIds(old(sessions), now))
    {
      hide Sound, UsageOk, ScopesOk, Homed, BoundsOk, HistoryOk, IssuedOk, Of, Outside, Size,
           Recounted, DroppedBy, StillActive;
      SoundNames(log, records, globalIds, dedupe, sessions, order, recordIds);
      HistoryKeys(log, sessions, accepted, dropped);
      ClearingKeeps(log, sessions, accepted, dropped, issued, ExpiredIds(sessions, now),
                    maximumRecords, maximumBytes, globalMaximumRecords, globalMaximumBytes);
      PruningKeeps(log, sessions, activeScopes, lastNow, now);
      RecountedKeys(sessions, PrunedLog(log, sessions, now));
      ReleaseExpired(now);
      lastNow := now;
    }

    // -------------------------------------------------------------- sessions

    /** Remove one session from the table, its order and its list. */
    method ForgetSession(s: Id)
      requires Core() && forall r :: r in log ==> r.session != s
      modifies `sessions, `order, `recordIds
      ensures Core()
      ensures sessions == old(sessions) - {s} && order == RemoveFirst(old(order), s)
    {
      hide Sound;
      ForgetKeepsSound(log, records, globalIds, dedupe, sessions, order, recordIds, s);
      recordIds := recordIds - {s};
      sessions := sessions - {s};
      order := RemoveFirst(order, s);
    }

    /** Forget one expired session: pruning has already taken its records and its scope. */
    method ForgetExpired(s: Id, now: int)
      requires Valid() && lastNow == now && s in sessions && sessions[s].StatusAt(now) == Expired
      modifies `sessions, `order, `recordIds
      ensures Valid()
      ensures sessions == old(sessions) - {s} && order == RemoveFirst(old(order), s)
      ensures |sessions| == |old(sessions)| - 1
    {
      hide Sound, UsageOk, ScopesOk, Homed, BoundsOk, HistoryOk, IssuedOk, Of, Size;
      ExpiredHoldsNothing(log, sessions, activeScopes, now, s);
      ForgetKeeps(log, sessions, activeScopes, accepted, dropped, issued, {s}, now,
                  maximumRecords, maximumBytes, globalMaximumRecords, globalMaximumBytes);
      Sizes(sessions, {s});
      ForgetSession(s);
    }

    /** The table never exceeds its limit and lists exactly the sessions it holds. */
    lemma TableFacts()
      requires Valid()
      ensures |sessions| <= maximumSessions
      ensures forall s :: s in order <==> s in sessions
    {
      hide Sound, UsageOk, ScopesOk, Homed, BoundsOk, HistoryOk, IssuedOk;
      SoundOrder(log, records, globalIds, dedupe, sessions, order, recordIds);
    }

    /** The loop of `_make_session_slot_locked`: forget expired sessions, oldest first, until there is room. */
    method MakeSessionSlot(now: int) returns (ok: bool)
      requires Valid() && lastNow == now
      modifies `sessions, `order, `recordIds
      ensures Valid()
      ensures ok <==> |sessions| < maximumSessions
      ensures var victim := FirstExpired(old(order), old(sessions), now);
              if |old(sessions)| < maximumSessions || victim == None
              then sessions == old(sessions) && order == old(order)
              else sessions == old(sessions) - {victim.value} && order == RemoveFirst(old(order), victim.value)
                   && |sessions| < maximumSessions
    {
      hide Valid;
      TableFacts();
      var listed, ids := sessions, order;
      var i := 0;
      assert ids[0..] == ids;
      while i < |ids|
        invariant i <= |ids| && Valid() && sessions == listed && order == ids && lastNow == now
        invariant FirstExpired(ids, listed, now) == FirstExpired(ids[i..], listed, now)
      {
        if |sessions| < maximumSessions {
          return true;
        }
        var s := ids[i];
        assert s in ids && ids[i..][0] == s && ids[i..][1..] == ids[i + 1..];
        if listed[s].StatusAt(now) == Expired {
          ForgetExpired(s, now);
          return true;
        }
        i := i + 1;
      }
      ok := |sessions| < maximumSessions;
    }

    /** Clear and forget every previous session of a scope that is no longer active. */
    method DiscardScope(scope: Scope)
      requires Valid() && scope !in activeScopes
      modifies `sessions, `order, `records, `recordIds, `globalIds, `dedupe, `log, `dropped
      ensures Valid()
      ensures log == Outside(old(log), SameScope(old(sessions), scope))
      ensures sessions == old(sessions) - SameScope(old(sessions), scope)
      ensures order == Remaining(old(order), SameScope(old(sessions), scope))
    {
      hide Sound, UsageOk, ScopesOk, Homed, BoundsOk, HistoryOk, IssuedOk, Of, Outside, Size, DroppedBy, Recounted;
      ghost var same := SameScope(sessions, scope);
      SoundNames(log, records, globalIds, dedupe, sessions, order, recordIds);
      HistoryKeys(log, sessions, accepted, dropped);
      VacateKeeps(log, sessions, activeScopes, accepted, dropped, issued, scope, lastNow,
                  maximumRecords, maximumBytes, globalMaximumRecords, globalMaximumBytes);
      hide SameScope;
      var previous := ClearScope(scope);
      ForgetAll(previous, same);
    }

    /** First loop: clear the records of every session of the scope, remembering which sessions those were. */
    method ClearScope(scope: Scope) returns (previous: seq<Id>)
      requires Core() && UsageOk(log, sessions) && sessions.Keys <= dropped.Keys
      modifies `sessions, `records, `recordIds, `globalIds, `dedupe, `log, `dropped
      ensures Core()
      ensures log == Outside(old(log), SameScope(old(sessions), scope))
      ensures sessions == Recounted(old(sessions), log)
      ensures dropped == DroppedBy(old(dropped), old(log), SameScope(old(sessions), scope))
      ensures NoDup(previous) && forall s :: s in previous <==> s in SameScope(old(sessions), scope)
    {
      hide Sound, UsageOk, Of, Outside, Size, DroppedBy, Among, Recounted;
      ghost var same, listed := SameScope(sessions, scope), sessions;
      SoundNames(log, records, globalIds, dedupe, sessions, order, recordIds);
      SoundOrder(log, records, globalIds, dedupe, sessions, order, recordIds);
      PruneNone(log, sessions, dropped, map[]);
      AmongNone(same);
      previous := [];
      ghost var gone: set<Id> := {};
      for i := 0 to |order|
        invariant Core() && sessions.Keys == listed.Keys && dropped.Keys == old(dropped.Keys)
        invariant gone == Among(order[..i], same)
        invariant log == Outside(old(log), gone) && sessions == Recounted(listed, log)
        invariant dropped == DroppedBy(old(dropped), old(log), gone)
        invariant NoDup(previous) && forall s :: s in previous <==> s in gone
      {
        var s := order[i];
        assert s in order;
        AmongStep(order, same, i);
        RecountedRow(listed, log, s);
        if sessions[s].scope == scope {
          ClearStep(old(log), listed, old(dropped), gone, s);
          ClearSessionRecords(s);
          previous := previous + [s];
          gone := gone + {s};
        }
      }
      AmongAll(order, same);
    }

    /** Second loop: forget them. */
    method ForgetAll(previous: seq<Id>, ghost same: set<Id>)
      requires Core() && NoDup(previous) && (forall s :: s in previous <==> s in same)
      requires forall r :: r in log ==> r.session !in same
      modifies `sessions, `order, `recordIds
      ensures Core()
      ensures sessions == old(sessions) - same && order == Remaining(old(order), same)
    {
      hide Sound, Remaining, Among;
      SoundOrder(log, records, globalIds, dedupe, sessions, order, recordIds);
      RemainingAll(order);
      AmongNone(same);
      for i := 0 to |previous|
        invariant Core()
        invariant sessions == old(sessions) - Among(previous[..i], same)
        invariant order == Remaining(old(order), Among(previous[..i], same))
      {
        assert previous[i] in previous;
        AmongStep(previous, same, i);
        RemoveFirstRemaining(old(order), Among(previous[..i], same), previous[i]);
        ForgetSession(previous[i]);
      }
      AmongAll(previous, same);
    }

    /** Vacate the scope and make room: everything `start_session` does between its two refusals. */
    method AdmitSession(scope: Scope, now: int) returns (ok: bool)
      requires Valid() && lastNow == now && scope !in activeScopes
      modifies `sessions, `order, `records, `recordIds, `globalIds, `dedupe, `log, `dropped
      ensures Valid()
      ensures log == Outside(old(log), SameScope(old(sessions), scope))
      ensures sessions == Admitting(old(sessions), old(order), scope, maximumSessions, now)
      ensures ok <==> |sessions| < maximumSessions
    {
      hide Sound, UsageOk, Homed, BoundsOk, HistoryOk, IssuedOk, Of, Outside, Size, DroppedBy,
           ScopesOk, FirstExpired, Remaining;
      FirstExpiredRemaining(order, SameScope(sessions, scope), sessions - SameScope(sessions, scope), now);
      DiscardScope(scope);
      ok := MakeSessionSlot(now);
    }

    /** Add one session to the table, its order and its empty list. */
    method AddSession(session: Session)
      requires Core() && session.id !in sessions
      modifies `sessions, `order, `recordIds
      ensures Core()
      ensures sessions == old(sessions)[session.id := session] && order == old(order) + [session.id]
    {
      hide Sound, Of;
      OpenKeepsSound(log, records, globalIds, dedupe, sessions, order, recordIds, session);
      sessions := sessions[session.id := session];
      order := order + [session.id];
      recordIds := recordIds[session.id := []];
    }

    method OpenSession(session: Session)
      requires Valid() && |sessions| < maximumSessions && session.id !in issued
      requires session.recordCount == 0 && session.capturedBytes == 0 && session.evicted == 0
      requires Live(session, lastNow) && forall s :: s in sessions ==> sessions[s].scope != session.scope
      modifies `sessions, `order, `recordIds, `activeScopes, `accepted, `dropped, `issued
      ensures Valid()
      ensures sessions == old(sessions)[session.id := session]
      ensures order == old(order) + [session.id]
      ensures activeScopes == old(activeScopes)[session.scope := session.id]
      ensures accepted == old(accepted)[session.id := []] && issued == old(issued) + {session.id}
    {
      hide Sound, UsageOk, Homed, BoundsOk, HistoryOk, IssuedOk, Of, Outside, Size, ScopesOk;
      IssuedKeys(log, sessions, issued);
      NothingYet(session.id);
      OpenKeeps(log, sessions, activeScopes, accepted, dropped, issued, session, lastNow,
                maximumRecords, maximumBytes, globalMaximumRecords, globalMaximumBytes);
      OneMoreRow(sessions, session.id, session);
      AddSession(session);
      activeScopes := activeScopes[session.scope := session.id];
      accepted, dropped, issued := accepted[session.id := []], dropped[session.id := 0], issued + {session.id};
    }

    lemma NothingYet(id: Id)
      requires Core() && id !in sessions
      ensures Of(log, id) == []
    {
      hide Of, Represents, Lists, Named;
      if Of(log, id) != [] {
        OfMember(log, id, Of(log, id)[0]);
      }
    }

    static lemma OneMoreRow(sessions: map<Id, Session>, id: Id, session: Session)
      requires id !in sessions
      ensures |sessions[id := session]| == |sessions| + 1
    {
      assert (sessions[id := session]).Keys == sessions.Keys + {id};
      assert |sessions.Keys + {id}| == |sessions.Keys| + 1;
    }

    /** What a request asked for, and nothing captured yet. */
    static predicate StartedAs(r: Session, id: Id, owner: string, profile: string, scope: Scope, guildName: string,
                               ttlMinutes: int, now: int)
    {
      && r.id == id && r.owner == owner && r.profile == profile && r.scope == scope && r.guildName == guildName
      && r.startedAt == now && r.expiresAt == now + ttlMinutes * 60_000_000 && r.stoppedAt == None
      && r.recordCount == 0 && r.evicted == 0 && r.capturedBytes == 0
    }

    /** `start_session` for an allowed TTL. */
    method StartInScope(owner: string, profile: string, scope: Scope, guildName: string,
                        ttlMinutes: int, now: int, newId: Id)
      returns (result: Result<Session, StartError>)
      requires Valid() && lastNow <= now && newId !in issued && ttlMinutes > 0
      modifies `sessions, `order, `records, `recordIds, `globalIds, `dedupe, `activeScopes, `log,
               `accepted, `dropped, `issued, `lastNow
      ensures Valid() && lastNow == now
      ensures result != Err(InvalidTtl)
      ensures result == Err(AlreadyActive) <==> ScopeActive(old(sessions), scope, now)
      ensures result == Err(SessionLimit) <==> TableStuck(old(sessions), scope, maximumSessions, now)
      ensures result.Err? ==>
                log == PrunedLog(old(log), old(sessions), now)
                && sessions == PrunedSessions(old(log), old(sessions), now)
                && accepted == old(accepted) && issued == old(issued)
      ensures result.Ok? ==>
                && StartedAs(result.value, newId, owner, profile, scope, guildName, ttlMinutes, now)
                && sessions == Admitting(PrunedSessions(old(log), old(sessions), now), old(order),
                                         scope, maximumSessions, now)[newId := result.value]
                && log == Outside(PrunedLog(old(log), old(sessions), now),
                                  SameScope(PrunedSessions(old(log), old(sessions), now), scope))
                && accepted == old(accepted)[newId := []] && issued == old(issued) + {newId}
                && order != [] && order[|order| - 1] == newId
    {
      hide Sound, UsageOk, Homed, BoundsOk, HistoryOk, IssuedOk, Of, Outside, StillActive, DroppedBy, Size,
           ScopesOk, Admitting, SameScope, PrunedSessions, PrunedLog, ScopeActive, TableStuck;
      SoundOrder(log, records, globalIds, dedupe, sessions, order, recordIds);
      RefusalExact(log, sessions, order, scope, maximumSessions, now);
      PruneExpired(now);
      OutsideNone(log);
      ScopeStatus(sessions, activeScopes, scope, now);
      if scope in activeScopes && activeScopes[scope] in sessions
         && sessions[activeScopes[scope]].StatusAt(now) == Active {
        result := Err(AlreadyActive);
      } else {
        var slot := AdmitSession(scope, now);
        if slot {
          var session := Session(newId, owner, profile, scope, guildName,
                                 now, now + ttlMinutes * MICROS_PER_MINUTE, None, 0, 0, 0);
          OpenSession(session);
          result := Ok(session);
        } else {
          result := Err(SessionLimit);
        }
      }
    }

    method StartSession(owner: string, profile: string, connection: string, guild: string, guildName: string,
                        ttlMinutes: int, now: int, newId: Id)
      returns (result: Result<Session, StartError>)
      requires Valid() && lastNow <= now && newId !in issued
      modifies this
      ensures Valid()
      ensures result == Err(InvalidTtl) <==> ttlMinutes !in {15, 60, 1440}
      ensures result == Err(InvalidTtl) ==>
                log == old(log) && sessions == old(sessions) && activeScopes == old(activeScopes)
                && lastNow == old(lastNow) && accepted == old(accepted) && issued == old(issued)
      ensures result != Err(InvalidTtl) ==> lastNow == now
      // Refused exactly when the scope has an active session, or the table is full and nothing in it may go.
      ensures result == Err(AlreadyActive) <==>
                ttlMinutes in {15, 60, 1440} && ScopeActive(old(sessions), Scope(connection, guild), now)
      ensures result == Err(SessionLimit) <==>
                ttlMinutes in {15, 60, 1440} &&
                TableStuck(old(sessions), Scope(connection, guild), maximumSessions, now)
      ensures result == Err(AlreadyActive) || result == Err(SessionLimit) ==>
                log == PrunedLog(old(log), old(sessions), now)
                && sessions == PrunedSessions(old(log), old(sessions), now)
                && accepted == old(accepted) && issued == old(issued)
      ensures result.Ok? ==>
                && result.value.owner == owner && result.value.profile == profile && result.value.id == newId
                && result.value.scope == Scope(connection, guild) && result.value.guildName == guildName
                && result.value.startedAt == now && result.value.expiresAt == now + ttlMinutes * 60_000_000
                && result.value.stoppedAt == None && result.value.recordCount == 0
                && result.value.evicted == 0 && result.value.capturedBytes == 0
                && sessions == Admitting(PrunedSessions(old(log), old(sessions), now), old(order),
                                         Scope(connection, guild), maximumSessions, now)[newId := result.value]
                && log == Outside(PrunedLog(old(log), old(sessions), now),
                                  SameScope(PrunedSessions(old(log), old(sessions), now), Scope(connection, guild)))
                && accepted == old(accepted)[newId := []] && issued == old(issued) + {newId}
                && order != [] && order[|order| - 1] == newId
    {
      if ttlMinutes !in ALLOWED_TTL_MINUTES {
        return Err(InvalidTtl);
      }
      hide Valid;
      result := StartInScope(owner, profile, Scope(connection, guild), guildName, ttlMinutes, now, newId);
    }

    method StopSession(s: Id, owner: string, now: int) returns (result: Option<Session>)
      requires Valid() && lastNow <= now
      modifies this
      ensures Valid() && lastNow == now
      ensures log == PrunedLog(old(log), old(sessions), now)
      ensures result.Some? <==> s in old(sessions) && old(sessions)[s].owner == owner
      ensures result.None? ==> sessions == PrunedSessions(old(log), old(sessions), now)
      ensures result.Some? ==>
                && sessions == AfterStop(PrunedSessions(old(log), old(sessions), now), s, now)
                && result.value == sessions[s]
                && result.value.StatusAt(now) != Active
                && old(sessions)[s].scope !in activeScopes
      // In the row itself: stopped now if it was still running, and otherwise as it was; nobody else is stopped.
      ensures result.Some? ==>
                var was := old(sessions)[s];
                result.value == was.(
                  stoppedAt := if was.stoppedAt == None && was.expiresAt > now then Some(now) else was.stoppedAt,
                  recordCount := result.value.recordCount, capturedBytes := result.value.capturedBytes)
      ensures sessions.Keys == old(sessions).Keys
      ensures forall t :: t in sessions && t != s ==> sessions[t].stoppedAt == old(sessions)[t].stoppedAt
      ensures accepted == old(accepted) && issued == old(issued) && order == old(order)
    {
      hide Sound, UsageOk, Homed, BoundsOk, HistoryOk, IssuedOk, Of, Outside, StillActive, DroppedBy, Size,
           ScopesOk, Recounted, PrunedLog;
      PrunedStatus(log, sessions, Scope("", ""), now);
      PrunedRows(log, sessions, now);
      PrunedFields(log, sessions, now);
      PruneExpired(now);
      if s !in sessions || sessions[s].owner != owner {
        return None;
      }
      StoppedFields(sessions, s, now);
      MarkStopped(s, now);
      result := Some(sessions[s]);
    }

    method MarkStopped(s: Id, now: int)
      requires Valid() && lastNow == now && s in sessions
      modifies `sessions, `activeScopes
      ensures Valid()
      ensures sessions == AfterStop(old(sessions), s, now)
      ensures activeScopes == Released(old(activeScopes), old(sessions)[s].scope, s)
      ensures old(sessions)[s].scope !in activeScopes && sessions[s].StatusAt(now) != Active
    {
      hide Sound, UsageOk, Homed, BoundsOk, HistoryOk, IssuedOk, Of, Size, ScopesOk;
      SoundNames(log, records, globalIds, dedupe, sessions, order, recordIds);
      StopScopes(sessions, activeScopes, s, now);
      ScopeFreed(sessions, activeScopes, s, now);
      CountersUnaffected(log, sessions, AfterStop(sessions, s, now), accepted, dropped, issued, now,
                         maximumRecords, maximumBytes, globalMaximumRecords, globalMaximumBytes);
      KeysSize(sessions, AfterStop(sessions, s, now));
      var session := sessions[s];
      if session.stoppedAt == None && session.expiresAt > now {
        session := session.(stoppedAt := Some(now));
        UpdateKeepsSound(log, records, globalIds, dedupe, sessions, order, recordIds, session);
        sessions := sessions[s := session];
      }
      assert sessions == AfterStop(old(sessions), s, now);
      ReleaseScope(session);
    }

    /** Undo a start whose audit could not be recorded: the session and everything it captured disappear. */
    method DiscardSession(s: Id, owner: string) returns (found: bool)
      requires Valid()
      modifies this
      ensures Valid() && lastNow == old(lastNow)
      ensures found <==> s in old(sessions) && old(sessions)[s].owner == owner
      ensures !found ==> log == old(log) && sessions == old(sessions) && activeScopes == old(activeScopes)
                         && order == old(order)
      ensures found ==> log == Outside(old(log), {s}) && sessions == old(sessions) - {s}
                        && activeScopes == Released(old(activeScopes), old(sessions)[s].scope, s)
                        && order == RemoveFirst(old(order), s)
      ensures accepted == old(accepted) && issued == old(issued)
    {
      hide Sound, UsageOk, Homed, BoundsOk, HistoryOk, IssuedOk, Of, Outside, DroppedBy, Size, ScopesOk;
      if s !in sessions || sessions[s].owner != owner {
        return false;
      }
      SoundNames(log, records, globalIds, dedupe, sessions, order, recordIds);
      HistoryKeys(log, sessions, accepted, dropped);
      DiscardKeeps(log, sessions, activeScopes, accepted, dropped, issued, s, lastNow,
                   maximumRecords, maximumBytes, globalMaximumRecords, globalMaximumBytes);
      ReleaseScope(sessions[s]);
      ClearSessionRecords(s);
      ForgetSession(s);
      found := true;
    }

    /** Clear the records of one held session. */
    method ClearHeld(s: Id) returns (count: nat)
      requires Valid() && s in sessions
      modifies `sessions, `records, `recordIds, `globalIds, `dedupe, `log, `dropped
      ensures Valid()
      ensures log == Outside(old(log), {s}) && count == |Of(old(log), s)|
      ensures sessions == Recounted(old(sessions), log)
    {
      hide Sound, UsageOk, Homed, BoundsOk, HistoryOk, IssuedOk, Of, Outside, DroppedBy, Size, ScopesOk, Recounted;
      SoundNames(log, records, globalIds, dedupe, sessions, order, recordIds);
      HistoryKeys(log, sessions, accepted, dropped);
      SoundViews(log, records, globalIds, dedupe, sessions, order, recordIds, s);
      ClearOneKeeps(log, sessions, activeScopes, accepted, dropped, issued, s, lastNow,
                    maximumRecords, maximumBytes, globalMaximumRecords, globalMaximumBytes);
      count := |recordIds[s]|;
      ClearSessionRecords(s);
    }

    /** A table whose counters are right is its own recount. */
    lemma CountersRight()
      requires Valid()
      ensures sessions == Recounted(sessions, log)
    {
      hide Sound, Homed, BoundsOk, HistoryOk, IssuedOk, Of, Size, ScopesOk;
      SoundNames(log, records, globalIds, dedupe, sessions, order, recordIds);
      PruneNone(log, sessions, dropped, activeScopes);
    }

    method ClearRecords(s: Id, owner: string, now: int) returns (cleared: Option<nat>)
      requires Valid() && lastNow <= now
      modifies this
      ensures Valid() && lastNow == now
      ensures cleared.Some? <==> s in old(sessions) && old(sessions)[s].owner == owner
      ensures cleared.None? ==> log == PrunedLog(old(log), old(sessions), now)
      ensures cleared.Some? ==>
                && log == Outside(PrunedLog(old(log), old(sessions), now), {s})
                && cleared.value == |Of(PrunedLog(old(log), old(sessions), now), s)|
      ensures sessions == Recounted(PrunedSessions(old(log), old(sessions), now), log)
      ensures activeScopes == StillActive(old(activeScopes), ExpiredIds(old(sessions), now))
      ensures accepted == old(accepted) && issued == old(issued) && order == old(order)
    {
      hide Valid, Of, Outside, PrunedLog, PrunedSessions, Recounted, StillActive;
      PrunedRows(log, sessions, now);
      PruneExpired(now);
      CountersRight();
      if s !in sessions || sessions[s].owner != owner {
        return None;
      }
      var count := ClearHeld(s);
      cleared := Some(count);
    }

    method GetSession(s: Id, owner: string, now: int) returns (result: Option<Session>)
      requires Valid() && lastNow <= now
      modifies this
      ensures Valid() && lastNow == now
      ensures log == PrunedLog(old(log), old(sessions), now)
      ensures sessions == PrunedSessions(old(log), old(sessions), now)
      ensures result == if s in sessions && sessions[s].owner == owner then Some(sessions[s]) else None
      ensures accepted == old(accepted) && issued == old(issued) && order == old(order)
    {
      hide Sound, UsageOk, Homed, BoundsOk, HistoryOk, IssuedOk, ScopesOk, PrunedLog, PrunedSessions;
      PruneExpired(now);
      if s !in sessions || sessions[s].owner != owner {
        return None;
      }
      result := Some(sessions[s]);
    }

    /** The most recently started session of a profile, whatever its status. */
    method CurrentSession(owner: string, profile: string, now: int) returns (result: Option<Session>)
      requires Valid() && lastNow <= now
      modifies this
      ensures Valid() && lastNow == now
      ensures log == PrunedLog(old(log), old(sessions), now)
      ensures sessions == PrunedSessions(old(log), old(sessions), now)
      ensures accepted == old(accepted) && issued == old(issued) && order == old(order)
      ensures result.None? <==> forall s :: s in sessions ==>
                !(sessions[s].owner == owner && sessions[s].profile == profile)
      ensures result.Some? ==>
                exists i :: 0 <= i < |order| && order[i] in sessions && sessions[order[i]] == result.value
                  && result.value.owner == owner && result.value.profile == profile
                  && forall k :: i < k < |order| && order[k] in sessions ==>
                       !(sessions[order[k]].owner == owner && sessions[order[k]].profile == profile)
    {
      hide Sound, UsageOk, Homed, BoundsOk, HistoryOk, IssuedOk, ScopesOk, PrunedLog, PrunedSessions;
      PruneExpired(now);
      SoundOrder(log, records, globalIds, dedupe, sessions, order, recordIds);
      var i := |order|;
      while i > 0
        invariant 0 <= i <= |order| && Valid()
        invariant forall k :: i <= k < |order| && order[k] in sessions ==>
          !(sessions[order[k]].owner == owner && sessions[order[k]].profile == profile)
      {
        i := i - 1;
        assert order[i] in order;
        var session := sessions[order[i]];
        if session.owner == owner && session.profile == profile {
          return Some(session);
        }
      }
      result := None;
    }

    // -------------------------------------------------------------- records

    method Capture(connection: string, guild: string, message: string, channel: string, thread: string,
                   deployment: string, operation: string, step: string, characterCount: int, payload: P,
                   now: int, newId: Id)
      returns (result: Option<Record>)
      requires Valid() && lastNow <= now && newId !in issued
      modifies this
      ensures Valid() && lastNow == now
      ensures var pruned, scope := PrunedLog(old(log), old(sessions), now), Scope(connection, guild);
              var table := PrunedSessions(old(log), old(sessions), now);
              if scope !in activeScopes then
                && result == None && log == pruned && sessions == table
                && accepted == old(accepted) && issued == old(issued)
              else
                var s := activeScopes[scope];
                var key := DedupeKey(s, connection, guild, message, deployment, operation, step);
                var record := Record(newId, s, connection, guild, now, message, channel, thread, deployment,
                                     if characterCount < 0 then 0 else characterCount, |encode(payload)|,
                                     Pending, encode(payload), key);
                if exists r :: r in pruned && r.key == key then
                  && log == pruned && sessions == table && accepted == old(accepted) && issued == old(issued)
                  && result.Some? && result.value in pruned && result.value.key == key
                else
                  && log == Fit(TrimSession(pruned + [record], s, maximumRecords, maximumBytes),
                                globalMaximumRecords, globalMaximumBytes)
                  && sessions == Evicted(table, pruned + [record], log)
                  && s in old(accepted) && accepted == old(accepted)[s := old(accepted)[s] + [newId]]
                  && issued == old(issued) + {newId}
                  && result == if record in log then Some(record) else None
      ensures activeScopes == StillActive(old(activeScopes), ExpiredIds(old(sessions), now))
      ensures order == old(order)
    {
      hide Valid, PrunedLog, PrunedSessions, StillActive, Fit, TrimSession, Evicted;
      PruneExpired(now);
      var scope := Scope(connection, guild);
      ActiveFacts(scope);
      if scope !in activeScopes || activeScopes[scope] !in sessions
         || sessions[activeScopes[scope]].StatusAt(now) != Active {
        return None;
      }
      var s := activeScopes[scope];
      var key := DedupeKey(s, connection, guild, message, deployment, operation, step);
      var known, earlier := FindDuplicate(key);
      if known {
        return earlier;
      }
      var encoded := encode(payload);
      var record := Record(newId, s, connection, guild, now, message, channel, thread, deployment,
                           if characterCount < 0 then 0 else characterCount, |encoded|, Pending, encoded, key);
      HomedOne(sessions, record, now);
      result := Retain(record);
    }

    /** A scope entry names a session of that scope that is still running. */
    lemma ActiveFacts(scope: Scope)
      requires Valid()
      ensures scope in activeScopes ==>
                && activeScopes[scope] in sessions && sessions[activeScopes[scope]].StatusAt(lastNow) == Active
                && sessions[activeScopes[scope]].scope == scope
      ensures scope in activeScopes <==> ScopeActive(sessions, scope, lastNow)
    {
      hide Sound, UsageOk, Homed, BoundsOk, HistoryOk, IssuedOk, ScopesOk;
      ScopeStatus(sessions, activeScopes, scope, lastNow);
    }

    /** The earlier record of the same reply, if one is still retained. */
    method FindDuplicate(key: DedupeKey) returns (known: bool, earlier: Option<Record>)
      requires Valid()
      ensures known <==> exists r :: r in log && r.key == key
      ensures known <==> key in dedupe
      ensures known ==> earlier.Some? && earlier.value in log && earlier.value.key == key
    {
      hide Sound, UsageOk, Homed, BoundsOk, HistoryOk, IssuedOk, ScopesOk;
      SoundGlobal(log, records, globalIds, dedupe, sessions, order, recordIds);
      known := key in dedupe;
      earlier := if known && dedupe[key] in records then Some(records[dedupe[key]]) else None;
    }

    /** Accept one new record and hand it back if capacity enforcement left it in place. */
    method Retain(record: Record) returns (result: Option<Record>)
      requires Valid() && record.session in sessions && Homed([record], sessions, lastNow)
      requires record.id !in issued && record.key !in dedupe
      modifies `sessions, `records, `recordIds, `globalIds, `dedupe, `log, `accepted, `issued
      ensures Valid()
      ensures log == Fit(TrimSession(old(log) + [record], record.session, maximumRecords, maximumBytes),
                         globalMaximumRecords, globalMaximumBytes)
      ensures sessions == Evicted(old(sessions), old(log) + [record], log)
      ensures record.session in old(accepted)
      ensures accepted == old(accepted)[record.session := old(accepted)[record.session] + [record.id]]
      ensures issued == old(issued) + {record.id}
      ensures result == if record in log then Some(record) else None
    {
      hide Sound, UsageOk, Homed, BoundsOk, HistoryOk, IssuedOk, ScopesOk, Of, Fit, TrimSession, Evicted, Size;
      IssuedKeys(log, sessions, issued);
      OnlyNew(log, record, maximumRecords, maximumBytes, globalMaximumRecords, globalMaximumBytes);
      Accept(record);
      LookUp(log, records, globalIds, dedupe, sessions, order, recordIds, record);
      result := if record.id in records then Some(records[record.id]) else None;
    }

    /** Append one new record to every container, then enforce the session's and the global capacity. */
    method Accept(record: Record)
      requires Valid() && record.session in sessions && Homed([record], sessions, lastNow)
      requires record.id !in issued && record.key !in dedupe
      modifies `sessions, `records, `recordIds, `globalIds, `dedupe, `log, `accepted, `issued
      ensures Valid()
      ensures log == Fit(TrimSession(old(log) + [record], record.session, maximumRecords, maximumBytes),
                         globalMaximumRecords, globalMaximumBytes)
      ensures sessions == Evicted(old(sessions), old(log) + [record], log)
      ensures record.session in old(accepted)
      ensures accepted == old(accepted)[record.session := old(accepted)[record.session] + [record.id]]
      ensures issued == old(issued) + {record.id}
    {
      hide Sound, UsageOk, Homed, BoundsOk, HistoryOk, IssuedOk, ScopesOk, Of, Fit, Size, Evicted, TrimSession,
           CutSessions;
      var s := record.session;
      ghost var full := log + [record];
      ghost var trimmed := TrimSession(full, s, maximumRecords, maximumBytes);
      NewRecord(record.id);
      AcceptKeeps(log, sessions, activeScopes, accepted, dropped, issued, lastNow, record,
                  maximumRecords, maximumBytes, globalMaximumRecords, globalMaximumBytes);
      CutTwice(sessions, full, trimmed, s);
      Append(record);
      EnforceCapacity(s);
      EnforceGlobalCapacity();
    }

    lemma NewRecord(id: Id)
      requires Valid() && id !in issued
      ensures id !in records && forall s :: s in sessions ==> sessions[s].id == s
    {
      hide Sound, UsageOk, Homed, BoundsOk, HistoryOk, IssuedOk, ScopesOk;
      NewInLog(log, records, globalIds, dedupe, sessions, order, recordIds, issued, id);
      SoundNames(log, records, globalIds, dedupe, sessions, order, recordIds);
    }

    method Append(record: Record)
      requires Core() && record.session in sessions && record.session in accepted
      requires record.id !in records && record.key !in dedupe
      modifies `sessions, `records, `recordIds, `globalIds, `dedupe, `log, `accepted, `issued
      ensures Core()
      ensures log == old(log) + [record]
      ensures sessions == old(sessions)[record.session := Recount(old(sessions)[record.session], log)]
      ensures accepted == old(accepted)[record.session := old(accepted)[record.session] + [record.id]]
      ensures issued == old(issued) + {record.id}
    {
      hide Sound, Of, Size;
      var s := record.session;
      AppendKeepsSound(log, records, globalIds, dedupe, sessions, order, recordIds, record);
      records := records[record.id := record];
      globalIds := globalIds + [record.id];
      recordIds := recordIds[s := recordIds[s] + [record.id]];
      dedupe := dedupe[record.key := record.id];
      log := log + [record];
      accepted, issued := accepted[s := accepted[s] + [record.id]], issued + {record.id};
      var _ := RefreshUsage(s);
    }

    method MarkOutcome(id: Id, outcome: Outcome, now: int)
      requires Valid() && lastNow <= now
      modifies this
      ensures Valid() && lastNow == now
      ensures log == Marked(PrunedLog(old(log), old(sessions), now), id, outcome)
      ensures var pruned := PrunedLog(old(log), old(sessions), now);
              && |log| == |pruned|
              && forall i :: 0 <= i < |log| ==>
                   log[i] == if pruned[i].id == id then pruned[i].(outcome := outcome) else pruned[i]
      ensures sessions == PrunedSessions(old(log), old(sessions), now)
      ensures accepted == old(accepted) && issued == old(issued) && order == old(order)
    {
      hide Sound, UsageOk, Homed, BoundsOk, HistoryOk, IssuedOk, ScopesOk, PrunedLog, PrunedSessions, Marked;
      PruneExpired(now);
      MarkedRows(log, id, outcome);
      if id in records {
        MarkKeepsSound(log, records, globalIds, dedupe, sessions, order, recordIds, id, outcome);
        MarkKeeps(log, sessions, accepted, dropped, issued, id, outcome, now,
                  maximumRecords, maximumBytes, globalMaximumRecords, globalMaximumBytes);
        records := records[id := records[id].(outcome := outcome)];
        log := Marked(log, id, outcome);
      } else {
        NothingMarked(log, records, globalIds, dedupe, sessions, order, recordIds, id, outcome);
      }
    }

    method GetRecord(id: Id, owner: string, now: int) returns (result: Option<Record>)
      requires Valid() && lastNow <= now
      modifies this
      ensures Valid() && lastNow == now
      ensures log == PrunedLog(old(log), old(sessions), now)
      ensures sessions == PrunedSessions(old(log), old(sessions), now)
      ensures accepted == old(accepted) && issued == old(issued) && order == old(order)
      ensures result.Some? ==> result.value in log && result.value.id == id
                               && result.value.session in sessions && sessions[result.value.session].owner == owner
      ensures result.None? <==> forall r :: r in log && r.id == id ==> sessions[r.session].owner != owner
    {
      hide Sound, UsageOk, Homed, BoundsOk, HistoryOk, IssuedOk, ScopesOk, PrunedLog, PrunedSessions;
      PruneExpired(now);
      SoundGlobal(log, records, globalIds, dedupe, sessions, order, recordIds);
      if id !in records {
        return None;
      }
      var record := records[id];
      if record.session !in sessions || sessions[record.session].owner != owner {
        return None;
      }
      result := Some(record);
    }

    method ListRecords(s: Id, owner: string, page: int, pageSize: int, now: int)
      returns (result: Option<(seq<Record>, nat)>)
      requires Valid() && lastNow <= now && pageSize > 0
      modifies this
      ensures Valid() && lastNow == now
      ensures log == PrunedLog(old(log), old(sessions), now)
      ensures sessions == PrunedSessions(old(log), old(sessions), now)
      ensures accepted == old(accepted) && issued == old(issued) && order == old(order)
      ensures result.Some? <==> s in sessions && sessions[s].owner == owner
      ensures result.Some? ==> result.value == (Page(Reversed(Of(log, s)), page, pageSize), |Of(log, s)|)
    {
      hide Sound, UsageOk, Homed, BoundsOk, HistoryOk, IssuedOk, ScopesOk, PrunedLog, PrunedSessions, Of, Size;
      PruneExpired(now);
      if s !in sessions || sessions[s].owner != owner {
        return None;
      }
      SoundViews(log, records, globalIds, dedupe, sessions, order, recordIds, s);
      PageOfIds(log, records, globalIds, dedupe, sessions, order, recordIds, s, page, pageSize);
      var ids := Reversed(if s in recordIds then recordIds[s] else []);
      var selected := Page(ids, page, pageSize);
      result := Some((Gather(selected, records), |ids|));
    }

    static lemma NothingEvicted(sessions: map<Id, Session>, log: seq<Record>)
      requires UsageOk(log, sessions) && forall s :: s in sessions ==> sessions[s].id == s
      ensures sessions == Evicted(sessions, log, log)
    {
    }

    /** One more eviction from the front is charged to exactly the evicted record's session. */
    static lemma FrontEvicted(sessions: map<Id, Session>, before: seq<Record>, full: seq<Record>)
      requires full != [] && full[0].session in sessions
      requires forall s :: s in sessions ==> sessions[s].id == s
      ensures var s, was := full[0].session, Evicted(sessions, before, full);
              was[s := Recount(was[s], full[1..]).(evicted := was[s].evicted + 1)] ==
              Evicted(sessions, before, full[1..])
    {
      hide Of, Size;
      var s, was, now := full[0].session, Evicted(sessions, before, full), Evicted(sessions, before, full[1..]);
      var step := was[s := Recount(was[s], full[1..]).(evicted := was[s].evicted + 1)];
      assert full == [full[0]] + full[1..];
      forall t | t in sessions
        ensures step[t] == now[t]
      {
        OfCons(full[0], full[1..], t);
        EvictedRow(sessions, before, full, t);
        EvictedRow(sessions, before, full[1..], t);
        hide Evicted;
      }
    }
  }
}
