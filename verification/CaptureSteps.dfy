/** What each public operation of the capture store does to the invariants, over plain values. */
module CaptureSteps {
  import opened Arithmetic
  import opened Wrappers
  import opened CaptureLog
  import opened CaptureIndex

  // ---------------------------------------------------------------- capture

  /** The session table after one session was recounted for `full` and then cut down to `trimmed`. */
  function CutSessions(sessions: map<Id, Session>, full: seq<Record>, trimmed: seq<Record>, s: Id): map<Id, Session>
    requires s in sessions
  {
    sessions[s := Recount(sessions[s], trimmed).(
      evicted := sessions[s].evicted + |Of(full, s)| - |Of(trimmed, s)|)]
  }

  lemma CutUsage(
    sessions: map<Id, Session>, base: seq<Record>, full: seq<Record>, trimmed: seq<Record>, s: Id)
    requires s in sessions && forall t :: t in sessions ==> sessions[t].id == t
    requires UsageOk(base, sessions)
    requires forall t :: t != s ==> Of(base, t) == Of(trimmed, t)
    ensures UsageOk(trimmed, CutSessions(sessions, full, trimmed, s))
  {
    hide Of, Size;
  }

  lemma CutTwice(sessions: map<Id, Session>, full: seq<Record>, trimmed: seq<Record>, s: Id)
    requires s in sessions && sessions[s].id == s
    ensures var grown := sessions[s := Recount(sessions[s], full)];
            grown[s := Recount(grown[s], trimmed).(evicted := grown[s].evicted + |Of(full, s)| - |Of(trimmed, s)|)] ==
            CutSessions(sessions, full, trimmed, s)
  {
    hide Of, Size;
  }

  /** After a session-level and then a global eviction, every session is charged with exactly what it lost. */
  lemma EvictedCompose(
    sessions: map<Id, Session>, full: seq<Record>, trimmed: seq<Record>, last: seq<Record>, s: Id)
    requires s in sessions && forall t :: t != s ==> Of(full, t) == Of(trimmed, t)
    ensures Evicted(CutSessions(sessions, full, trimmed, s), trimmed, last) == Evicted(sessions, full, last)
  {
    hide Of, Size, Evicted, CutSessions;
    ComposedKeys(sessions, full, trimmed, last, s);
    var a, b := Evicted(CutSessions(sessions, full, trimmed, s), trimmed, last), Evicted(sessions, full, last);
    forall t | t in sessions
      ensures a[t] == b[t]
    {
      ComposedRow(sessions, full, trimmed, last, s, t);
    }
    assert a == b;
  }

  lemma ComposedKeys(
    sessions: map<Id, Session>, full: seq<Record>, trimmed: seq<Record>, last: seq<Record>, s: Id)
    requires s in sessions
    ensures Evicted(CutSessions(sessions, full, trimmed, s), trimmed, last).Keys == sessions.Keys
    ensures Evicted(sessions, full, last).Keys == sessions.Keys
  {
    hide Of, Size, Recount;
    assert CutSessions(sessions, full, trimmed, s).Keys == sessions.Keys;
  }

  lemma ComposedRow(
    sessions: map<Id, Session>, full: seq<Record>, trimmed: seq<Record>, last: seq<Record>, s: Id, t: Id)
    requires s in sessions && t in sessions && (t != s ==> Of(full, t) == Of(trimmed, t))
    ensures var a, b := Evicted(CutSessions(sessions, full, trimmed, s), trimmed, last), Evicted(sessions, full, last);
            t in a && t in b && a[t] == b[t]
  {
    CutRow(sessions, full, trimmed, s, t);
    hide Of, Size, CutSessions;
    EvictedRow(CutSessions(sessions, full, trimmed, s), trimmed, last, t);
    EvictedRow(sessions, full, last, t);
    hide Evicted;
  }

  lemma EvictedRow(sessions: map<Id, Session>, full: seq<Record>, last: seq<Record>, t: Id)
    requires t in sessions
    ensures t in Evicted(sessions, full, last)
    ensures Evicted(sessions, full, last)[t] ==
            Recount(sessions[t], last).(evicted := sessions[t].evicted + |Of(full, t)| - |Of(last, t)|)
  {
  }

  lemma CutRow(sessions: map<Id, Session>, full: seq<Record>, trimmed: seq<Record>, s: Id, t: Id)
    requires s in sessions && t in sessions
    ensures t in CutSessions(sessions, full, trimmed, s)
    ensures CutSessions(sessions, full, trimmed, s)[t] ==
            if t != s then sessions[t]
            else Recount(sessions[t], trimmed).(evicted := sessions[t].evicted + |Of(full, t)| - |Of(trimmed, t)|)
  {
  }

  lemma TrimViews(log: seq<Record>, s: Id, count: nat, bytes: nat, t: Id)
    ensures Of(TrimSession(log, s, count, bytes), t) == if s == t then Fit(Of(log, s), count, bytes) else Of(log, t)
  {
    FitShorter(Of(log, s), count, bytes);
    DropOldestViews(log, s, |Of(log, s)| - |Fit(Of(log, s), count, bytes)|, t);
  }

  lemma {:induction false} DropOldestMember(log: seq<Record>, s: Id, k: nat, r: Record)
    ensures r in DropOldest(log, s, k) ==> r in log
  {
    if log != [] && k != 0 {
      DropOldestMember(log[1..], s, if log[0].session == s then k - 1 else k, r);
    }
  }

  lemma SuffixOfSuffix(all: seq<Record>, view: seq<Record>, kept: seq<Record>)
    requires |view| <= |all| && view == all[|all| - |view|..]
    requires |kept| <= |view| && kept == view[|view| - |kept|..]
    ensures kept == all[|all| - |kept|..]
    ensures Size(kept) <= Size(view) <= Size(all)
  {
    hide Size;
    SizeSuffix(view, |view| - |kept|);
    SizeSuffix(all, |all| - |view|);
    SliceOfSlice(all, |all| - |view|, |view| - |kept|);
  }

  lemma SliceOfSlice<T>(s: seq<T>, a: nat, b: nat)
    requires a + b <= |s|
    ensures s[a..][b..] == s[a + b..]
  {
  }

  /** What capacity enforcement retains of any one session is a suffix of what that session had. */
  lemma RetainedIsSuffix(
    full: seq<Record>, s: Id, records: nat, bytes: nat, globalRecords: nat, globalBytes: nat, t: Id)
    ensures var last := Fit(TrimSession(full, s, records, bytes), globalRecords, globalBytes);
            && |Of(last, t)| <= |Of(full, t)|
            && Of(last, t) == Of(full, t)[|Of(full, t)| - |Of(last, t)|..]
            && (t == s ==> Fits(Of(last, t), records, bytes))
            && (Fits(Of(full, t), records, bytes) ==> Fits(Of(last, t), records, bytes))
  {
    hide Of, Fit, TrimSession, Size;
    var trimmed := TrimSession(full, s, records, bytes);
    var last := Fit(trimmed, globalRecords, globalBytes);
    var all, view, kept := Of(full, t), Of(trimmed, t), Of(last, t);
    TrimViews(full, s, records, bytes, t);
    FitShorter(trimmed, globalRecords, globalBytes);
    OfSuffix(trimmed, |trimmed| - |last|, t);
    if t == s {
      FitIsLongestFittingSuffix(all, records, bytes, 0);
    } else {
      assert view == all[0..];
    }
    SuffixOfSuffix(all, view, kept);
  }

  lemma RetainedMember(
    full: seq<Record>, s: Id, records: nat, bytes: nat, globalRecords: nat, globalBytes: nat, q: Record)
    requires q in Fit(TrimSession(full, s, records, bytes), globalRecords, globalBytes)
    ensures q in full
  {
    FitShorter(Of(full, s), records, bytes);
    FitShorter(TrimSession(full, s, records, bytes), globalRecords, globalBytes);
    DropOldestMember(full, s, |Of(full, s)| - |Fit(Of(full, s), records, bytes)|, q);
  }

  /** Accepting a record and enforcing both capacities keeps the bounds and the accounts. */
  lemma CaptureKeeps(
    log: seq<Record>, sessions: map<Id, Session>, accepted: map<Id, seq<Id>>, dropped: map<Id, nat>,
    issued: set<Id>, now: int, r: Record, records: nat, bytes: nat, globalRecords: nat, globalBytes: nat)
    requires BoundsOk(log, sessions, records, bytes, globalRecords, globalBytes)
    requires HistoryOk(log, sessions, accepted, dropped) && IssuedOk(log, sessions, issued)
    requires Homed(log, sessions, now) && Homed([r], sessions, now)
    requires forall t :: t in sessions ==> sessions[t].id == t
    ensures r.session in accepted
    ensures var full := log + [r];
            var last := Fit(TrimSession(full, r.session, records, bytes), globalRecords, globalBytes);
            var sessions' := Evicted(sessions, full, last);
            && BoundsOk(last, sessions', records, bytes, globalRecords, globalBytes)
            && HistoryOk(last, sessions', accepted[r.session := accepted[r.session] + [r.id]], dropped)
            && IssuedOk(last, sessions', issued + {r.id})
            && Homed(last, sessions', now)
            && UsageOk(last, sessions')
  {
    hide Of, Size, Fit, TrimSession;
    assert r in [r];
    var full := log + [r];
    var last := Fit(TrimSession(full, r.session, records, bytes), globalRecords, globalBytes);
    FitIsLongestFittingSuffix(TrimSession(full, r.session, records, bytes), globalRecords, globalBytes, 0);
    CaptureHistory(log, sessions, accepted, dropped, r, records, bytes, globalRecords, globalBytes);
    hide HistoryOk, BoundsOk;
    forall q | q in last
      ensures q in full
    {
      RetainedMember(full, r.session, records, bytes, globalRecords, globalBytes, q);
    }
  }

  lemma CaptureHistory(
    log: seq<Record>, sessions: map<Id, Session>, accepted: map<Id, seq<Id>>, dropped: map<Id, nat>,
    r: Record, records: nat, bytes: nat, globalRecords: nat, globalBytes: nat)
    requires BoundsOk(log, sessions, records, bytes, globalRecords, globalBytes)
    requires HistoryOk(log, sessions, accepted, dropped) && r.session in sessions
    requires forall t :: t in sessions ==> sessions[t].id == t
    ensures r.session in accepted
    ensures var full := log + [r];
            var last := Fit(TrimSession(full, r.session, records, bytes), globalRecords, globalBytes);
            var sessions' := Evicted(sessions, full, last);
            && BoundsOk(last, sessions', records, bytes, globalRecords, globalBytes)
            && HistoryOk(last, sessions', accepted[r.session := accepted[r.session] + [r.id]], dropped)
  {
    hide Of, Size, Fit, TrimSession;
    var full := log + [r];
    var last := Fit(TrimSession(full, r.session, records, bytes), globalRecords, globalBytes);
    var sessions' := Evicted(sessions, full, last);
    var accepted' := accepted[r.session := accepted[r.session] + [r.id]];
    FitIsLongestFittingSuffix(TrimSession(full, r.session, records, bytes), globalRecords, globalBytes, 0);
    forall t | t in sessions'
      ensures Fits(Of(last, t), records, bytes)
      ensures Accounted(last, t, sessions'[t], accepted'[t], dropped[t])
    {
      CaptureAccounts(log, r, t, sessions[t], accepted[t], dropped[t], records, bytes, globalRecords, globalBytes);
    }
  }

  lemma CaptureAccounts(
    log: seq<Record>, r: Record, t: Id, session: Session, accepted: seq<Id>, dropped: nat,
    records: nat, bytes: nat, globalRecords: nat, globalBytes: nat)
    requires Fits(Of(log, t), records, bytes) && Accounted(log, t, session, accepted, dropped)
    ensures var full := log + [r];
            var last := Fit(TrimSession(full, r.session, records, bytes), globalRecords, globalBytes);
            && Fits(Of(last, t), records, bytes)
            && Accounted(last, t, session.(evicted := session.evicted + |Of(full, t)| - |Of(last, t)|),
                         if t == r.session then accepted + [r.id] else accepted, dropped)
  {
    hide Of, Fit, TrimSession, Ids, Size;
    var full := log + [r];
    var last := Fit(TrimSession(full, r.session, records, bytes), globalRecords, globalBytes);
    var was, all, kept := Of(log, t), Of(full, t), Of(last, t);
    ViewAppend(log, r, t);
    RetainedIsSuffix(full, r.session, records, bytes, globalRecords, globalBytes, t);
    var accepted' := if t == r.session then accepted + [r.id] else accepted;
    if t == r.session {
      IdsAppend(was, r);
      AppendSuffix(accepted, |accepted| - |was|, r.id);
    }
    assert Ids(all) == accepted'[|accepted'| - |all|..];
    IdsSuffix(all, |all| - |kept|);
    SliceOfSlice(accepted', |accepted'| - |all|, |all| - |kept|);
  }

  lemma ViewAppend(log: seq<Record>, r: Record, t: Id)
    ensures Of(log + [r], t) == if r.session == t then Of(log, t) + [r] else Of(log, t)
  {
    OfAppend(log, [r], t);
    assert Of([r], t) == if r.session == t then [r] else [];
  }

  lemma IdsAppend(log: seq<Record>, r: Record)
    ensures Ids(log + [r]) == Ids(log) + [r.id]
  {
  }

  lemma IdsSuffix(log: seq<Record>, k: nat)
    requires k <= |log|
    ensures Ids(log[k..]) == Ids(log)[k..] && |Ids(log)| == |log|
  {
  }

  lemma AppendSuffix<T>(s: seq<T>, k: nat, x: T)
    requires k <= |s|
    ensures (s + [x])[k..] == s[k..] + [x]
  {
  }

  /** Only identity, scope, expiry and stopping decide who holds a scope. */
  lemma ScopesUnaffected(sessions: map<Id, Session>, sessions': map<Id, Session>, active: map<Scope, Id>, now: int)
    requires ScopesOk(sessions, active, now) && sessions'.Keys == sessions.Keys
    requires forall s :: s in sessions ==>
      sessions'[s].scope == sessions[s].scope && sessions'[s].expiresAt == sessions[s].expiresAt &&
      sessions'[s].stoppedAt == sessions[s].stoppedAt
    ensures ScopesOk(sessions', active, now)
  {
  }

  lemma EvictedScopes(
    sessions: map<Id, Session>, full: seq<Record>, last: seq<Record>, active: map<Scope, Id>, now: int)
    requires ScopesOk(sessions, active, now)
    ensures ScopesOk(Evicted(sessions, full, last), active, now)
    ensures Evicted(sessions, full, last).Keys == sessions.Keys
    ensures |Evicted(sessions, full, last)| == |sessions|
  {
    assert Evicted(sessions, full, last).Keys == sessions.Keys;
    ScopesUnaffected(sessions, Evicted(sessions, full, last), active, now);
  }

  // ---------------------------------------------------------------- stopping, marking

  /** The other invariants do not depend on whether a session is stopped. */
  lemma CountersUnaffected(
    log: seq<Record>, sessions: map<Id, Session>, sessions': map<Id, Session>, accepted: map<Id, seq<Id>>,
    dropped: map<Id, nat>, issued: set<Id>, now: int, records: nat, bytes: nat, globalRecords: nat, globalBytes: nat)
    requires UsageOk(log, sessions) && Homed(log, sessions, now)
    requires BoundsOk(log, sessions, records, bytes, globalRecords, globalBytes)
    requires HistoryOk(log, sessions, accepted, dropped) && IssuedOk(log, sessions, issued)
    requires sessions'.Keys == sessions.Keys
    requires forall s :: s in sessions ==> sessions'[s] == sessions[s].(stoppedAt := sessions'[s].stoppedAt)
    ensures UsageOk(log, sessions') && Homed(log, sessions', now)
    ensures BoundsOk(log, sessions', records, bytes, globalRecords, globalBytes)
    ensures HistoryOk(log, sessions', accepted, dropped) && IssuedOk(log, sessions', issued)
  {
    hide Of, Size;
  }

  function AfterStop(sessions: map<Id, Session>, s: Id, now: int): map<Id, Session>
    requires s in sessions
  {
    sessions[s := if Live(sessions[s], now) then sessions[s].(stoppedAt := Some(now)) else sessions[s]]
  }

  function Released(active: map<Scope, Id>, c: Scope, s: Id): map<Scope, Id> {
    if c in active && active[c] == s then active - {c} else active
  }

  /** Stopping a session frees its scope and nobody else's. */
  lemma StopScopes(sessions: map<Id, Session>, active: map<Scope, Id>, s: Id, now: int)
    requires s in sessions && ScopesOk(sessions, active, now)
    ensures AfterStop(sessions, s, now).Keys == sessions.Keys
    ensures ScopesOk(AfterStop(sessions, s, now), Released(active, sessions[s].scope, s), now)
  {
    var after := AfterStop(sessions, s, now);
    assert after.Keys == sessions.Keys;
    StopRows(sessions, s, now);
    hide AfterStop;
  }

  lemma StopRows(sessions: map<Id, Session>, s: Id, now: int)
    requires s in sessions
    ensures forall t :: t in sessions ==>
              var after := AfterStop(sessions, s, now);
              && t in after && after[t].scope == sessions[t].scope
              && (Live(after[t], now) <==> t != s && Live(sessions[t], now))
  {
  }

  lemma MarkedRows(log: seq<Record>, id: Id, outcome: Outcome)
    ensures |Marked(log, id, outcome)| == |log|
    ensures forall i :: 0 <= i < |log| ==>
              Marked(log, id, outcome)[i] == if log[i].id == id then log[i].(outcome := outcome) else log[i]
  {
  }

  /** Pruning changes nothing of a row but its counters. */
  lemma PrunedFields(log: seq<Record>, sessions: map<Id, Session>, now: int)
    ensures var pruned := PrunedSessions(log, sessions, now);
            pruned.Keys == sessions.Keys && forall s :: s in sessions ==>
              pruned[s] == sessions[s].(recordCount := pruned[s].recordCount, capturedBytes := pruned[s].capturedBytes)
  {
    hide Of, Size, Outside;
    assert PrunedSessions(log, sessions, now).Keys == sessions.Keys;
  }

  lemma StoppedFields(sessions: map<Id, Session>, s: Id, now: int)
    requires s in sessions
    ensures var after, was := AfterStop(sessions, s, now), sessions[s];
            && after.Keys == sessions.Keys
            && after[s] == was.(stoppedAt := if was.stoppedAt == None && was.expiresAt > now then Some(now)
                                             else was.stoppedAt)
            && forall t :: t in sessions && t != s ==> after[t] == sessions[t]
  {
    assert AfterStop(sessions, s, now).Keys == sessions.Keys;
  }

  lemma MarkedMember(log: seq<Record>, id: Id, outcome: Outcome)
    ensures |Marked(log, id, outcome)| == |log| && Ids(Marked(log, id, outcome)) == Ids(log)
    ensures forall r :: r in Marked(log, id, outcome) ==>
              exists q :: q in log && r == if q.id == id then q.(outcome := outcome) else q
    ensures forall q :: q in log ==> (if q.id == id then q.(outcome := outcome) else q) in Marked(log, id, outcome)
  {
    var log' := Marked(log, id, outcome);
    forall r | r in log'
      ensures exists q :: q in log && r == if q.id == id then q.(outcome := outcome) else q
    {
      var k :| 0 <= k < |log'| && log'[k] == r;
      assert log[k] in log && r == if log[k].id == id then log[k].(outcome := outcome) else log[k];
    }
    forall q | q in log
      ensures (if q.id == id then q.(outcome := outcome) else q) in log'
    {
      var k :| 0 <= k < |log| && log[k] == q;
      assert log'[k] in log';
    }
  }

  /** The record table after an outcome was stored. */
  function MarkedTable(records: map<Id, Record>, id: Id, outcome: Outcome): map<Id, Record>
    requires id in records
  {
    records[id := records[id].(outcome := outcome)]
  }

  lemma MarkedTableRows(records: map<Id, Record>, id: Id, outcome: Outcome)
    requires id in records
    ensures MarkedTable(records, id, outcome).Keys == records.Keys
    ensures forall q :: q in records ==>
              MarkedTable(records, id, outcome)[q] == if q == id then records[q].(outcome := outcome) else records[q]
  {
  }

  lemma MarkedRow(
    log: seq<Record>, records: map<Id, Record>, dedupe: map<DedupeKey, Id>, id: Id, outcome: Outcome, i: nat)
    requires Tabulated(log, records, dedupe) && id in records && i < |log|
    ensures var r, records' := Marked(log, id, outcome)[i], MarkedTable(records, id, outcome);
            r.id in records' && records'[r.id] == r && r.key in dedupe && dedupe[r.key] == r.id
  {
    assert log[i] in log;
  }

  lemma MarkedEntry(
    log: seq<Record>, records: map<Id, Record>, dedupe: map<DedupeKey, Id>, id: Id, outcome: Outcome, k: Id)
    requires Tabulated(log, records, dedupe) && id in records && k in records
    ensures var log', records' := Marked(log, id, outcome), MarkedTable(records, id, outcome);
            records'[k].id == k && records'[k].key == records[k].key && records'[k] in log'
  {
    var i :| 0 <= i < |log| && log[i] == records[k];
    assert Marked(log, id, outcome)[i] == MarkedTable(records, id, outcome)[k];
  }

  lemma MarkKeepsTable(
    log: seq<Record>, records: map<Id, Record>, dedupe: map<DedupeKey, Id>, id: Id, outcome: Outcome)
    requires Tabulated(log, records, dedupe) && id in records
    ensures Tabulated(Marked(log, id, outcome), MarkedTable(records, id, outcome), dedupe)
  {
    var log', records' := Marked(log, id, outcome), MarkedTable(records, id, outcome);
    MarkedTableRows(records, id, outcome);
    assert |log'| == |log|;
    hide MarkedTable, Marked;
    forall r | r in log'
      ensures r.id in records' && records'[r.id] == r && r.key in dedupe && dedupe[r.key] == r.id
    {
      var i :| 0 <= i < |log'| && log'[i] == r;
      MarkedRow(log, records, dedupe, id, outcome, i);
    }
    forall k | k in records'
      ensures records'[k].id == k && records'[k].key == records[k].key && records'[k] in log'
    {
      MarkedEntry(log, records, dedupe, id, outcome, k);
    }
  }

  lemma MarkKeepsRepresentation(
    log: seq<Record>, records: map<Id, Record>, globalIds: seq<Id>, dedupe: map<DedupeKey, Id>,
    id: Id, outcome: Outcome)
    requires Represents(log, records, globalIds, dedupe) && id in records
    ensures Represents(Marked(log, id, outcome), MarkedTable(records, id, outcome), globalIds, dedupe)
  {
    MarkedMember(log, id, outcome);
    hide Marked, Ids, MarkedTable, Tabulated;
    MarkKeepsTable(log, records, dedupe, id, outcome);
  }

  /** Recording an outcome keeps the containers sound for the marked log. */
  lemma MarkKeepsSound(
    log: seq<Record>, records: map<Id, Record>, globalIds: seq<Id>, dedupe: map<DedupeKey, Id>,
    sessions: map<Id, Session>, order: seq<Id>, recordIds: map<Id, seq<Id>>, id: Id, outcome: Outcome)
    requires Sound(log, records, globalIds, dedupe, sessions, order, recordIds) && id in records
    ensures Sound(Marked(log, id, outcome), MarkedTable(records, id, outcome), globalIds, dedupe,
                  sessions, order, recordIds)
  {
    hide MarkedTable, Represents, Of, Ids, Named, Marked;
    MarkKeepsRepresentation(log, records, globalIds, dedupe, id, outcome);
    MarkedMember(log, id, outcome);
    forall s | s in recordIds
      ensures recordIds[s] == Ids(Of(Marked(log, id, outcome), s))
    {
      MarkKeepsViews(log, id, outcome, s);
    }
  }

  lemma MarkKeeps(
    log: seq<Record>, sessions: map<Id, Session>, accepted: map<Id, seq<Id>>,
    dropped: map<Id, nat>, issued: set<Id>, id: Id, outcome: Outcome, now: int,
    records: nat, bytes: nat, globalRecords: nat, globalBytes: nat)
    requires UsageOk(log, sessions) && Homed(log, sessions, now)
    requires BoundsOk(log, sessions, records, bytes, globalRecords, globalBytes)
    requires HistoryOk(log, sessions, accepted, dropped) && IssuedOk(log, sessions, issued)
    ensures var log' := Marked(log, id, outcome);
            && UsageOk(log', sessions) && Homed(log', sessions, now)
            && BoundsOk(log', sessions, records, bytes, globalRecords, globalBytes)
            && HistoryOk(log', sessions, accepted, dropped) && IssuedOk(log', sessions, issued)
  {
    hide Of, Size, Marked;
    var log' := Marked(log, id, outcome);
    MarkedMember(log, id, outcome);
    MarkKeepsViews(log, id, outcome, 0);
    forall s | s in sessions
      ensures |Of(log', s)| == |Of(log, s)| && Size(Of(log', s)) == Size(Of(log, s))
                && Ids(Of(log', s)) == Ids(Of(log, s))
    {
      MarkKeepsViews(log, id, outcome, s);
      assert |Ids(Of(log', s))| == |Ids(Of(log, s))|;
    }
    assert HistoryOk(log', sessions, accepted, dropped) by {
      forall s | s in sessions
        ensures Accounted(log', s, sessions[s], accepted[s], dropped[s])
      {
        assert Accounted(log, s, sessions[s], accepted[s], dropped[s]);
      }
    }
  }

  // ---------------------------------------------------------------- opening and forgetting

  lemma ForgetCounters(
    log: seq<Record>, sessions: map<Id, Session>, accepted: map<Id, seq<Id>>,
    dropped: map<Id, nat>, issued: set<Id>, gone: set<Id>, now: int,
    records: nat, bytes: nat, globalRecords: nat, globalBytes: nat)
    requires UsageOk(log, sessions) && Homed(log, sessions, now)
    requires BoundsOk(log, sessions, records, bytes, globalRecords, globalBytes)
    requires HistoryOk(log, sessions, accepted, dropped) && IssuedOk(log, sessions, issued)
    requires forall r :: r in log ==> r.session !in gone
    ensures var sessions' := sessions - gone;
            && UsageOk(log, sessions') && Homed(log, sessions', now)
            && BoundsOk(log, sessions', records, bytes, globalRecords, globalBytes)
            && HistoryOk(log, sessions', accepted, dropped) && IssuedOk(log, sessions', issued)
  {
    hide Of, Size;
  }

  /** Removing sessions that hold neither records nor a scope keeps every invariant. */
  lemma ForgetKeeps(
    log: seq<Record>, sessions: map<Id, Session>, active: map<Scope, Id>, accepted: map<Id, seq<Id>>,
    dropped: map<Id, nat>, issued: set<Id>, gone: set<Id>, now: int,
    records: nat, bytes: nat, globalRecords: nat, globalBytes: nat)
    requires UsageOk(log, sessions) && ScopesOk(sessions, active, now) && Homed(log, sessions, now)
    requires BoundsOk(log, sessions, records, bytes, globalRecords, globalBytes)
    requires HistoryOk(log, sessions, accepted, dropped) && IssuedOk(log, sessions, issued)
    requires forall r :: r in log ==> r.session !in gone
    requires forall c :: c in active ==> active[c] !in gone
    ensures var sessions' := sessions - gone;
            && UsageOk(log, sessions') && ScopesOk(sessions', active, now) && Homed(log, sessions', now)
            && BoundsOk(log, sessions', records, bytes, globalRecords, globalBytes)
            && HistoryOk(log, sessions', accepted, dropped) && IssuedOk(log, sessions', issued)
  {
    hide Of, Size;
  }

  lemma OpenScopes(sessions: map<Id, Session>, active: map<Scope, Id>, session: Session, now: int)
    requires ScopesOk(sessions, active, now) && session.id !in sessions
    requires Live(session, now) && forall s :: s in sessions ==> sessions[s].scope != session.scope
    ensures ScopesOk(sessions[session.id := session], active[session.scope := session.id], now)
  {
  }

  /** A new session in a free scope starts with nothing accepted. */
  lemma OpenKeeps(
    log: seq<Record>, sessions: map<Id, Session>, active: map<Scope, Id>, accepted: map<Id, seq<Id>>,
    dropped: map<Id, nat>, issued: set<Id>, session: Session, now: int,
    records: nat, bytes: nat, globalRecords: nat, globalBytes: nat)
    requires UsageOk(log, sessions) && ScopesOk(sessions, active, now) && Homed(log, sessions, now)
    requires BoundsOk(log, sessions, records, bytes, globalRecords, globalBytes)
    requires HistoryOk(log, sessions, accepted, dropped) && IssuedOk(log, sessions, issued)
    requires session.id !in issued && Of(log, session.id) == []
    requires session.recordCount == 0 && session.capturedBytes == 0 && session.evicted == 0
    requires Live(session, now) && forall s :: s in sessions ==> sessions[s].scope != session.scope
    ensures var sessions' := sessions[session.id := session];
            && UsageOk(log, sessions') && ScopesOk(sessions', active[session.scope := session.id], now)
            && Homed(log, sessions', now)
            && BoundsOk(log, sessions', records, bytes, globalRecords, globalBytes)
            && HistoryOk(log, sessions', accepted[session.id := []], dropped[session.id := 0])
            && IssuedOk(log, sessions', issued + {session.id})
  {
    hide Of;
    var sessions' := sessions[session.id := session];
    var accepted', dropped' := accepted[session.id := []], dropped[session.id := 0];
    assert Size([]) == 0 && Ids([]) == [];
    OpenScopes(sessions, active, session, now);
    hide Size, ScopesOk;
    forall s | s in sessions'
      ensures s in accepted' && s in dropped' && Accounted(log, s, sessions'[s], accepted'[s], dropped'[s])
    {
      if s != session.id {
        assert Accounted(log, s, sessions[s], accepted[s], dropped[s]);
      }
    }
  }

  lemma ClearedHomed(log: seq<Record>, sessions: map<Id, Session>, gone: set<Id>, now: int)
    requires Homed(log, sessions, now)
    ensures Homed(Outside(log, gone), sessions, now)
    ensures forall r :: r in Outside(log, gone) ==> r.session !in gone
  {
    forall r | r in Outside(log, gone)
      ensures r in log && r.session !in gone
    {
      OutsideMember(log, gone, r);
    }
  }

  /** Clearing a set of sessions and forgetting them leaves the other sessions' rows untouched. */
  lemma ClearedRows(log: seq<Record>, sessions: map<Id, Session>, gone: set<Id>)
    requires UsageOk(log, sessions) && forall s :: s in sessions ==> sessions[s].id == s
    ensures Recounted(sessions, Outside(log, gone)) - gone == sessions - gone
  {
    var a, b := Recounted(sessions, Outside(log, gone)) - gone, sessions - gone;
    assert a.Keys == b.Keys;
    forall s | s in b
      ensures a[s] == b[s]
    {
      OutsideOf(log, gone, s);
    }
  }

  /** A scope entry exists exactly while the scope has an active session. */
  lemma ScopeStatus(sessions: map<Id, Session>, active: map<Scope, Id>, scope: Scope, now: int)
    requires ScopesOk(sessions, active, now)
    ensures scope in active ==> active[scope] in sessions && sessions[active[scope]].StatusAt(now) == Active
                                && sessions[active[scope]].scope == scope
    ensures scope in active <==> ScopeActive(sessions, scope, now)
  {
    if s :| s in sessions && sessions[s].scope == scope && sessions[s].StatusAt(now) == Active {
      assert Live(sessions[s], now);
    }
  }

  lemma ExpiredHoldsNothing(
    log: seq<Record>, sessions: map<Id, Session>, active: map<Scope, Id>, now: int, s: Id)
    requires ScopesOk(sessions, active, now) && Homed(log, sessions, now)
    requires s in sessions && sessions[s].StatusAt(now) == Expired
    ensures forall r :: r in log ==> r.session != s
    ensures forall c :: c in active ==> active[c] != s
  {
  }

  lemma RecountedScopes(log: seq<Record>, sessions: map<Id, Session>, gone: set<Id>, active: map<Scope, Id>, now: int)
    requires ScopesOk(sessions, active, now) && Homed(Outside(log, gone), sessions, now)
    ensures ScopesOk(Recounted(sessions, Outside(log, gone)), active, now)
    ensures Homed(Outside(log, gone), Recounted(sessions, Outside(log, gone)), now)
    ensures Recounted(sessions, Outside(log, gone)).Keys == sessions.Keys
  {
    hide Outside, Of, Size;
    assert Recounted(sessions, Outside(log, gone)).Keys == sessions.Keys;
  }

  lemma RecountedRow(sessions: map<Id, Session>, log: seq<Record>, s: Id)
    requires s in sessions
    ensures s in Recounted(sessions, log) && Recounted(sessions, log)[s] == Recount(sessions[s], log)
  {
  }

  lemma VacantScope(sessions: map<Id, Session>, active: map<Scope, Id>, scope: Scope, now: int)
    requires ScopesOk(sessions, active, now) && scope !in active
    ensures forall c :: c in active ==> active[c] !in SameScope(sessions, scope)
  {
  }

  lemma PrunedStatus(log: seq<Record>, sessions: map<Id, Session>, scope: Scope, now: int)
    ensures var pruned := PrunedSessions(log, sessions, now);
            && pruned.Keys == sessions.Keys && |pruned| == |sessions|
            && SameScope(pruned, scope) == SameScope(sessions, scope)
            && forall s :: s in sessions ==>
                 pruned[s].scope == sessions[s].scope && pruned[s].StatusAt(now) == sessions[s].StatusAt(now)
  {
    assert PrunedSessions(log, sessions, now).Keys == sessions.Keys;
  }

  lemma IssuedKeys(log: seq<Record>, sessions: map<Id, Session>, issued: set<Id>)
    requires IssuedOk(log, sessions, issued)
    ensures forall s :: s in sessions ==> s in issued
    ensures forall r :: r in log ==> r.id in issued
  {
  }

  lemma NoneOf(sessions: map<Id, Session>, scope: Scope)
    ensures SameScope(sessions, scope) == {} <==> forall s :: s in sessions ==> sessions[s].scope != scope
  {
    if s :| s in sessions && sessions[s].scope == scope {
      assert s in SameScope(sessions, scope);
    }
  }

  lemma Sizes(sessions: map<Id, Session>, gone: set<Id>)
    requires gone <= sessions.Keys
    ensures |sessions - gone| == |sessions| - |gone|
  {
    assert (sessions - gone).Keys == sessions.Keys - gone;
    assert |sessions.Keys - gone| == |sessions.Keys| - |gone|;
  }

  /** Vacating a scope that holds no active session keeps every invariant. */
  lemma VacateKeeps(
    log: seq<Record>, sessions: map<Id, Session>, active: map<Scope, Id>, accepted: map<Id, seq<Id>>,
    dropped: map<Id, nat>, issued: set<Id>, scope: Scope, now: int,
    records: nat, bytes: nat, globalRecords: nat, globalBytes: nat)
    requires UsageOk(log, sessions) && ScopesOk(sessions, active, now) && Homed(log, sessions, now)
    requires BoundsOk(log, sessions, records, bytes, globalRecords, globalBytes)
    requires HistoryOk(log, sessions, accepted, dropped) && IssuedOk(log, sessions, issued)
    requires scope !in active && forall s :: s in sessions ==> sessions[s].id == s
    ensures var same := SameScope(sessions, scope);
            var log', sessions', dropped' := Outside(log, same), sessions - same, DroppedBy(dropped, log, same);
            && Recounted(sessions, log') - same == sessions'
            && |sessions'| == |sessions| - |same|
            && (forall r :: r in log' ==> r.session !in same)
            && UsageOk(log', sessions') && ScopesOk(sessions', active, now) && Homed(log', sessions', now)
            && BoundsOk(log', sessions', records, bytes, globalRecords, globalBytes)
            && HistoryOk(log', sessions', accepted, dropped') && IssuedOk(log', sessions', issued)
  {
    hide UsageOk, ScopesOk, Homed, BoundsOk, HistoryOk, IssuedOk, Of, Outside, Size, DroppedBy, Recounted;
    var same := SameScope(sessions, scope);
    ClearingKeeps(log, sessions, accepted, dropped, issued, same, records, bytes, globalRecords, globalBytes);
    ClearedHomed(log, sessions, same, now);
    ClearedRows(log, sessions, same);
    RecountedScopes(log, sessions, same, active, now);
    VacantScope(sessions, active, scope, now);
    Sizes(sessions, same);
    ForgetKeeps(Outside(log, same), Recounted(sessions, Outside(log, same)), active, accepted,
                DroppedBy(dropped, log, same), issued, same, now, records, bytes, globalRecords, globalBytes);
  }

  /** The table stays full exactly when nothing in it belongs to the scope and nothing in it has expired. */
  lemma StaysFull(sessions: map<Id, Session>, order: seq<Id>, scope: Scope, maximum: nat, now: int)
    requires |sessions| <= maximum && 1 <= maximum && forall s :: s in order <==> s in sessions
    ensures |Admitting(sessions, order, scope, maximum, now)| <= maximum
    ensures |Admitting(sessions, order, scope, maximum, now)| == maximum <==>
              |sessions| == maximum && SameScope(sessions, scope) == {} &&
              forall s :: s in sessions ==> sessions[s].StatusAt(now) != Expired
    ensures |Admitting(sessions, order, scope, maximum, now)| == maximum ==>
              Admitting(sessions, order, scope, maximum, now) == sessions
    ensures SameScope(Admitting(sessions, order, scope, maximum, now), scope) == {}
  {
    var same := SameScope(sessions, scope);
    var kept := sessions - same;
    Sizes(sessions, same);
    NoneOf(kept, scope);
    assert same == {} ==> kept == sessions;
    assert same != {} ==> |kept| < maximum;
    hide SameScope;
    VictimForgotten(kept, order, now);
    NoneOf(Admitting(sessions, order, scope, maximum, now), scope);
  }

  /** Forgetting the oldest expired session leaves one fewer, and there is one exactly if something has expired. */
  lemma VictimForgotten(kept: map<Id, Session>, order: seq<Id>, now: int)
    requires forall s :: s in kept ==> s in order
    ensures var victim := FirstExpired(order, kept, now);
            && (victim == None <==> forall s :: s in kept ==> kept[s].StatusAt(now) != Expired)
            && (victim.Some? ==> victim.value in kept && |kept - {victim.value}| == |kept| - 1)
  {
    FirstExpiredFound(order, kept, now);
    var victim := FirstExpired(order, kept, now);
    hide FirstExpired;
    if victim.Some? {
      Sizes(kept, {victim.value});
    }
  }

  lemma RefusalExact(
    log: seq<Record>, sessions: map<Id, Session>, order: seq<Id>, scope: Scope, maximum: nat, now: int)
    requires |sessions| <= maximum && 1 <= maximum && forall s :: s in order <==> s in sessions
    ensures var pruned := PrunedSessions(log, sessions, now);
            && |Admitting(pruned, order, scope, maximum, now)| <= maximum
            && (|Admitting(pruned, order, scope, maximum, now)| == maximum
                <==> TableStuck(sessions, scope, maximum, now))
            && (|Admitting(pruned, order, scope, maximum, now)| == maximum ==>
                  Admitting(pruned, order, scope, maximum, now) == pruned && SameScope(pruned, scope) == {})
            && (forall s :: s in Admitting(pruned, order, scope, maximum, now) ==>
                  Admitting(pruned, order, scope, maximum, now)[s].scope != scope)
            && (ScopeActive(sessions, scope, now) ==> !TableStuck(sessions, scope, maximum, now))
            && (ScopeActive(pruned, scope, now) <==> ScopeActive(sessions, scope, now))
  {
    NoneOf(sessions, scope);
    NoneOf(Admitting(PrunedSessions(log, sessions, now), order, scope, maximum, now), scope);
    hide Admitting, SameScope, PrunedSessions;
    PrunedStatus(log, sessions, scope, now);
    StaysFull(PrunedSessions(log, sessions, now), order, scope, maximum, now);
  }

  lemma PrunedRows(log: seq<Record>, sessions: map<Id, Session>, now: int)
    ensures var pruned := PrunedSessions(log, sessions, now);
            pruned.Keys == sessions.Keys && forall s :: s in sessions ==>
              pruned[s].owner == sessions[s].owner && pruned[s].profile == sessions[s].profile &&
              pruned[s].scope == sessions[s].scope
  {
  }

  lemma KeysSize(a: map<Id, Session>, b: map<Id, Session>)
    requires a.Keys == b.Keys
    ensures |a| == |b|
  {
    assert |a.Keys| == |b.Keys|;
  }

  /** A stopped session's scope is free. */
  lemma ScopeFreed(sessions: map<Id, Session>, active: map<Scope, Id>, s: Id, now: int)
    requires s in sessions && sessions[s].id == s && ScopesOk(sessions, active, now)
    ensures sessions[s].scope !in Released(active, sessions[s].scope, s)
    ensures AfterStop(sessions, s, now)[s].StatusAt(now) != Active
    ensures forall t :: t in sessions ==>
              AfterStop(sessions, s, now)[t] == sessions[t].(stoppedAt := AfterStop(sessions, s, now)[t].stoppedAt)
  {
  }

  lemma ClearOneKeeps(
    log: seq<Record>, sessions: map<Id, Session>, active: map<Scope, Id>, accepted: map<Id, seq<Id>>,
    dropped: map<Id, nat>, issued: set<Id>, s: Id, now: int,
    records: nat, bytes: nat, globalRecords: nat, globalBytes: nat)
    requires UsageOk(log, sessions) && ScopesOk(sessions, active, now) && Homed(log, sessions, now)
    requires BoundsOk(log, sessions, records, bytes, globalRecords, globalBytes)
    requires HistoryOk(log, sessions, accepted, dropped) && IssuedOk(log, sessions, issued)
    requires s in sessions && s in dropped && forall t :: t in sessions ==> sessions[t].id == t
    ensures var log' := Outside(log, {s});
            var sessions' := sessions[s := Recount(sessions[s], log')];
            var dropped' := dropped[s := dropped[s] + |Of(log, s)|];
            && sessions' == Recounted(sessions, log') && |sessions'| == |sessions|
            && (forall r :: r in log' ==> r.session != s)
            && UsageOk(log', sessions') && ScopesOk(sessions', active, now) && Homed(log', sessions', now)
            && BoundsOk(log', sessions', records, bytes, globalRecords, globalBytes)
            && HistoryOk(log', sessions', accepted, dropped') && IssuedOk(log', sessions', issued)
  {
    hide UsageOk, ScopesOk, Homed, BoundsOk, HistoryOk, IssuedOk, Of, Outside, Size, DroppedBy, Recounted;
    PruneNone(log, sessions, dropped, active);
    ClearStep(log, sessions, dropped, {}, s);
    assert {} + {s} == {s};
    ClearingKeeps(log, sessions, accepted, dropped, issued, {s}, records, bytes, globalRecords, globalBytes);
    ClearedHomed(log, sessions, {s}, now);
    RecountedScopes(log, sessions, {s}, active, now);
    KeysSize(sessions, Recounted(sessions, Outside(log, {s})));
  }

  lemma DiscardKeeps(
    log: seq<Record>, sessions: map<Id, Session>, active: map<Scope, Id>, accepted: map<Id, seq<Id>>,
    dropped: map<Id, nat>, issued: set<Id>, s: Id, now: int,
    records: nat, bytes: nat, globalRecords: nat, globalBytes: nat)
    requires UsageOk(log, sessions) && ScopesOk(sessions, active, now) && Homed(log, sessions, now)
    requires BoundsOk(log, sessions, records, bytes, globalRecords, globalBytes)
    requires HistoryOk(log, sessions, accepted, dropped) && IssuedOk(log, sessions, issued)
    requires s in sessions && s in dropped && forall t :: t in sessions ==> sessions[t].id == t
    ensures var log', sessions' := Outside(log, {s}), sessions - {s};
            var dropped' := dropped[s := dropped[s] + |Of(log, s)|];
            var active' := Released(active, sessions[s].scope, s);
            && sessions[s := Recount(sessions[s], log')] - {s} == sessions' && |sessions'| <= |sessions|
            && (forall r :: r in log' ==> r.session != s)
            && UsageOk(log', sessions') && ScopesOk(sessions', active', now) && Homed(log', sessions', now)
            && BoundsOk(log', sessions', records, bytes, globalRecords, globalBytes)
            && HistoryOk(log', sessions', accepted, dropped') && IssuedOk(log', sessions', issued)
  {
    hide UsageOk, Homed, BoundsOk, HistoryOk, IssuedOk, Of, Outside, Size, DroppedBy, Recounted, ScopesOk;
    var log', dropped' := Outside(log, {s}), dropped[s := dropped[s] + |Of(log, s)|];
    var cleared := sessions[s := Recount(sessions[s], log')];
    var active' := Released(active, sessions[s].scope, s);
    ClearOneKeeps(log, sessions, active, accepted, dropped, issued, s, now, records, bytes, globalRecords, globalBytes);
    Sizes(cleared, {s});
    assert cleared - {s} == sessions - {s};
    ForgottenScopes(cleared, active, s, now);
    ForgetCounters(log', cleared, accepted, dropped', issued, {s}, now, records, bytes, globalRecords, globalBytes);
  }

  lemma ForgottenScopes(sessions: map<Id, Session>, active: map<Scope, Id>, s: Id, now: int)
    requires s in sessions && ScopesOk(sessions, active, now)
    ensures ScopesOk(sessions - {s}, Released(active, sessions[s].scope, s), now)
  {
  }

  /** A record identifier never issued before is in no container. */
  lemma NewInLog(
    log: seq<Record>, records: map<Id, Record>, globalIds: seq<Id>, dedupe: map<DedupeKey, Id>,
    sessions: map<Id, Session>, order: seq<Id>, recordIds: map<Id, seq<Id>>, issued: set<Id>, id: Id)
    requires Sound(log, records, globalIds, dedupe, sessions, order, recordIds)
    requires IssuedOk(log, sessions, issued) && id !in issued
    ensures id !in records
  {
  }

  lemma CaptureTable(
    log: seq<Record>, sessions: map<Id, Session>, full: seq<Record>, trimmed: seq<Record>, last: seq<Record>,
    r: Record, records: nat, bytes: nat)
    requires r.session in sessions && forall t :: t in sessions ==> sessions[t].id == t
    requires UsageOk(log, sessions) && full == log + [r] && trimmed == TrimSession(full, r.session, records, bytes)
    ensures UsageOk(trimmed, CutSessions(sessions, full, trimmed, r.session))
    ensures Evicted(CutSessions(sessions, full, trimmed, r.session), trimmed, last) == Evicted(sessions, full, last)
  {
    hide UsageOk, Evicted, CutSessions, TrimSession, Size;
    forall t | t != r.session
      ensures Of(full, t) == Of(log, t) == Of(trimmed, t)
    {
      OfAppend(log, [r], t);
      assert Of([r], t) == [];
      TrimViews(full, r.session, records, bytes, t);
    }
    hide Of;
    CutUsage(sessions, log, full, trimmed, r.session);
    EvictedCompose(sessions, full, trimmed, last, r.session);
  }

  /** Everything an accepted record keeps, from the store before it to the store after both capacity steps. */
  lemma AcceptKeeps(
    log: seq<Record>, sessions: map<Id, Session>, active: map<Scope, Id>, accepted: map<Id, seq<Id>>,
    dropped: map<Id, nat>, issued: set<Id>, now: int, r: Record,
    records: nat, bytes: nat, globalRecords: nat, globalBytes: nat)
    requires UsageOk(log, sessions) && ScopesOk(sessions, active, now) && Homed(log, sessions, now)
    requires BoundsOk(log, sessions, records, bytes, globalRecords, globalBytes)
    requires HistoryOk(log, sessions, accepted, dropped) && IssuedOk(log, sessions, issued)
    requires Homed([r], sessions, now) && r.session in sessions && forall t :: t in sessions ==> sessions[t].id == t
    ensures r.session in accepted
    ensures var full := log + [r];
            var trimmed := TrimSession(full, r.session, records, bytes);
            var last := Fit(trimmed, globalRecords, globalBytes);
            var cut, sessions' := CutSessions(sessions, full, trimmed, r.session), Evicted(sessions, full, last);
            && UsageOk(trimmed, cut) && Evicted(cut, trimmed, last) == sessions' && |sessions'| == |sessions|
            && UsageOk(last, sessions') && ScopesOk(sessions', active, now) && Homed(last, sessions', now)
            && BoundsOk(last, sessions', records, bytes, globalRecords, globalBytes)
            && HistoryOk(last, sessions', accepted[r.session := accepted[r.session] + [r.id]], dropped)
            && IssuedOk(last, sessions', issued + {r.id})
  {
    hide UsageOk, Homed, BoundsOk, HistoryOk, IssuedOk, ScopesOk, Of, Fit, Size, Evicted, TrimSession, CutSessions;
    var full := log + [r];
    var trimmed := TrimSession(full, r.session, records, bytes);
    var last := Fit(trimmed, globalRecords, globalBytes);
    CaptureKeeps(log, sessions, accepted, dropped, issued, now, r, records, bytes, globalRecords, globalBytes);
    CaptureTable(log, sessions, full, trimmed, last, r, records, bytes);
    EvictedScopes(sessions, full, last, active, now);
  }

  lemma HomedOne(sessions: map<Id, Session>, r: Record, now: int)
    requires r.session in sessions && sessions[r.session].StatusAt(now) == Active
    requires sessions[r.session].scope == Scope(r.connection, r.guild)
    requires r.key.session == r.session && r.payloadBytes == |r.encoded|
    ensures Homed([r], sessions, now)
  {
  }

  lemma OnlyNew(
    log: seq<Record>, r: Record, records: nat, bytes: nat, globalRecords: nat, globalBytes: nat)
    requires forall q :: q in log ==> q.id != r.id
    ensures forall q ::
              (q in Fit(TrimSession(log + [r], r.session, records, bytes), globalRecords, globalBytes) && q.id == r.id)
              ==> q == r
  {
    forall q | q in Fit(TrimSession(log + [r], r.session, records, bytes), globalRecords, globalBytes)
      ensures q in log || q == r
    {
      RetainedMember(log + [r], r.session, records, bytes, globalRecords, globalBytes, q);
    }
  }

  lemma LookUp(
    log: seq<Record>, records: map<Id, Record>, globalIds: seq<Id>, dedupe: map<DedupeKey, Id>,
    sessions: map<Id, Session>, order: seq<Id>, recordIds: map<Id, seq<Id>>, r: Record)
    requires Sound(log, records, globalIds, dedupe, sessions, order, recordIds)
    requires forall q :: q in log && q.id == r.id ==> q == r
    ensures r.id in records <==> r in log
    ensures r.id in records ==> records[r.id] == r
  {
  }

  lemma NothingMarked(
    log: seq<Record>, records: map<Id, Record>, globalIds: seq<Id>, dedupe: map<DedupeKey, Id>,
    sessions: map<Id, Session>, order: seq<Id>, recordIds: map<Id, seq<Id>>, id: Id, outcome: Outcome)
    requires Sound(log, records, globalIds, dedupe, sessions, order, recordIds) && id !in records
    ensures Marked(log, id, outcome) == log
  {
    forall i | 0 <= i < |log|
      ensures log[i].id != id
    {
      assert log[i] in log;
    }
  }

  // ---------------------------------------------------------------- listing

  function Reversed<T>(s: seq<T>): seq<T> {
    seq(|s|, i requires 0 <= i < |s| => s[|s| - 1 - i])
  }

  /** The clamped slice a page number selects from a list of `total` entries. */
  function PageBounds(total: nat, page: int, size: int): (bounds: (nat, nat))
    requires size > 0
    ensures bounds.0 <= bounds.1 <= total
  {
    var pages := if (total + size - 1) / size < 1 then 1 else (total + size - 1) / size;
    var safe := var low := if page < 1 then 1 else page; if low > pages then pages else low;
    PageStart(total, size, safe);
    var start := (safe - 1) * size;
    (start, if start + size > total then total else start + size)
  }

  function Page<T>(all: seq<T>, page: int, size: int): seq<T>
    requires size > 0
  {
    all[PageBounds(|all|, page, size).0..PageBounds(|all|, page, size).1]
  }

  lemma PageStart(total: nat, size: int, page: int)
    requires size > 0
    requires var pages := if (total + size - 1) / size < 1 then 1 else (total + size - 1) / size; 1 <= page <= pages
    ensures 0 <= (page - 1) * size <= total
  {
    var last := (total + size - 1) / size;
    if last >= 1 {
      assert last * size <= total + size - 1;
      MulMonotone(page - 1, last - 1, size);
      assert (last - 1) * size == last * size - size;
    }
  }

  lemma PageMembers<T>(all: seq<T>, page: int, size: int, x: T)
    requires size > 0 && x in Page(Reversed(all), page, size)
    ensures x in all
  {
    var newest := Reversed(all);
    assert x in newest;
    var k :| 0 <= k < |newest| && newest[k] == x;
    assert x == all[|all| - 1 - k];
  }

  lemma PageIds(rs: seq<Record>, page: int, size: int)
    requires size > 0
    ensures Page(Reversed(Ids(rs)), page, size) == Ids(Page(Reversed(rs), page, size))
  {
    hide PageBounds;
    assert Reversed(Ids(rs)) == Ids(Reversed(rs));
  }

  lemma PageOfIds(
    log: seq<Record>, records: map<Id, Record>, globalIds: seq<Id>, dedupe: map<DedupeKey, Id>,
    sessions: map<Id, Session>, order: seq<Id>, recordIds: map<Id, seq<Id>>, s: Id, page: int, size: int)
    requires Sound(log, records, globalIds, dedupe, sessions, order, recordIds) && size > 0
    ensures Gather(Page(Reversed(Ids(Of(log, s))), page, size), records) == Page(Reversed(Of(log, s)), page, size)
  {
    hide Sound, Page, Reversed, Gather, Of;
    SoundGlobal(log, records, globalIds, dedupe, sessions, order, recordIds);
    PageIds(Of(log, s), page, size);
    forall r | r in Page(Reversed(Of(log, s)), page, size)
      ensures r in log
    {
      PageMembers(Of(log, s), page, size, r);
      OfMember(log, s, r);
    }
    GatherIds(Page(Reversed(Of(log, s)), page, size), records);
  }

  function Pages<T>(all: seq<T>, size: int, count: nat): seq<T>
    requires size > 0
  {
    if count == 0 then [] else Pages(all, size, count - 1) + Page(all, count, size)
  }

  /** Reading pages 1, 2, ... in turn yields every record exactly once, in order. */
  lemma {:induction false} PagesPartition<T>(all: seq<T>, size: int, count: nat)
    requires size > 0 && (count <= 1 || (count - 1) * size < |all|)
    ensures Pages(all, size, count) == all[..if count * size > |all| then |all| else count * size]
  {
    hide Page;
    if count > 0 {
      Multiples(size, count);
      if count > 1 {
        PagesPartition(all, size, count - 1);
      }
      PageCut(all, size, count);
    }
  }

  /** The `page`-th page of a listing shows the newest entries first: its `k`-th entry is that far from the end. */
  lemma NewestFirst<T>(all: seq<T>, page: int, size: int, k: nat)
    requires size > 0 && page >= 1 && 0 <= (page - 1) * size && k < size && (page - 1) * size + k < |all|
    ensures k < |Page(Reversed(all), page, size)|
    ensures Page(Reversed(all), page, size)[k] == all[|all| - 1 - ((page - 1) * size + k)]
  {
    PageCut(Reversed(all), size, page);
    hide Page;
    assert page * size == (page - 1) * size + size;
  }

  /** A page number below the first shows the first page, one beyond the end the last, which ends with the list. */
  lemma PagesClamped<T>(all: seq<T>, page: int, size: int)
    requires size > 0
    ensures page < 1 ==> Page(all, page, size) == Page(all, 1, size)
    ensures page > 1 && (page - 1) * size >= |all| && all != [] ==>
              exists last :: 1 <= last < page && 0 <= (last - 1) * size < |all| <= last * size
                             && Page(all, page, size) == Page(all, last, size) == all[(last - 1) * size..]
  {
    var last := (|all| + size - 1) / size;
    if page > 1 && (page - 1) * size >= |all| && all != [] {
      LastPage(|all|, size);
      if last >= page {
        MulMonotone(page - 1, last - 1, size);
        assert false;
      }
      PageCut(all, size, last);
      SamePage(|all|, page, last, size);
    }
  }

  lemma LastPage(total: nat, size: int)
    requires size > 0 && total > 0
    ensures var last := (total + size - 1) / size; last >= 1 && 0 <= (last - 1) * size < total <= last * size
  {
    var last := (total + size - 1) / size;
    assert last * size <= total + size - 1 < last * size + size;
    if last < 1 {
      MulMonotone(last, 0, size);
      assert false;
    }
    assert (last - 1) * size == last * size - size;
    MulMonotone(0, last - 1, size);
  }

  lemma SamePage(total: nat, page: int, last: int, size: int)
    requires size > 0 && last == (total + size - 1) / size && 1 <= last < page
    ensures PageBounds(total, page, size) == PageBounds(total, last, size)
  {
  }

  lemma Multiples(size: int, count: nat)
    requires count > 0 && size > 0
    ensures (count - 1) * size == count * size - size && (count - 1) * size >= 0
    ensures count > 1 ==>
              (count - 1 - 1) * size == (count - 1) * size - size && (count - 1 - 1) * size < (count - 1) * size
  {
  }

  lemma PageCut<T>(all: seq<T>, size: int, page: int)
    requires size > 0 && page >= 1 && (page == 1 || (page - 1) * size < |all|)
    ensures 0 <= (page - 1) * size <= |all|
    ensures Page(all, page, size) ==
            all[(page - 1) * size..if page * size > |all| then |all| else page * size]
  {
    MulMonotone(0, page - 1, size);
    assert (page - 1) * size == page * size - size;
    PageExists(|all|, size, page);
  }

  lemma PageExists(total: nat, size: int, page: int)
    requires size > 0 && page >= 1 && (page == 1 || (page - 1) * size < total)
    ensures page == 1 || page <= (total + size - 1) / size
  {
    var pages := (total + size - 1) / size;
    if page > 1 && pages < page {
      MulMonotone(pages, page - 1, size);
      assert false;
    }
  }

  // ---------------------------------------------------------------- what the documentation promises

  /** The documented reason to refuse: every summary is still active or within its stopped-retention period. */
  predicate RefusedAsDocumented(sessions: map<Id, Session>, scope: Scope, maximum: nat, now: int) {
    && |sessions| == maximum
    && SameScope(sessions, scope) == {}
    && forall s :: s in sessions ==> sessions[s].expiresAt > now
  }

  /**
   The store refuses whenever the documentation says so. Where the table is full of sessions that may not be
   forgotten, the refusal is outside the documentation exactly when some stopped session has outlived its expiry.
  */
  lemma RefusalAgainstDocumentation(sessions: map<Id, Session>, scope: Scope, maximum: nat, now: int)
    ensures RefusedAsDocumented(sessions, scope, maximum, now) ==> TableStuck(sessions, scope, maximum, now)
    ensures |sessions| == maximum && SameScope(sessions, scope) == {}
            && (forall s :: s in sessions ==> sessions[s].StatusAt(now) != Expired) ==>
              (!RefusedAsDocumented(sessions, scope, maximum, now) <==>
                 exists s :: s in sessions && sessions[s].stoppedAt.Some? && sessions[s].expiresAt <= now)
  {
  }

  predicate AllStopped(sessions: map<Id, Session>) {
    forall s :: s in sessions ==> sessions[s].stoppedAt.Some?
  }

  /**
   A full table of stopped sessions refuses a scope at every time if it holds none of its sessions, and never
   otherwise; once one of them has expired, that refusal is not the documented one.
  */
  lemma StoppedTableStaysFull(sessions: map<Id, Session>, scope: Scope, maximum: nat, now: int)
    requires |sessions| == maximum && AllStopped(sessions)
    ensures TableStuck(sessions, scope, maximum, now) <==> forall s :: s in sessions ==> sessions[s].scope != scope
    ensures !ScopeActive(sessions, scope, now)
    ensures (exists s :: s in sessions && sessions[s].expiresAt <= now) ==>
              !RefusedAsDocumented(sessions, scope, maximum, now)
  {
    NoneOf(sessions, scope);
    assert forall s :: s in sessions ==> sessions[s].StatusAt(now) == Stopped;
  }

  /** Rows that agree in everything but the counters. */
  predicate SameTable(a: map<Id, Session>, b: map<Id, Session>) {
    a.Keys == b.Keys && forall s :: s in a ==>
      b[s] == a[s].(recordCount := b[s].recordCount, capturedBytes := b[s].capturedBytes, evicted := b[s].evicted)
  }

  lemma RecountedTable(sessions: map<Id, Session>, log: seq<Record>)
    ensures SameTable(sessions, Recounted(sessions, log))
  {
    hide Of, Size;
    assert Recounted(sessions, log).Keys == sessions.Keys;
  }

  lemma StoppedStaysStopped(sessions: map<Id, Session>, s: Id, now: int)
    requires AllStopped(sessions) && s in sessions
    ensures AfterStop(sessions, s, now) == sessions
  {
  }

  /** With room to spare and no earlier session of the scope, nothing is forgotten. */
  lemma RoomForScope(
    log: seq<Record>, sessions: map<Id, Session>, order: seq<Id>, scope: Scope, maximum: nat, now: int)
    requires |sessions| < maximum && forall s :: s in sessions ==> sessions[s].scope != scope
    ensures !ScopeActive(sessions, scope, now) && !TableStuck(sessions, scope, maximum, now)
    ensures var pruned := PrunedSessions(log, sessions, now);
            Admitting(pruned, order, scope, maximum, now) == pruned
  {
    PrunedStatus(log, sessions, scope, now);
    NoneOf(sessions, scope);
    hide PrunedSessions, SameScope, Admitting;
    AdmitsAll(PrunedSessions(log, sessions, now), order, scope, maximum, now);
  }

  lemma AdmitsAll(sessions: map<Id, Session>, order: seq<Id>, scope: Scope, maximum: nat, now: int)
    requires |sessions| < maximum && SameScope(sessions, scope) == {}
    ensures Admitting(sessions, order, scope, maximum, now) == sessions
  {
    hide SameScope, FirstExpired;
    assert sessions - {} == sessions;
  }
}
