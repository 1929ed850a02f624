/**
 The representation invariants of the capture store, stated over plain values: which
 containers are views of the log, and how each elementary change preserves them.
*/
module CaptureIndex {
  import opened Wrappers
  import opened CaptureLog

  // ---------------------------------------------------------------- representation, over values

  /** The record table, the global list and the dedupe index are exactly the log. */
  ghost predicate Represents(
    log: seq<Record>, records: map<Id, Record>, globalIds: seq<Id>, dedupe: map<DedupeKey, Id>)
  {
    NoDup(Ids(log)) && globalIds == Ids(log) && Tabulated(log, records, dedupe)
  }

  ghost predicate Tabulated(log: seq<Record>, records: map<Id, Record>, dedupe: map<DedupeKey, Id>) {
    && (forall r :: r in log ==>
          r.id in records && records[r.id] == r && r.key in dedupe && dedupe[r.key] == r.id)
    && (forall id :: id in records ==> records[id].id == id && records[id] in log)
    && (forall k :: k in dedupe ==> dedupe[k] in records && records[dedupe[k]].key == k)
  }

  /** Each session's own list is the global list restricted to that session. */
  ghost predicate Lists(log: seq<Record>, keys: set<Id>, recordIds: map<Id, seq<Id>>) {
    && recordIds.Keys == keys
    && (forall s :: s in recordIds ==> recordIds[s] == Ids(Of(log, s)))
  }

  /** The insertion-ordered session table. */
  ghost predicate Named(sessions: map<Id, Session>, order: seq<Id>) {
    && (forall s :: s in sessions ==> sessions[s].id == s)
    && NoDup(order)
    && (forall s :: s in order <==> s in sessions)
  }

  /** All containers together: the log is the only information they hold. */
  ghost predicate Sound(
    log: seq<Record>, records: map<Id, Record>, globalIds: seq<Id>, dedupe: map<DedupeKey, Id>,
    sessions: map<Id, Session>, order: seq<Id>, recordIds: map<Id, seq<Id>>)
  {
    && Represents(log, records, globalIds, dedupe)
    && Lists(log, sessions.Keys, recordIds)
    && Named(sessions, order)
    && (forall r :: r in log ==> r.session in sessions)
  }

  ghost predicate UsageOk(log: seq<Record>, sessions: map<Id, Session>) {
    forall s :: s in sessions ==>
      sessions[s].recordCount == |Of(log, s)| && sessions[s].capturedBytes == Size(Of(log, s))
  }

  predicate Live(session: Session, now: int) {
    session.stoppedAt == None && session.expiresAt > now
  }

  /** A scope has at most one session of any status, and is active exactly while that session is live. */
  ghost predicate ScopesOk(sessions: map<Id, Session>, active: map<Scope, Id>, now: int) {
    && (forall s, t :: s in sessions && t in sessions && sessions[s].scope == sessions[t].scope ==> s == t)
    && (forall c :: c in active ==>
          active[c] in sessions && sessions[active[c]].scope == c && Live(sessions[active[c]], now))
    && (forall s :: s in sessions && Live(sessions[s], now) ==>
          sessions[s].scope in active && active[sessions[s].scope] == s)
  }

  /** Every retained record belongs to an unexpired session of its own scope. */
  ghost predicate Homed(log: seq<Record>, sessions: map<Id, Session>, now: int) {
    forall r :: r in log ==>
      && r.session in sessions
      && sessions[r.session].expiresAt > now
      && sessions[r.session].scope == Scope(r.connection, r.guild)
      && r.key.session == r.session
      && r.payloadBytes == |r.encoded|
  }

  /** What a session has accepted is what was dropped by clearing or expiry, what was evicted, and a retained suffix. */
  ghost predicate Accounted(
    log: seq<Record>, s: Id, session: Session, accepted: seq<Id>, dropped: nat)
  {
    && |Of(log, s)| <= |accepted|
    && Ids(Of(log, s)) == accepted[|accepted| - |Of(log, s)|..]
    && |accepted| == dropped + session.evicted + |Of(log, s)|
  }

  ghost predicate HistoryOk(
    log: seq<Record>, sessions: map<Id, Session>, accepted: map<Id, seq<Id>>, dropped: map<Id, nat>)
  {
    forall s :: s in sessions ==>
      s in accepted && s in dropped && Accounted(log, s, sessions[s], accepted[s], dropped[s])
  }

  ghost predicate IssuedOk(log: seq<Record>, sessions: map<Id, Session>, issued: set<Id>) {
    && (forall s :: s in sessions ==> s in issued)
    && (forall r :: r in log ==> r.id in issued)
  }

  ghost predicate BoundsOk(
    log: seq<Record>, sessions: map<Id, Session>, records: nat, bytes: nat, globalRecords: nat, globalBytes: nat)
  {
    && Fits(log, globalRecords, globalBytes)
    && (forall s :: s in sessions ==> Fits(Of(log, s), records, bytes))
  }

  function ExpiredIds(sessions: map<Id, Session>, now: int): set<Id> {
    set s | s in sessions && sessions[s].expiresAt <= now
  }

  function SameScope(sessions: map<Id, Session>, scope: Scope): set<Id> {
    set s | s in sessions && sessions[s].scope == scope
  }

  function PrunedLog(log: seq<Record>, sessions: map<Id, Session>, now: int): seq<Record> {
    Outside(log, ExpiredIds(sessions, now))
  }

  function PrunedSessions(log: seq<Record>, sessions: map<Id, Session>, now: int): map<Id, Session> {
    Recounted(sessions, PrunedLog(log, sessions, now))
  }

  function DroppedBy(dropped: map<Id, nat>, log: seq<Record>, gone: set<Id>): map<Id, nat> {
    map s | s in dropped :: dropped[s] + if s in gone then |Of(log, s)| else 0
  }

  function StillActive(active: map<Scope, Id>, gone: set<Id>): map<Scope, Id> {
    map c | c in active && active[c] !in gone :: active[c]
  }

  function Remaining(order: seq<Id>, gone: set<Id>): seq<Id> {
    if order == [] then []
    else (if order[0] in gone then [] else [order[0]]) + Remaining(order[1..], gone)
  }

  /** The oldest expired session: the only one that may make room for a new session. */
  function FirstExpired(order: seq<Id>, sessions: map<Id, Session>, now: int): Option<Id> {
    if order == [] then None
    else if order[0] in sessions && sessions[order[0]].StatusAt(now) == Expired then Some(order[0])
    else FirstExpired(order[1..], sessions, now)
  }

  predicate ScopeActive(sessions: map<Id, Session>, scope: Scope, now: int) {
    exists s :: s in sessions && sessions[s].scope == scope && sessions[s].StatusAt(now) == Active
  }

  /** Full, with no earlier session of the scope to replace and no expired session to forget. */
  predicate TableStuck(sessions: map<Id, Session>, scope: Scope, maximum: nat, now: int) {
    && |sessions| == maximum
    && SameScope(sessions, scope) == {}
    && forall s :: s in sessions ==> sessions[s].StatusAt(now) != Expired
  }

  /** The session table after `scope` was vacated and, if still full, the oldest expired session was forgotten. */
  function Admitting(sessions: map<Id, Session>, order: seq<Id>, scope: Scope, maximum: nat, now: int): map<Id, Session>
  {
    var kept := sessions - SameScope(sessions, scope);
    var victim := FirstExpired(order, kept, now);
    if |kept| < maximum || victim == None then kept else kept - {victim.value}
  }

  function Gather(ids: seq<Id>, records: map<Id, Record>): seq<Record> {
    if ids == [] then []
    else (if ids[0] in records then [records[ids[0]]] else []) + Gather(ids[1..], records)
  }

  function Marked(log: seq<Record>, id: Id, outcome: Outcome): seq<Record> {
    seq(|log|, i requires 0 <= i < |log| => if log[i].id == id then log[i].(outcome := outcome) else log[i])
  }

  // ---------------------------------------------------------------- lemmas about the representation

  lemma RemovalKeepsRepresentation(
    log: seq<Record>, records: map<Id, Record>, globalIds: seq<Id>, dedupe: map<DedupeKey, Id>, id: Id)
    requires Represents(log, records, globalIds, dedupe) && id in records
    ensures Represents(Without(log, id), records - {id}, RemoveFirst(globalIds, id), dedupe - {records[id].key})
    ensures id in globalIds
  {
    hide Without, RemoveFirst, NoDup, Ids, Tabulated;
    Tabled(log, records, dedupe, id);
    WithoutViews(log, id, records[id]);
    IdIn(log, records[id]);
    TablesAfterRemoval(log, Without(log, id), records, dedupe, id);
  }

  lemma Tabled(log: seq<Record>, records: map<Id, Record>, dedupe: map<DedupeKey, Id>, id: Id)
    requires Tabulated(log, records, dedupe) && id in records
    ensures records[id] in log && records[id].id == id
  {
  }

  lemma TablesAfterRemoval(
    log: seq<Record>, rest: seq<Record>, records: map<Id, Record>, dedupe: map<DedupeKey, Id>, id: Id)
    requires Tabulated(log, records, dedupe) && id in records
    requires forall q :: (q in rest <==> q in log && q.id != id)
    ensures Tabulated(rest, records - {id}, dedupe - {records[id].key})
  {
    forall q | q in rest
      ensures q.key != records[id].key
    {
      assert dedupe[q.key] == q.id;
    }
  }

  lemma IdIn(log: seq<Record>, r: Record)
    requires r in log
    ensures r.id in Ids(log)
  {
    var k :| 0 <= k < |log| && log[k] == r;
    assert Ids(log)[k] == r.id;
  }

  lemma RemovalKeepsLists(
    log: seq<Record>, keys: set<Id>, recordIds: map<Id, seq<Id>>, r: Record)
    requires NoDup(Ids(log)) && r in log && Lists(log, keys, recordIds) && r.session in keys
    ensures r.id in recordIds[r.session]
    ensures Lists(Without(log, r.id), keys, recordIds[r.session := RemoveFirst(recordIds[r.session], r.id)])
  {
    hide Without, RemoveFirst, NoDup, Of, Ids;
    var list' := recordIds[r.session := RemoveFirst(recordIds[r.session], r.id)];
    OfMember(log, r.session, r);
    OfNoDup(log, r.session);
    WithoutIds(Of(log, r.session), r.id);
    IdIn(Of(log, r.session), r);
    forall s | s in list'
      ensures list'[s] == Ids(Of(Without(log, r.id), s))
    {
      WithoutOf(log, r.id, r, s);
    }
  }

  lemma AppendKeepsRepresentation(
    log: seq<Record>, records: map<Id, Record>, globalIds: seq<Id>, dedupe: map<DedupeKey, Id>, r: Record)
    requires Represents(log, records, globalIds, dedupe)
    requires r.id !in records && r.key !in dedupe
    ensures Represents(log + [r], records[r.id := r], globalIds + [r.id], dedupe[r.key := r.id])
  {
    var log' := log + [r];
    assert Ids(log') == Ids(log) + [r.id];
    forall i, j | 0 <= i < j < |log'|
      ensures Ids(log')[i] != Ids(log')[j]
    {
      assert log[i] in log;
      if j < |log| {
        assert Ids(log)[i] != Ids(log)[j];
      }
    }
  }

  lemma AppendKeepsLists(log: seq<Record>, keys: set<Id>, recordIds: map<Id, seq<Id>>, r: Record)
    requires Lists(log, keys, recordIds) && r.session in keys
    ensures Lists(log + [r], keys, recordIds[r.session := recordIds[r.session] + [r.id]])
  {
    var list' := recordIds[r.session := recordIds[r.session] + [r.id]];
    forall s | s in list'
      ensures list'[s] == Ids(Of(log + [r], s))
    {
      OfAppend(log, [r], s);
      assert Of([r], s) == if r.session == s then [r] else [];
    }
  }

  /** Removing one record by id keeps the containers sound for the log without it. */
  lemma RemovalKeepsSound(
    log: seq<Record>, records: map<Id, Record>, globalIds: seq<Id>, dedupe: map<DedupeKey, Id>,
    sessions: map<Id, Session>, order: seq<Id>, recordIds: map<Id, seq<Id>>, id: Id)
    requires Sound(log, records, globalIds, dedupe, sessions, order, recordIds) && id in records
    ensures var r := records[id];
            && r in log && r.id == id && NoDup(Ids(log))
            && id in globalIds && r.session in recordIds && id in recordIds[r.session]
            && Sound(Without(log, id), records - {id}, RemoveFirst(globalIds, id), dedupe - {r.key},
                     sessions, order, recordIds[r.session := RemoveFirst(recordIds[r.session], id)])
  {
    var r := records[id];
    RemovalKeepsRepresentation(log, records, globalIds, dedupe, id);
    RemovalKeepsLists(log, sessions.Keys, recordIds, r);
    hide Represents, Lists, Named;
    WithoutViews(log, id, r);
  }

  /** Accepting a new record keeps the containers sound for the extended log. */
  lemma AppendKeepsSound(
    log: seq<Record>, records: map<Id, Record>, globalIds: seq<Id>, dedupe: map<DedupeKey, Id>,
    sessions: map<Id, Session>, order: seq<Id>, recordIds: map<Id, seq<Id>>, r: Record)
    requires Sound(log, records, globalIds, dedupe, sessions, order, recordIds)
    requires r.id !in records && r.key !in dedupe && r.session in sessions
    ensures r.session in recordIds
    ensures Sound(log + [r], records[r.id := r], globalIds + [r.id], dedupe[r.key := r.id],
                  sessions, order, recordIds[r.session := recordIds[r.session] + [r.id]])
  {
    AppendKeepsRepresentation(log, records, globalIds, dedupe, r);
    AppendKeepsLists(log, sessions.Keys, recordIds, r);
    hide Represents, Lists, Named;
  }

  /** Updating a session in place touches no container but the session table. */
  lemma UpdateKeepsSound(
    log: seq<Record>, records: map<Id, Record>, globalIds: seq<Id>, dedupe: map<DedupeKey, Id>,
    sessions: map<Id, Session>, order: seq<Id>, recordIds: map<Id, seq<Id>>, session: Session)
    requires Sound(log, records, globalIds, dedupe, sessions, order, recordIds) && session.id in sessions
    ensures Sound(log, records, globalIds, dedupe, sessions[session.id := session], order, recordIds)
  {
    var sessions' := sessions[session.id := session];
    assert sessions'.Keys == sessions.Keys;
    hide Represents, Lists;
  }

  /** What the containers tell about one session and about the front of the global list. */
  lemma SoundViews(
    log: seq<Record>, records: map<Id, Record>, globalIds: seq<Id>, dedupe: map<DedupeKey, Id>,
    sessions: map<Id, Session>, order: seq<Id>, recordIds: map<Id, seq<Id>>, s: Id)
    requires Sound(log, records, globalIds, dedupe, sessions, order, recordIds) && s in sessions
    ensures s in recordIds && recordIds[s] == Ids(Of(log, s)) && NoDup(Ids(log))
    ensures Gather(Ids(Of(log, s)), records) == Of(log, s)
    ensures sessions[s].id == s
    ensures Of(log, s) != [] ==>
              var r := Of(log, s)[0]; r in log && r.session == s && r.id in records && records[r.id] == r
  {
    GatherList(log, records, globalIds, dedupe, s);
    if Of(log, s) != [] {
      OfMember(log, s, Of(log, s)[0]);
    }
  }

  /** What the containers tell about the global list. */
  lemma SoundGlobal(
    log: seq<Record>, records: map<Id, Record>, globalIds: seq<Id>, dedupe: map<DedupeKey, Id>,
    sessions: map<Id, Session>, order: seq<Id>, recordIds: map<Id, seq<Id>>)
    requires Sound(log, records, globalIds, dedupe, sessions, order, recordIds)
    ensures globalIds == Ids(log) && NoDup(Ids(log))
    ensures forall r :: r in log ==> r.session in sessions && r.id in records && records[r.id] == r
    ensures forall id :: id in records ==> records[id].id == id && records[id] in log
    ensures forall k :: k in dedupe <==> exists r :: r in log && r.key == k
    ensures forall k :: k in dedupe ==> dedupe[k] in records && records[dedupe[k]].key == k
    ensures recordIds.Keys == sessions.Keys && Named(sessions, order)
  {
    forall k | k in dedupe
      ensures exists r :: r in log && r.key == k
    {
      assert records[dedupe[k]] in log;
    }
  }

  lemma SoundFront(
    log: seq<Record>, records: map<Id, Record>, globalIds: seq<Id>, dedupe: map<DedupeKey, Id>,
    sessions: map<Id, Session>, order: seq<Id>, recordIds: map<Id, seq<Id>>)
    requires Sound(log, records, globalIds, dedupe, sessions, order, recordIds)
    ensures |globalIds| == |log|
    ensures log != [] ==> var r := log[0];
              globalIds[0] == r.id && r.id in records && records[r.id] == r && r.session in sessions
  {
  }

  lemma SoundNames(
    log: seq<Record>, records: map<Id, Record>, globalIds: seq<Id>, dedupe: map<DedupeKey, Id>,
    sessions: map<Id, Session>, order: seq<Id>, recordIds: map<Id, seq<Id>>)
    requires Sound(log, records, globalIds, dedupe, sessions, order, recordIds)
    ensures forall s :: s in sessions ==> sessions[s].id == s
  {
  }

  lemma SoundOrder(
    log: seq<Record>, records: map<Id, Record>, globalIds: seq<Id>, dedupe: map<DedupeKey, Id>,
    sessions: map<Id, Session>, order: seq<Id>, recordIds: map<Id, seq<Id>>)
    requires Sound(log, records, globalIds, dedupe, sessions, order, recordIds)
    ensures NoDup(order) && forall s :: s in order <==> s in sessions
  {
  }

  /** An identifier without a record is in no list. */
  lemma NotListed(
    log: seq<Record>, records: map<Id, Record>, globalIds: seq<Id>, dedupe: map<DedupeKey, Id>,
    sessions: map<Id, Session>, order: seq<Id>, recordIds: map<Id, seq<Id>>, id: Id)
    requires Sound(log, records, globalIds, dedupe, sessions, order, recordIds) && id !in records
    ensures id !in globalIds
  {
  }

  lemma {:induction false} GatherIds(rs: seq<Record>, records: map<Id, Record>)
    requires forall r :: r in rs ==> r.id in records && records[r.id] == r
    ensures Gather(Ids(rs), records) == rs
  {
    if rs != [] {
      assert Ids(rs)[1..] == Ids(rs[1..]);
      assert rs[0] in rs;
      GatherIds(rs[1..], records);
    }
  }

  lemma GatherList(log: seq<Record>, records: map<Id, Record>, globalIds: seq<Id>, dedupe: map<DedupeKey, Id>, s: Id)
    requires Represents(log, records, globalIds, dedupe)
    ensures Gather(Ids(Of(log, s)), records) == Of(log, s)
  {
    forall r | r in Of(log, s)
      ensures r in log
    {
      OfMember(log, s, r);
    }
    GatherIds(Of(log, s), records);
  }

  /** The byte total over the record table does not depend on the order it is visited in. */
  lemma {:induction false} SizeOfPart(log: seq<Record>, part: set<Id>, id: Id, r: Record)
    requires NoDup(Ids(log)) && r in log && r.id == id && id in part
    ensures PartSize(log, part) == r.payloadBytes + PartSize(log, part - {id})
  {
    assert Ids(log)[1..] == Ids(log[1..]);
    if log[0].id == id {
      var k :| 0 <= k < |log| && log[k] == r;
      assert Ids(log)[0] == Ids(log)[k];
      assert k == 0;
      forall q | q in log[1..]
        ensures q.id != id
      {
        var j :| 0 <= j < |log[1..]| && log[1..][j] == q;
        assert Ids(log)[0] != Ids(log)[j + 1];
      }
      PartSizeSame(log[1..], part, part - {id});
    } else {
      assert r in log[1..];
      SizeOfPart(log[1..], part, id, r);
    }
  }

  ghost function PartSize(log: seq<Record>, part: set<Id>): nat {
    if log == [] then 0 else (if log[0].id in part then log[0].payloadBytes else 0) + PartSize(log[1..], part)
  }

  lemma {:induction false} PartSizeSame(log: seq<Record>, a: set<Id>, b: set<Id>)
    requires forall r :: r in log ==> (r.id in a <==> r.id in b)
    ensures PartSize(log, a) == PartSize(log, b)
  {
    if log != [] {
      assert log[0] in log;
      PartSizeSame(log[1..], a, b);
    }
  }

  lemma {:induction false} PartSizeWhole(log: seq<Record>, all: set<Id>)
    requires forall r :: r in log ==> r.id in all
    ensures PartSize(log, all) == Size(log)
  {
    if log != [] {
      assert log[0] in log;
      PartSizeWhole(log[1..], all);
    }
  }

  lemma {:induction false} PartSizeNone(log: seq<Record>)
    ensures PartSize(log, {}) == 0
  {
    if log != [] {
      PartSizeNone(log[1..]);
    }
  }

  lemma {:induction false} RemainingMembers(order: seq<Id>, gone: set<Id>)
    requires NoDup(order)
    ensures NoDup(Remaining(order, gone))
    ensures forall s :: s in Remaining(order, gone) <==> s in order && s !in gone
  {
    if order != [] {
      RemainingMembers(order[1..], gone);
      assert order[0] !in order[1..];
    }
  }

  lemma {:induction false} RemoveFirstRemaining(order: seq<Id>, gone: set<Id>, s: Id)
    requires NoDup(order)
    ensures RemoveFirst(Remaining(order, gone), s) == Remaining(order, gone + {s})
  {
    if order != [] {
      var rest := Remaining(order[1..], gone);
      RemoveFirstRemaining(order[1..], gone, s);
      if order[0] in gone {
        assert Remaining(order, gone) == rest;
      } else {
        assert Remaining(order, gone) == [order[0]] + rest;
        assert ([order[0]] + rest)[1..] == rest;
        if order[0] == s {
          assert s !in order[1..];
          RemainingSame(order[1..], gone, gone + {s});
        }
      }
    }
  }

  lemma {:induction false} RemainingSame(order: seq<Id>, a: set<Id>, b: set<Id>)
    requires forall s :: s in order ==> (s in a <==> s in b)
    ensures Remaining(order, a) == Remaining(order, b)
  {
    if order != [] {
      assert order[0] in order;
      RemainingSame(order[1..], a, b);
    }
  }

  lemma {:induction false} RemainingAll(order: seq<Id>)
    ensures Remaining(order, {}) == order
  {
    if order != [] {
      RemainingAll(order[1..]);
    }
  }

  /** The session that makes room is the oldest of the expired ones: every one started before it is still wanted. */
  lemma {:induction false} FirstExpiredIsOldest(order: seq<Id>, sessions: map<Id, Session>, now: int)
    ensures FirstExpired(order, sessions, now).Some? ==>
              exists i :: 0 <= i < |order| && FirstExpired(order, sessions, now).value == order[i]
                          && order[i] in sessions && sessions[order[i]].stoppedAt == None
                          && sessions[order[i]].expiresAt <= now
                          && forall k :: 0 <= k < i && order[k] in sessions ==>
                               sessions[order[k]].stoppedAt.Some? || sessions[order[k]].expiresAt > now
    ensures FirstExpired(order, sessions, now).None? ==>
              forall s :: s in order && s in sessions ==> sessions[s].stoppedAt.Some? || sessions[s].expiresAt > now
  {
    if order != [] && !(order[0] in sessions && sessions[order[0]].StatusAt(now) == Expired) {
      var rest := order[1..];
      FirstExpiredIsOldest(rest, sessions, now);
      assert forall i :: 0 <= i < |rest| ==> rest[i] == order[i + 1];
      if FirstExpired(order, sessions, now).Some? {
        var i :| 0 <= i < |rest| && FirstExpired(rest, sessions, now).value == rest[i]
                 && rest[i] in sessions && sessions[rest[i]].stoppedAt == None && sessions[rest[i]].expiresAt <= now
                 && forall k :: 0 <= k < i && rest[k] in sessions ==>
                      sessions[rest[k]].stoppedAt.Some? || sessions[rest[k]].expiresAt > now;
        assert order[i + 1] == rest[i];
        forall k | 0 <= k < i + 1 && order[k] in sessions
          ensures sessions[order[k]].stoppedAt.Some? || sessions[order[k]].expiresAt > now
        {
          if k > 0 {
            assert order[k] == rest[k - 1];
          }
        }
      }
    } else if order != [] {
      assert order[0] in sessions;
    }
  }

  lemma {:induction false} FirstExpiredFound(order: seq<Id>, sessions: map<Id, Session>, now: int)
    ensures FirstExpired(order, sessions, now).Some? <==>
              exists s :: s in order && s in sessions && sessions[s].StatusAt(now) == Expired
    ensures FirstExpired(order, sessions, now).Some? ==>
              var v := FirstExpired(order, sessions, now).value;
              v in order && v in sessions && sessions[v].StatusAt(now) == Expired
  {
    if order != [] {
      assert order[0] in order;
      FirstExpiredFound(order[1..], sessions, now);
    }
  }

  /** Entries already gone from the table do not change which expired session is oldest. */
  lemma {:induction false} FirstExpiredRemaining(order: seq<Id>, gone: set<Id>, sessions: map<Id, Session>, now: int)
    requires forall s :: s in gone ==> s !in sessions
    ensures FirstExpired(Remaining(order, gone), sessions, now) == FirstExpired(order, sessions, now)
  {
    if order != [] {
      FirstExpiredRemaining(order[1..], gone, sessions, now);
      var rest := Remaining(order[1..], gone);
      assert Remaining(order, gone) == if order[0] in gone then rest else [order[0]] + rest;
      assert ([order[0]] + rest)[1..] == rest;
    }
  }

  lemma {:induction false} OfMarked(log: seq<Record>, id: Id, outcome: Outcome, s: Id)
    ensures Of(Marked(log, id, outcome), s) == Marked(Of(log, s), id, outcome)
  {
    if log != [] {
      var m := Marked(log, id, outcome);
      assert m[1..] == Marked(log[1..], id, outcome);
      OfMarked(log[1..], id, outcome, s);
      var rest := Of(log[1..], s);
      assert Marked([log[0]] + rest, id, outcome) == [m[0]] + Marked(rest, id, outcome);
      assert Of(log, s) == if log[0].session == s then [log[0]] + rest else rest;
    }
  }

  lemma {:induction false} SizeMarked(log: seq<Record>, id: Id, outcome: Outcome)
    ensures Size(Marked(log, id, outcome)) == Size(log)
  {
    if log != [] {
      assert Marked(log, id, outcome)[1..] == Marked(log[1..], id, outcome);
      SizeMarked(log[1..], id, outcome);
    }
  }

  /** Recording an outcome changes no view, no size and no identity. */
  lemma MarkKeepsViews(log: seq<Record>, id: Id, outcome: Outcome, s: Id)
    ensures Ids(Of(Marked(log, id, outcome), s)) == Ids(Of(log, s))
    ensures Size(Of(Marked(log, id, outcome), s)) == Size(Of(log, s))
    ensures |Marked(log, id, outcome)| == |log| && Size(Marked(log, id, outcome)) == Size(log)
  {
    OfMarked(log, id, outcome, s);
    SizeMarked(Of(log, s), id, outcome);
    SizeMarked(log, id, outcome);
  }

  // ---------------------------------------------------------------- clearing and expiry

  /** Clearing one more session leaves every other session's counters as they were. */
  lemma ClearRecount(sessions: map<Id, Session>, log: seq<Record>, s: Id)
    requires s in sessions && forall t :: t in sessions ==> sessions[t].id == t
    ensures Recounted(sessions, log)[s := Recount(Recounted(sessions, log)[s], Outside(log, {s}))] ==
            Recounted(sessions, Outside(log, {s}))
  {
    hide Of, Outside, Size;
    var a := Recounted(sessions, log)[s := Recount(Recounted(sessions, log)[s], Outside(log, {s}))];
    var b := Recounted(sessions, Outside(log, {s}));
    forall t | t in sessions
      ensures a[t] == b[t]
    {
      OutsideOf(log, {s}, t);
    }
  }

  lemma {:induction false} OutsideSmaller(log: seq<Record>, gone: set<Id>)
    ensures |Outside(log, gone)| <= |log| && Size(Outside(log, gone)) <= Size(log)
  {
    if log != [] {
      OutsideSmaller(log[1..], gone);
      var head := if log[0].session in gone then [] else [log[0]];
      SizeAppend(head, Outside(log[1..], gone));
    }
  }

  lemma UsageAfterRecount(log: seq<Record>, sessions: map<Id, Session>)
    requires forall s :: s in sessions ==> sessions[s].id == s
    ensures UsageOk(log, Recounted(sessions, log))
  {
  }

  /** Expiry and clearing of whole sessions keeps every bound, every account and every home. */
  lemma ClearingKeeps(
    log: seq<Record>, sessions: map<Id, Session>, accepted: map<Id, seq<Id>>, dropped: map<Id, nat>,
    issued: set<Id>, gone: set<Id>, records: nat, bytes: nat, globalRecords: nat, globalBytes: nat)
    requires BoundsOk(log, sessions, records, bytes, globalRecords, globalBytes)
    requires HistoryOk(log, sessions, accepted, dropped) && IssuedOk(log, sessions, issued)
    requires forall s :: s in sessions ==> sessions[s].id == s
    ensures var log', sessions' := Outside(log, gone), Recounted(sessions, Outside(log, gone));
            && BoundsOk(log', sessions', records, bytes, globalRecords, globalBytes)
            && HistoryOk(log', sessions', accepted, DroppedBy(dropped, log, gone))
            && IssuedOk(log', sessions', issued)
            && UsageOk(log', sessions')
  {
    var log', sessions' := Outside(log, gone), Recounted(sessions, Outside(log, gone));
    var dropped' := DroppedBy(dropped, log, gone);
    OutsideSmaller(log, gone);
    UsageAfterRecount(log', sessions);
    forall s | s in sessions'
      ensures Fits(Of(log', s), records, bytes)
      ensures s in accepted && s in dropped'
      ensures Accounted(log', s, sessions'[s], accepted[s], dropped'[s])
    {
      OutsideOf(log, gone, s);
      assert Accounted(log, s, sessions[s], accepted[s], dropped[s]);
      if s in gone {
        assert Of(log', s) == [] && Ids([]) == [];
      }
    }
    forall r | r in log'
      ensures r.id in issued
    {
      OutsideMember(log, gone, r);
    }
  }

  /** With the same rows but for their counters, expiry leaves the scopes to exactly the sessions still live. */
  lemma PrunedScopes(
    sessions: map<Id, Session>, sessions': map<Id, Session>, active: map<Scope, Id>, was: int, now: int)
    requires ScopesOk(sessions, active, was) && was <= now && sessions'.Keys == sessions.Keys
    requires forall s :: s in sessions ==>
      sessions'[s].scope == sessions[s].scope && sessions'[s].expiresAt == sessions[s].expiresAt &&
      sessions'[s].stoppedAt == sessions[s].stoppedAt
    ensures ScopesOk(sessions', StillActive(active, ExpiredIds(sessions, now)), now)
  {
  }

  lemma PrunedHomes(log: seq<Record>, sessions: map<Id, Session>, was: int, now: int)
    requires Homed(log, sessions, was)
    ensures Homed(PrunedLog(log, sessions, now), sessions, now)
  {
    hide Outside;
    forall r | r in PrunedLog(log, sessions, now)
      ensures r in log && r.session !in ExpiredIds(sessions, now)
    {
      OutsideMember(log, ExpiredIds(sessions, now), r);
    }
  }

  lemma HomedAlike(log: seq<Record>, sessions: map<Id, Session>, sessions': map<Id, Session>, now: int)
    requires Homed(log, sessions, now) && sessions'.Keys == sessions.Keys
    requires forall s :: s in sessions ==>
      sessions'[s].scope == sessions[s].scope && sessions'[s].expiresAt == sessions[s].expiresAt
    ensures Homed(log, sessions', now)
  {
  }

  /** After pruning, exactly the live sessions hold their scope and every record has an unexpired home. */
  lemma PruningKeeps(
    log: seq<Record>, sessions: map<Id, Session>, active: map<Scope, Id>, was: int, now: int)
    requires ScopesOk(sessions, active, was) && Homed(log, sessions, was) && was <= now
    requires forall s :: s in sessions ==> sessions[s].id == s
    ensures var gone := ExpiredIds(sessions, now);
            && ScopesOk(PrunedSessions(log, sessions, now), StillActive(active, gone), now)
            && Homed(PrunedLog(log, sessions, now), PrunedSessions(log, sessions, now), now)
  {
    var pruned := PrunedSessions(log, sessions, now);
    hide ScopesOk, Homed, StillActive, ExpiredIds, PrunedLog, Of, Size;
    assert pruned.Keys == sessions.Keys;
    PrunedScopes(sessions, pruned, active, was, now);
    PrunedHomes(log, sessions, was, now);
    HomedAlike(PrunedLog(log, sessions, now), sessions, pruned, now);
  }

  function Among(ids: seq<Id>, chosen: set<Id>): set<Id> {
    set s | s in ids && s in chosen
  }

  lemma DroppedStep(log: seq<Record>, dropped: map<Id, nat>, gone: set<Id>, s: Id)
    requires s !in gone && s in dropped
    ensures DroppedBy(dropped, log, gone)[s := DroppedBy(dropped, log, gone)[s] + |Of(Outside(log, gone), s)|] ==
            DroppedBy(dropped, log, gone + {s})
  {
    hide DroppedBy, Of, Outside;
    OutsideOf(log, gone, s);
    var before, after := DroppedBy(dropped, log, gone), DroppedBy(dropped, log, gone + {s});
    DroppedKeys(dropped, log, gone);
    DroppedKeys(dropped, log, gone + {s});
    forall t | t in dropped
      ensures after[t] == if t == s then before[s] + |Of(Outside(log, gone), s)| else before[t]
    {
      DroppedEntry(dropped, log, gone, t);
      DroppedEntry(dropped, log, gone + {s}, t);
    }
    OneEntry(before, after, s, before[s] + |Of(Outside(log, gone), s)|);
  }

  lemma DroppedKeys(dropped: map<Id, nat>, log: seq<Record>, gone: set<Id>)
    ensures DroppedBy(dropped, log, gone).Keys == dropped.Keys
  {
    hide Of;
  }

  lemma DroppedEntry(dropped: map<Id, nat>, log: seq<Record>, gone: set<Id>, t: Id)
    requires t in dropped
    ensures t in DroppedBy(dropped, log, gone)
            && DroppedBy(dropped, log, gone)[t] == dropped[t] + if t in gone then |Of(log, t)| else 0
  {
    hide Of;
  }

  lemma OneEntry(before: map<Id, nat>, after: map<Id, nat>, s: Id, n: nat)
    requires before.Keys == after.Keys && s in after
    requires forall t :: t in after ==> after[t] == if t == s then n else before[t]
    ensures before[s := n] == after
  {
  }

  lemma ScopeStep(sessions: map<Id, Session>, active: map<Scope, Id>, was: int, gone: set<Id>, s: Id)
    requires s in sessions && ScopesOk(sessions, active, was)
    ensures var active', c := StillActive(active, gone), sessions[s].scope;
            (if c in active' && active'[c] == s then active' - {c} else active') == StillActive(active, gone + {s})
  {
  }

  /** One more session cleared: what happens to the log, the counters and the accounts. */
  lemma ClearStep(log: seq<Record>, sessions: map<Id, Session>, dropped: map<Id, nat>, gone: set<Id>, s: Id)
    requires s in sessions && s !in gone && s in dropped
    requires forall t :: t in sessions ==> sessions[t].id == t
    ensures var log' := Outside(log, gone);
            && Outside(log', {s}) == Outside(log, gone + {s})
            && Recounted(sessions, log')[s := Recount(Recounted(sessions, log')[s], Outside(log', {s}))] ==
               Recounted(sessions, Outside(log, gone + {s}))
            && DroppedBy(dropped, log, gone)[s := DroppedBy(dropped, log, gone)[s] + |Of(log', s)|] ==
               DroppedBy(dropped, log, gone + {s})
  {
    hide Of, Outside, Recounted, DroppedBy;
    OutsideTwice(log, gone, {s});
    ClearRecount(sessions, Outside(log, gone), s);
    DroppedStep(log, dropped, gone, s);
  }

  lemma AmongStep(ids: seq<Id>, chosen: set<Id>, i: nat)
    requires NoDup(ids) && i < |ids|
    ensures Among(ids[..i + 1], chosen) == Among(ids[..i], chosen) + if ids[i] in chosen then {ids[i]} else {}
    ensures ids[i] !in Among(ids[..i], chosen)
  {
    assert ids[..i + 1] == ids[..i] + [ids[i]];
  }

  lemma AmongAll(ids: seq<Id>, chosen: set<Id>)
    requires forall s :: s in chosen ==> s in ids
    ensures Among(ids[..|ids|], chosen) == chosen
  {
    assert ids[..|ids|] == ids;
  }

  lemma AmongNone(chosen: set<Id>)
    ensures Among([], chosen) == {}
  {
  }

  lemma RecountedKeys(sessions: map<Id, Session>, log: seq<Record>)
    ensures Recounted(sessions, log).Keys == sessions.Keys && |Recounted(sessions, log)| == |sessions|
  {
    assert Recounted(sessions, log).Keys == sessions.Keys;
  }

  lemma OutsideNone(log: seq<Record>)
    ensures Outside(log, {}) == log
  {
    OutsideNothing(log, {});
  }

  lemma PruneNone(log: seq<Record>, sessions: map<Id, Session>, dropped: map<Id, nat>, active: map<Scope, Id>)
    requires UsageOk(log, sessions)
    requires forall t :: t in sessions ==> sessions[t].id == t
    ensures Outside(log, {}) == log
    ensures Recounted(sessions, log) == sessions
    ensures DroppedBy(dropped, log, {}) == dropped
    ensures StillActive(active, {}) == active
  {
    OutsideNothing(log, {});
  }

  lemma HistoryKeys(
    log: seq<Record>, sessions: map<Id, Session>, accepted: map<Id, seq<Id>>, dropped: map<Id, nat>)
    requires HistoryOk(log, sessions, accepted, dropped)
    ensures forall s :: s in sessions ==> s in accepted && s in dropped
  {
  }

  // ---------------------------------------------------------------- opening and forgetting sessions

  lemma ForgetKeepsNames(sessions: map<Id, Session>, order: seq<Id>, s: Id)
    requires Named(sessions, order)
    ensures Named(sessions - {s}, RemoveFirst(order, s))
  {
    RemainingAll(order);
    RemoveFirstRemaining(order, {}, s);
    assert {} + {s} == {s};
    RemainingMembers(order, {s});
  }

  /** A session without records can leave the table. */
  lemma ForgetKeepsSound(
    log: seq<Record>, records: map<Id, Record>, globalIds: seq<Id>, dedupe: map<DedupeKey, Id>,
    sessions: map<Id, Session>, order: seq<Id>, recordIds: map<Id, seq<Id>>, s: Id)
    requires Sound(log, records, globalIds, dedupe, sessions, order, recordIds)
    requires forall r :: r in log ==> r.session != s
    ensures Sound(log, records, globalIds, dedupe, sessions - {s}, RemoveFirst(order, s), recordIds - {s})
  {
    ForgetKeepsNames(sessions, order, s);
    hide Represents, Named;
    assert (sessions - {s}).Keys == sessions.Keys - {s};
  }

  lemma NoIds()
    ensures Ids([]) == []
  {
  }

  lemma OpenKeepsSound(
    log: seq<Record>, records: map<Id, Record>, globalIds: seq<Id>, dedupe: map<DedupeKey, Id>,
    sessions: map<Id, Session>, order: seq<Id>, recordIds: map<Id, seq<Id>>, session: Session)
    requires Sound(log, records, globalIds, dedupe, sessions, order, recordIds) && session.id !in sessions
    ensures Of(log, session.id) == []
    ensures Sound(log, records, globalIds, dedupe, sessions[session.id := session], order + [session.id],
                  recordIds[session.id := []])
  {
    hide Represents, Of, Ids;
    if Of(log, session.id) != [] {
      OfMember(log, session.id, Of(log, session.id)[0]);
    }
    assert (sessions[session.id := session]).Keys == sessions.Keys + {session.id};
    NoIds();
  }
}
