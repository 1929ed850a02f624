/**
 The abstract value of the debug-capture store: one chronological log of records.
 Every container of the store is a view of this log; the lemmas say how each view
 changes when a record is removed, appended or evicted.
*/
module CaptureLog {
  import opened Wrappers

  type Id = nat

  datatype Outcome = Pending | Succeeded | Conflict | ProviderError

  datatype Status = Active | Expired | Stopped

  datatype DedupeKey = DedupeKey(
    session: Id, connection: string, guild: string, message: string,
    deployment: string, operation: string, step: string)

  datatype Record = Record(
    id: Id, session: Id, connection: string, guild: string, capturedAt: int, message: string,
    channel: string, thread: string, deployment: string, characterCount: int,
    payloadBytes: nat, outcome: Outcome, encoded: seq<Byte>, key: DedupeKey)

  datatype Scope = Scope(connection: string, guild: string)

  datatype Session = Session(
    id: Id, owner: string, profile: string, scope: Scope, guildName: string,
    startedAt: int, expiresAt: int, stoppedAt: Option<int>,
    recordCount: int, evicted: int, capturedBytes: int)
  {
    function StatusAt(now: int): Status {
      if stoppedAt.Some? then Stopped else if expiresAt <= now then Expired else Active
    }
  }

  // ---------------------------------------------------------------- views of the log

  function Ids(log: seq<Record>): seq<Id> {
    seq(|log|, i requires 0 <= i < |log| => log[i].id)
  }

  /** The records of one session, oldest first. */
  function Of(log: seq<Record>, s: Id): seq<Record> {
    if log == [] then [] else (if log[0].session == s then [log[0]] else []) + Of(log[1..], s)
  }

  /** The records of every session outside `gone`. */
  function Outside(log: seq<Record>, gone: set<Id>): seq<Record> {
    if log == [] then [] else (if log[0].session in gone then [] else [log[0]]) + Outside(log[1..], gone)
  }

  function Size(log: seq<Record>): nat {
    if log == [] then 0 else log[0].payloadBytes + Size(log[1..])
  }

  function Without(log: seq<Record>, id: Id): seq<Record> {
    if log == [] then [] else if log[0].id == id then log[1..] else [log[0]] + Without(log[1..], id)
  }

  /** Python's `list.remove`. */
  function RemoveFirst(ids: seq<Id>, id: Id): seq<Id> {
    if ids == [] then [] else if ids[0] == id then ids[1..] else [ids[0]] + RemoveFirst(ids[1..], id)
  }

  /** The log after the `k` oldest records of session `s` have been evicted. */
  function DropOldest(log: seq<Record>, s: Id, k: nat): seq<Record> {
    if log == [] || k == 0 then log
    else if log[0].session == s then DropOldest(log[1..], s, k - 1)
    else [log[0]] + DropOldest(log[1..], s, k)
  }

  predicate Fits(log: seq<Record>, count: nat, bytes: nat) {
    |log| <= count && Size(log) <= bytes
  }

  /** Drop from the front until both limits hold. */
  function Fit(log: seq<Record>, count: nat, bytes: nat): seq<Record> {
    if Fits(log, count, bytes) || log == [] then log else Fit(log[1..], count, bytes)
  }

  /** The log after one session has been cut to its own limits. */
  function TrimSession(log: seq<Record>, s: Id, count: nat, bytes: nat): seq<Record> {
    FitShorter(Of(log, s), count, bytes);
    DropOldest(log, s, |Of(log, s)| - |Fit(Of(log, s), count, bytes)|)
  }

  function Recount(session: Session, log: seq<Record>): Session {
    session.(recordCount := |Of(log, session.id)|, capturedBytes := Size(Of(log, session.id)))
  }

  function Recounted(sessions: map<Id, Session>, log: seq<Record>): map<Id, Session> {
    map s | s in sessions :: Recount(sessions[s], log)
  }

  /** Counters after the log shrank from `full` to `log` by evictions only. */
  function Evicted(sessions: map<Id, Session>, full: seq<Record>, log: seq<Record>): map<Id, Session> {
    map s | s in sessions ::
      Recount(sessions[s], log).(evicted := sessions[s].evicted + |Of(full, s)| - |Of(log, s)|)
  }

  // ---------------------------------------------------------------- eviction keeps the longest suffix

  lemma {:induction false} FitShorter(log: seq<Record>, count: nat, bytes: nat)
    ensures |Fit(log, count, bytes)| <= |log|
    ensures Fit(log, count, bytes) == log[|log| - |Fit(log, count, bytes)|..]
    decreases |log|
  {
    if !(Fits(log, count, bytes) || log == []) {
      FitShorter(log[1..], count, bytes);
      var k := |Fit(log[1..], count, bytes)|;
      assert log[1..][|log[1..]| - k..] == log[|log| - k..];
    }
  }

  /** What eviction keeps is a suffix, it fits, and every longer suffix does not. */
  lemma {:induction false} FitIsLongestFittingSuffix(log: seq<Record>, count: nat, bytes: nat, k: nat)
    requires k <= |log|
    ensures |Fit(log, count, bytes)| <= |log|
    ensures Fit(log, count, bytes) == log[|log| - |Fit(log, count, bytes)|..]
    ensures Fits(Fit(log, count, bytes), count, bytes)
    ensures Fits(log[k..], count, bytes) ==> |log[k..]| <= |Fit(log, count, bytes)|
    decreases |log|
  {
    FitShorter(log, count, bytes);
    if Fits(log, count, bytes) || log == [] {
    } else {
      FitIsLongestFittingSuffix(log[1..], count, bytes, if k == 0 then 0 else k - 1);
      SameSuffix(log, k);
    }
  }

  lemma SameSuffix(log: seq<Record>, k: nat)
    requires log != [] && k <= |log|
    ensures if k > 0 then log[1..][k - 1..] == log[k..] else log[0..] == log
  {
  }

  lemma FitDone(log: seq<Record>, count: nat, bytes: nat)
    requires Fits(log, count, bytes) || log == []
    ensures Fit(log, count, bytes) == log
  {
  }

  lemma WithoutFront(log: seq<Record>)
    requires log != []
    ensures Without(log, log[0].id) == log[1..]
  {
  }

  lemma DropNone(log: seq<Record>, s: Id)
    ensures DropOldest(log, s, 0) == log
  {
  }

  lemma {:induction false} FitCut(log: seq<Record>, k: nat, count: nat, bytes: nat)
    requires k < |log|
    requires Fit(log, count, bytes) == Fit(log[k..], count, bytes)
    requires !Fits(log[k..], count, bytes)
    ensures Fit(log, count, bytes) == Fit(log[k + 1..], count, bytes)
  {
    assert log[k..][1..] == log[k + 1..];
  }

  // ---------------------------------------------------------------- algebra of the views

  lemma {:induction false} OfAppend(a: seq<Record>, b: seq<Record>, s: Id)
    ensures Of(a + b, s) == Of(a, s) + Of(b, s)
  {
    if a == [] {
      assert a + b == b;
    } else {
      assert (a + b)[1..] == a[1..] + b;
      OfAppend(a[1..], b, s);
    }
  }

  lemma {:induction false} SizeAppend(a: seq<Record>, b: seq<Record>)
    ensures Size(a + b) == Size(a) + Size(b)
  {
    if a == [] {
      assert a + b == b;
    } else {
      assert (a + b)[1..] == a[1..] + b;
      SizeAppend(a[1..], b);
    }
  }

  lemma {:induction false} OfMember(log: seq<Record>, s: Id, r: Record)
    ensures r in Of(log, s) <==> r in log && r.session == s
  {
    if log != [] {
      OfMember(log[1..], s, r);
    }
  }

  lemma {:induction false} OfShorter(log: seq<Record>, s: Id)
    ensures |Of(log, s)| <= |log|
  {
    if log != [] {
      OfShorter(log[1..], s);
    }
  }

  lemma {:induction false} OutsideMember(log: seq<Record>, gone: set<Id>, r: Record)
    ensures r in Outside(log, gone) <==> r in log && r.session !in gone
  {
    if log != [] {
      OutsideMember(log[1..], gone, r);
    }
  }

  lemma {:induction false} OutsideOf(log: seq<Record>, gone: set<Id>, s: Id)
    ensures Of(Outside(log, gone), s) == if s in gone then [] else Of(log, s)
  {
    if log != [] {
      OutsideOf(log[1..], gone, s);
      OfAppend(if log[0].session in gone then [] else [log[0]], Outside(log[1..], gone), s);
      if log[0].session !in gone {
        assert Of([log[0]], s) == (if log[0].session == s then [log[0]] else []) + Of([log[0]][1..], s);
      }
    }
  }

  lemma {:induction false} OutsideTwice(log: seq<Record>, a: set<Id>, b: set<Id>)
    ensures Outside(Outside(log, a), b) == Outside(log, a + b)
  {
    if log != [] {
      OutsideTwice(log[1..], a, b);
      var rest := Outside(log[1..], a);
      assert Outside(log, a) == if log[0].session in a then rest else [log[0]] + rest;
      assert ([log[0]] + rest)[1..] == rest;
    }
  }

  lemma {:induction false} OutsideNothing(log: seq<Record>, gone: set<Id>)
    requires forall r :: r in log ==> r.session !in gone
    ensures Outside(log, gone) == log
  {
    if log != [] {
      OutsideNothing(log[1..], gone);
      assert log[0] in log;
    }
  }

  lemma IdsCons(r: Record, rest: seq<Record>)
    ensures Ids([r] + rest) == [r.id] + Ids(rest)
  {
  }

  lemma IdsTail(log: seq<Record>)
    requires log != []
    ensures Ids(log)[1..] == Ids(log[1..]) && Ids(log)[0] == log[0].id && log == [log[0]] + log[1..]
  {
  }

  lemma TailNoDup(log: seq<Record>)
    requires log != [] && NoDup(Ids(log))
    ensures NoDup(Ids(log[1..])) && forall q :: q in log[1..] ==> q.id != log[0].id
  {
    var ids := Ids(log);
    forall i, j | 0 <= i < j < |log[1..]| ensures Ids(log[1..])[i] != Ids(log[1..])[j] {
      assert ids[i + 1] != ids[j + 1];
    }
    forall q | q in log[1..] ensures q.id != log[0].id {
      var j :| 0 <= j < |log[1..]| && log[1..][j] == q;
      assert ids[0] != ids[j + 1];
    }
  }

  lemma {:induction false} WithoutIds(log: seq<Record>, id: Id)
    ensures Ids(Without(log, id)) == RemoveFirst(Ids(log), id)
  {
    if log != [] {
      IdsTail(log);
      if log[0].id != id {
        WithoutIds(log[1..], id);
        IdsCons(log[0], Without(log[1..], id));
      }
    }
  }

  lemma {:induction false} RemoveFirstMembers(ids: seq<Id>, id: Id)
    requires NoDup(ids)
    ensures NoDup(RemoveFirst(ids, id)) && forall x :: (x in RemoveFirst(ids, id) <==> x in ids && x != id)
  {
    if ids != [] {
      var tail := ids[1..];
      assert ids == [ids[0]] + tail && ids[0] !in tail;
      assert forall i :: 0 <= i < |tail| ==> tail[i] == ids[i + 1];
      RemoveFirstMembers(tail, id);
    }
  }

  lemma {:induction false} WithoutMembers(log: seq<Record>, id: Id, q: Record)
    requires NoDup(Ids(log))
    ensures q in Without(log, id) <==> q in log && q.id != id
  {
    hide Ids, NoDup;
    if log != [] {
      IdsTail(log);
      TailNoDup(log);
      if log[0].id != id {
        WithoutMembers(log[1..], id, q);
      }
    }
  }

  lemma {:induction false} WithoutOutside(log: seq<Record>, id: Id, r: Record)
    requires r in log && r.id == id && NoDup(Ids(log))
    ensures Outside(Without(log, id), {r.session}) == Outside(log, {r.session})
  {
    hide Ids, NoDup;
    TailNoDup(log);
    if log[0].id == id {
      assert r == log[0];
    } else {
      WithoutOutside(log[1..], id, r);
      assert ([log[0]] + Without(log[1..], id))[1..] == Without(log[1..], id);
    }
  }

  /** Removing a record changes nothing outside its session, and the ids as `list.remove` does. */
  lemma WithoutViews(log: seq<Record>, id: Id, r: Record)
    requires r in log && r.id == id && NoDup(Ids(log))
    ensures Outside(Without(log, id), {r.session}) == Outside(log, {r.session})
    ensures Ids(Without(log, id)) == RemoveFirst(Ids(log), id)
    ensures NoDup(Ids(Without(log, id)))
    ensures forall q :: (q in Without(log, id) <==> q in log && q.id != id)
  {
    hide Outside, Without, Ids, RemoveFirst, NoDup;
    WithoutOutside(log, id, r);
    WithoutIds(log, id);
    RemoveFirstMembers(Ids(log), id);
    forall q ensures q in Without(log, id) <==> q in log && q.id != id {
      WithoutMembers(log, id, q);
    }
  }

  lemma {:induction false} WithoutOf(log: seq<Record>, id: Id, r: Record, s: Id)
    requires r in log && r.id == id && NoDup(Ids(log))
    ensures Of(Without(log, id), s) == if s == r.session then Without(Of(log, s), id) else Of(log, s)
  {
    var ids := Ids(log);
    assert ids[1..] == Ids(log[1..]);
    if log[0].id == id {
      var k :| 0 <= k < |log| && log[k] == r;
      assert ids[0] == id && ids[k] == id;
      assert k == 0;
    } else {
      assert r in log[1..];
      WithoutOf(log[1..], id, r, s);
      var rest := Without(log[1..], id);
      assert ([log[0]] + rest)[1..] == rest;
      assert Of(log, s) == if log[0].session == s then [log[0]] + Of(log[1..], s) else Of(log[1..], s);
      assert Of([log[0]] + rest, s) == if log[0].session == s then [log[0]] + Of(rest, s) else Of(rest, s);
      assert ([log[0]] + Of(log[1..], s))[1..] == Of(log[1..], s);
    }
  }

  /** A session's view inherits the distinctness of the log. */
  lemma {:induction false} OfNoDup(log: seq<Record>, s: Id)
    requires NoDup(Ids(log))
    ensures NoDup(Ids(Of(log, s)))
  {
    if log != [] {
      assert Ids(log)[1..] == Ids(log[1..]);
      OfNoDup(log[1..], s);
      var rest := Of(log[1..], s);
      assert Of(log, s) == if log[0].session == s then [log[0]] + rest else rest;
      if log[0].session == s {
        forall i, j | 0 <= i < j < |rest| + 1
          ensures Ids([log[0]] + rest)[i] != Ids([log[0]] + rest)[j]
        {
          if i == 0 {
            OfMember(log[1..], s, rest[j - 1]);
            var m :| 0 <= m < |log[1..]| && log[1..][m] == rest[j - 1];
            assert Ids(log)[0] != Ids(log)[m + 1];
          } else {
            assert Ids(rest)[i - 1] != Ids(rest)[j - 1];
          }
        }
      }
    }
  }

  /** Evicting by id the oldest record of `s` is dropping one more from the front of its view. */
  lemma {:induction false} WithoutOldest(log: seq<Record>, s: Id)
    requires Of(log, s) != []
    requires NoDup(Ids(log))
    ensures Without(log, Of(log, s)[0].id) == DropOldest(log, s, 1)
  {
    assert Ids(log)[1..] == Ids(log[1..]);
    if log[0].session == s {
      assert DropOldest(log, s, 1) == log[1..];
    } else {
      WithoutOldest(log[1..], s);
      var first := Of(log, s)[0];
      OfMember(log[1..], s, first);
      var m :| 0 <= m < |log[1..]| && log[1..][m] == first;
      assert Ids(log)[0] != Ids(log)[m + 1];
    }
  }

  lemma {:induction false} DropOldestStep(log: seq<Record>, s: Id, k: nat)
    ensures DropOldest(DropOldest(log, s, k), s, 1) == DropOldest(log, s, k + 1)
  {
    if log != [] && k != 0 {
      if log[0].session == s {
        DropOldestStep(log[1..], s, k - 1);
      } else {
        DropOldestStep(log[1..], s, k);
        var rest := DropOldest(log[1..], s, k);
        assert ([log[0]] + rest)[1..] == rest;
      }
    }
  }

  /** Eviction shortens the view of `s` from the front and leaves every other view alone. */
  lemma {:induction false} DropOldestViews(log: seq<Record>, s: Id, k: nat, t: Id)
    requires k <= |Of(log, s)|
    ensures Of(DropOldest(log, s, k), t) == if s == t then Of(log, s)[k..] else Of(log, t)
  {
    if log != [] && k != 0 {
      var tail := log[1..];
      if log[0].session == s {
        assert Of(log, s) == [log[0]] + Of(tail, s);
        DropOldestViews(tail, s, k - 1, t);
        assert Of(log, s)[k..] == Of(tail, s)[k - 1..];
      } else {
        DropOldestViews(tail, s, k, t);
        OfCons(log[0], DropOldest(tail, s, k), t);
        OfCons(log[0], tail, t);
        OfCons(log[0], tail, s);
        assert log == [log[0]] + tail;
      }
    }
  }

  lemma OfCons(r: Record, rest: seq<Record>, s: Id)
    ensures Of([r] + rest, s) == if r.session == s then [r] + Of(rest, s) else Of(rest, s)
  {
    assert ([r] + rest)[1..] == rest;
  }

  /** A view of a suffix is a suffix of the view. */
  lemma {:induction false} OfSuffix(log: seq<Record>, k: nat, s: Id)
    requires k <= |log|
    ensures |Of(log[k..], s)| <= |Of(log, s)|
    ensures Of(log[k..], s) == Of(log, s)[|Of(log, s)| - |Of(log[k..], s)|..]
  {
    assert log == log[..k] + log[k..];
    OfAppend(log[..k], log[k..], s);
  }

  lemma {:induction false} SizeSuffix(log: seq<Record>, k: nat)
    requires k <= |log|
    ensures Size(log[k..]) <= Size(log)
  {
    assert log == log[..k] + log[k..];
    SizeAppend(log[..k], log[k..]);
  }
}
