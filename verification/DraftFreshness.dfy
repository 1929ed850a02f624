/** Whether an unsent draft still answers the room it was written for. */
module DraftFreshness {
  import opened Wrappers

  datatype Origin = Direct | Ambient | Continuation

  datatype Message = Message(id: string, author: string, bot: bool, replyTo: string, text: string, fingerprint: string)

  datatype Source = Source(message: Message, revision: nat, roomRevision: nat)

  /** What the room shows around one target message. */
  datatype Focus = Focus(target: string, sources: seq<Source>, anchors: seq<string>, roomRevision: nat)

  /** What a draft remembers of the room it was produced from. */
  datatype Trace = Trace(
    target: string, snapshot: nat, revisions: map<string, nat>, hashes: map<string, string>,
    anchors: seq<string>, requester: string, origin: Origin, refreshCount: nat)

  datatype Action = Keep | Refresh | Drop | Blocked

  datatype Reason =
    | SourceUnchanged | RelevantSourceChange | DestinationNotWritable | DeadlineExceeded
    | SourceBindingMissing | HumanPriority | ObsoleteAfterRefresh

  datatype Decision = Decision(action: Action, reason: Reason, changed: seq<string>)

  // ---------------------------------------------------------------- the policy

  function Stop(trace: Trace): Action {
    if trace.origin == Direct then Blocked else Drop
  }

  predicate Bound(trace: Trace, focus: Focus) {
    trace.target != "" && trace.target == focus.target
  }

  /** A message from someone other than a bot that the draft's own snapshot had not seen. */
  predicate NewFromHuman(trace: Trace, s: Source) {
    s.roomRevision > trace.snapshot && s.message.id !in trace.revisions && !s.message.bot
  }

  predicate Overtaken(trace: Trace, sources: seq<Source>) {
    trace.origin == Continuation && exists i :: 0 <= i < |sources| && NewFromHuman(trace, sources[i])
  }

  /** A source the draft had used, with other content now. */
  predicate Altered(trace: Trace, s: Source) {
    var id := s.message.id;
    id in trace.revisions
    && if id in trace.hashes && trace.hashes[id] != "" then s.message.fingerprint != trace.hashes[id]
       else s.revision != trace.revisions[id]
  }

  function Anchors(trace: Trace): set<string> {
    if trace.anchors == [] then {trace.target} else set a | a in trace.anchors
  }

  /** A new human message that answers an anchor, or in which the requester takes something back. */
  predicate FollowsUp(trace: Trace, s: Source, correction: string -> bool) {
    NewFromHuman(trace, s)
    && (s.message.replyTo in Anchors(trace) || (s.message.author == trace.requester && correction(s.message.text)))
  }

  predicate Relevant(trace: Trace, s: Source, correction: string -> bool) {
    Altered(trace, s) || FollowsUp(trace, s, correction)
  }

  /** The ids of the relevant sources, in window order. */
  function Changed(trace: Trace, sources: seq<Source>, correction: string -> bool): seq<string> {
    if sources == [] then []
    else
      var rest := Changed(trace, sources[..|sources| - 1], correction);
      var s := sources[|sources| - 1];
      if Relevant(trace, s, correction) then rest + [s.message.id] else rest
  }

  function Assess(trace: Trace, focus: Focus, writable: bool, expired: bool, correction: string -> bool): Decision {
    if !writable then Decision(Blocked, DestinationNotWritable, [])
    else if expired then Decision(Stop(trace), DeadlineExceeded, [])
    else if !Bound(trace, focus) then Decision(Blocked, SourceBindingMissing, [])
    else if Overtaken(trace, focus.sources) then Decision(Drop, HumanPriority, [])
    else
      var changed := Changed(trace, focus.sources, correction);
      if changed == [] then Decision(Keep, SourceUnchanged, [])
      else if trace.refreshCount > 0 then Decision(Stop(trace), ObsoleteAfterRefresh, changed)
      else Decision(Refresh, RelevantSourceChange, changed)
  }

  /** The policy as it runs: early answers, then one pass over the window. */
  method AssessDraft(trace: Trace, focus: Focus, writable: bool, expired: bool, correction: string -> bool)
    returns (d: Decision)
    ensures d == Assess(trace, focus, writable, expired, correction)
  {
    var stop := if trace.origin == Ambient || trace.origin == Continuation then Drop else Blocked;
    if !writable {
      return Decision(Blocked, DestinationNotWritable, []);
    }
    if expired {
      return Decision(stop, DeadlineExceeded, []);
    }
    if trace.target == "" || trace.target != focus.target {
      return Decision(Blocked, SourceBindingMissing, []);
    }
    if trace.origin == Continuation
       && exists i :: 0 <= i < |focus.sources| && NewFromHuman(trace, focus.sources[i]) {
      return Decision(Drop, HumanPriority, []);
    }
    var changed: seq<string> := [];
    var anchors := if trace.anchors == [] then {trace.target} else set a | a in trace.anchors;
    for n := 0 to |focus.sources|
      invariant changed == Changed(trace, focus.sources[..n], correction)
    {
      var stored := focus.sources[n];
      var id := stored.message.id;
      assert focus.sources[..n + 1][..n] == focus.sources[..n];
      if id in trace.revisions {
        var hash := if id in trace.hashes then trace.hashes[id] else "";
        var altered :=
          if hash != "" then stored.message.fingerprint != hash else stored.revision != trace.revisions[id];
        if altered {
          changed := changed + [id];
        }
        continue;
      }
      if stored.roomRevision <= trace.snapshot || stored.message.bot {
        continue;
      }
      if stored.message.replyTo in anchors
         || (stored.message.author == trace.requester && correction(stored.message.text)) {
        changed := changed + [id];
      }
    }
    assert focus.sources[..|focus.sources|] == focus.sources;
    if changed == [] {
      return Decision(Keep, SourceUnchanged, []);
    }
    if trace.refreshCount > 0 {
      return Decision(stop, ObsoleteAfterRefresh, changed);
    }
    return Decision(Refresh, RelevantSourceChange, changed);
  }

  // ---------------------------------------------------------------- what the policy guarantees

  lemma {:induction false} ChangedIsExact(trace: Trace, sources: seq<Source>, correction: string -> bool)
    ensures Changed(trace, sources, correction) == []
       <==> forall i :: 0 <= i < |sources| ==> !Relevant(trace, sources[i], correction)
    ensures forall id :: (id in Changed(trace, sources, correction)
                          <==> exists i ::
                                 0 <= i < |sources| && Relevant(trace, sources[i], correction)
                                 && sources[i].message.id == id)
  {
    hide Relevant;
    if sources != [] {
      var k := |sources| - 1;
      var before := sources[..k];
      ChangedIsExact(trace, before, correction);
      assert forall i :: 0 <= i < k ==> before[i] == sources[i];
      forall id
        ensures id in Changed(trace, sources, correction)
           <==> exists i :: 0 <= i < |sources| && Relevant(trace, sources[i], correction) && sources[i].message.id == id
      {
        if id in Changed(trace, before, correction) {
          var i :| 0 <= i < k && Relevant(trace, before[i], correction) && before[i].message.id == id;
          assert sources[i].message.id == id;
        }
      }
    }
  }

  /** Keeping says nothing about what is missing: a window with fewer sources keeps whatever the fuller one kept. */
  lemma DroppingSourcesKeeps(trace: Trace, fuller: Focus, focus: Focus, writable: bool, expired: bool,
                             correction: string -> bool)
    requires Assess(trace, fuller, writable, expired, correction).action == Keep
    requires focus.target == fuller.target && forall s :: s in focus.sources ==> s in fuller.sources
    ensures Assess(trace, focus, writable, expired, correction) == Assess(trace, fuller, writable, expired, correction)
  {
    hide Relevant, NewFromHuman;
    ChangedIsExact(trace, fuller.sources, correction);
    ChangedIsExact(trace, focus.sources, correction);
    forall i | 0 <= i < |focus.sources|
      ensures !Relevant(trace, focus.sources[i], correction)
      ensures trace.origin == Continuation ==> !NewFromHuman(trace, focus.sources[i])
    {
      assert focus.sources[i] in fuller.sources;
    }
  }

  /** A direct request is never silently dropped, and a draft that was refreshed once is never refreshed again. */
  lemma StopsAreRight(trace: Trace, focus: Focus, writable: bool, expired: bool, correction: string -> bool)
    ensures var d := Assess(trace, focus, writable, expired, correction);
            && (d.action == Drop ==> trace.origin != Direct)
            && (d.action == Refresh ==> trace.refreshCount == 0 && d.changed != [])
            && (d.action == Keep ==> writable && !expired && Bound(trace, focus))
  {
  }

  /** Why a draft is stopped: the reasons exclude one another, and an earlier one hides the later ones. */
  lemma ReasonsAreRight(trace: Trace, focus: Focus, writable: bool, expired: bool, correction: string -> bool)
    ensures var d := Assess(trace, focus, writable, expired, correction);
            var bound := trace.target != "" && trace.target == focus.target;
            var overtaken := trace.origin == Continuation
                             && exists i :: 0 <= i < |focus.sources| && NewFromHuman(trace, focus.sources[i]);
            var stale := exists i :: 0 <= i < |focus.sources| && Relevant(trace, focus.sources[i], correction);
            && (d.reason == DestinationNotWritable <==> !writable)
            && (d.reason == DeadlineExceeded <==> writable && expired)
            && (d.reason == SourceBindingMissing <==> writable && !expired && !bound)
            && (d.reason == HumanPriority <==> writable && !expired && bound && overtaken)
            && (d.reason == SourceUnchanged <==> writable && !expired && bound && !overtaken && !stale)
            && (d.reason in {RelevantSourceChange, ObsoleteAfterRefresh} <==>
                writable && !expired && bound && !overtaken && stale)
            && (d.reason == ObsoleteAfterRefresh ==> trace.refreshCount > 0)
            && (d.action == Keep <==> d.reason == SourceUnchanged)
            && (d.action == Refresh <==> d.reason == RelevantSourceChange)
            && (d.action == Drop ==> d.reason in {DeadlineExceeded, HumanPriority, ObsoleteAfterRefresh})
            && (d.reason == HumanPriority ==> d.action == Drop)
            && (d.reason in {DestinationNotWritable, SourceBindingMissing} ==> d.action == Blocked)
            && (d.reason in {DeadlineExceeded, ObsoleteAfterRefresh} ==>
                  d.action == if trace.origin == Direct then Blocked else Drop)
  {
    hide Relevant, NewFromHuman;
    ChangedIsExact(trace, focus.sources, correction);
  }

  /**
   A message that the draft's snapshot had not seen, from someone who is not a bot, asks for a refresh of any draft but
   a continuation as soon as it answers the draft's target, or its anchors if it has any; so does a correction by the
   requester, and a remembered source with another fingerprint. A bot's message and one already seen never do.
  */
  lemma FollowUpAsksForRefresh(trace: Trace, focus: Focus, i: nat, correction: string -> bool)
    requires i < |focus.sources| && trace.origin != Continuation && trace.target != "" && trace.target == focus.target
    ensures var s := focus.sources[i]; var m := s.message;
            var d := Assess(trace, focus, true, false, correction);
            var seen := m.id in trace.revisions || s.roomRevision <= trace.snapshot;
            var answers := m.replyTo in trace.anchors || (trace.anchors == [] && m.replyTo == trace.target);
            && (!m.bot && !seen && (answers || (m.author == trace.requester && correction(m.text))) ==>
                  m.id in d.changed && d.action == if trace.refreshCount == 0 then Refresh else Stop(trace))
            && (m.id in trace.revisions && m.id in trace.hashes && trace.hashes[m.id] != ""
                && m.fingerprint != trace.hashes[m.id] ==>
                  m.id in d.changed && d.action == if trace.refreshCount == 0 then Refresh else Stop(trace))
            && (focus.sources == [s] && m.id !in trace.revisions
                && (m.bot || seen || (!answers && !(m.author == trace.requester && correction(m.text)))) ==>
                  d.action == Keep)
  {
    ChangedIsExact(trace, focus.sources, correction);
  }

  // ---------------------------------------------------------------- rebuilding the trace

  function RevisionsOf(sources: seq<Source>): (m: map<string, nat>)
    ensures forall i :: 0 <= i < |sources| ==> sources[i].message.id in m
  {
    if sources == [] then map[]
    else
      var s := sources[|sources| - 1];
      RevisionsOf(sources[..|sources| - 1])[s.message.id := s.revision]
  }

  function HashesOf(sources: seq<Source>): (m: map<string, string>)
    ensures forall i :: 0 <= i < |sources| ==> sources[i].message.id in m
  {
    if sources == [] then map[]
    else
      var s := sources[|sources| - 1];
      HashesOf(sources[..|sources| - 1])[s.message.id := s.message.fingerprint]
  }

  /** The trace a refreshed draft carries: everything it was just shown. */
  function Rebuilt(trace: Trace, focus: Focus): Trace {
    trace.(refreshCount := 1, anchors := focus.anchors, snapshot := focus.roomRevision,
           revisions := RevisionsOf(focus.sources), hashes := HashesOf(focus.sources))
  }

  ghost predicate DistinctIds(sources: seq<Source>) {
    forall i, j :: 0 <= i < j < |sources| ==> sources[i].message.id != sources[j].message.id
  }

  /** Of the sources with one id the last is remembered; there is no other entry. */
  lemma {:induction false} RemembersLast(sources: seq<Source>, i: nat)
    requires i < |sources|
    requires forall j :: i < j < |sources| ==> sources[j].message.id != sources[i].message.id
    ensures RevisionsOf(sources)[sources[i].message.id] == sources[i].revision
    ensures HashesOf(sources)[sources[i].message.id] == sources[i].message.fingerprint
    decreases |sources|
  {
    var k := |sources| - 1;
    if i < k {
      RemembersLast(sources[..k], i);
    }
  }

  lemma {:induction false} RemembersOnly(sources: seq<Source>, id: string)
    requires id in RevisionsOf(sources) || id in HashesOf(sources)
    ensures exists i :: 0 <= i < |sources| && sources[i].message.id == id
    decreases |sources|
  {
    var k := |sources| - 1;
    if sources[k].message.id != id {
      RemembersOnly(sources[..k], id);
      var i :| 0 <= i < k && sources[..k][i].message.id == id;
      assert sources[i].message.id == id;
    }
  }

  /**
   A refreshed draft keeps its target, its requester and its origin, counts as refreshed once, and remembers the
   revision and the fingerprint of every source it was just shown, of no other, and the room's own revision.
  */
  lemma RebuiltRemembers(trace: Trace, focus: Focus, i: nat, id: string)
    requires i < |focus.sources|
    requires forall j :: i < j < |focus.sources| ==> focus.sources[j].message.id != focus.sources[i].message.id
    ensures var r, s := Rebuilt(trace, focus), focus.sources[i];
            && r.target == trace.target && r.requester == trace.requester && r.origin == trace.origin
            && r.refreshCount == 1 && r.anchors == focus.anchors && r.snapshot == focus.roomRevision
            && s.message.id in r.revisions && r.revisions[s.message.id] == s.revision
            && s.message.id in r.hashes && r.hashes[s.message.id] == s.message.fingerprint
    ensures id in Rebuilt(trace, focus).revisions || id in Rebuilt(trace, focus).hashes ==>
              exists j :: 0 <= j < |focus.sources| && focus.sources[j].message.id == id
  {
    RemembersLast(focus.sources, i);
    if id in Rebuilt(trace, focus).revisions || id in Rebuilt(trace, focus).hashes {
      RemembersOnly(focus.sources, id);
    }
  }

  /** A draft rebuilt from a window is kept against that window, or against any part of it. */
  lemma RebuiltKeeps(trace: Trace, focus: Focus, now: Focus, correction: string -> bool)
    requires Bound(trace, focus) && DistinctIds(focus.sources)
    requires now.target == focus.target && forall s :: s in now.sources ==> s in focus.sources
    ensures Assess(Rebuilt(trace, focus), now, true, false, correction).action == Keep
  {
    var rebuilt := Rebuilt(trace, focus);
    ChangedIsExact(rebuilt, focus.sources, correction);
    forall i | 0 <= i < |focus.sources|
      ensures !Relevant(rebuilt, focus.sources[i], correction) && !NewFromHuman(rebuilt, focus.sources[i])
    {
      RemembersLast(focus.sources, i);
    }
    assert Assess(rebuilt, focus, true, false, correction).action == Keep;
    DroppingSourcesKeeps(rebuilt, focus, now, true, false, correction);
  }
}
