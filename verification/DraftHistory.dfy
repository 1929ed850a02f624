/**
 What a reply that may be sent owes to the events of its run: the event `written` produced exactly its text, and a later
 event read the room in which that text was kept.
*/
module DraftHistory {
  import opened Wrappers
  import opened DraftFreshness
  import opened DraftRuns
  import opened OperationRuns

  /** In event `e` the model produced `text` to be sent: in a generation, or in a refresh that was not declined. */
  predicate Produces(e: Event, text: string) {
    (e.Generate? && !e.reply.silent && e.reply.text == text) || (e.Answer? && !e.ignore && e.text == text)
  }

  predicate Written(log: seq<Event>, r: Reply) {
    r.silent || (r.written < |log| && Produces(log[r.written], r.text))
  }

  /** An event in which a preflight may have kept its draft against `focus`. */
  predicate ReadsRoom(e: Event, focus: Focus) {
    (e.Assessed? && e.focus == Some(focus) && e.writable && !e.expired)
    || (e.Reassessed? && e.focus == Some(focus) && e.writable)
  }

  predicate Read(log: seq<Event>, c: Check) {
    c.readAt < |log| && ReadsRoom(log[c.readAt], c.focus)
  }

  predicate HoldsWritten(log: seq<Event>, w: Worker) {
    && Written(log, w.reply)
    && (w.Revised? ==> Written(log, w.before))
    && (w.Saving? && w.original.Some? ==> Written(log, w.original.value))
  }

  /** A delivery claim read the room in event `e`, and it still matched what `trace` remembers of it. */
  predicate ClaimKeeps(e: Event, trace: Trace, correction: string -> bool) {
    e.ClaimRead? && Assess(trace, e.shown, true, false, correction).action == Keep
  }

  /** A reply bound to a message of the room is claimed only after such a read. */
  ghost predicate ClaimSeen(log: seq<Event>, r: Reply, correction: string -> bool) {
    Unbound(r) || exists j :: 0 <= j < |log| && ClaimKeeps(log[j], r.trace.value, correction)
  }

  ghost predicate ClaimsSeen(s: Sys, log: seq<Event>, correction: string -> bool) {
    && (s.status in {Claimed, Delivered} && s.reply.Some? ==> ClaimSeen(log, s.reply.value, correction))
    && (forall w :: w in s.workers && s.workers[w].Claiming? ==> ClaimSeen(log, s.workers[w].reply, correction))
  }

  /** Every text that is stored or held is one that its event produced, and every check is a room read. */
  ghost predicate Remembered(s: Sys, log: seq<Event>) {
    && s.tick == |log|
    && (s.reply.Some? ==> Written(log, s.reply.value))
    && (forall w :: w in s.workers ==> HoldsWritten(log, s.workers[w]))
    && (forall i :: 0 <= i < |s.checks| ==> Read(log, s.checks[i]))
  }

  lemma WrittenStays(log: seq<Event>, e: Event, r: Reply)
    requires Written(log, r)
    ensures Written(log + [e], r)
  {
  }

  lemma HeldStays(log: seq<Event>, e: Event, w: Worker)
    requires HoldsWritten(log, w)
    ensures HoldsWritten(log + [e], w)
  {
  }

  /** An event that leaves the replies alone leaves them remembered. */
  lemma LogGrows(s: Sys, log: seq<Event>, e: Event)
    requires Remembered(s, log)
    ensures Remembered(s.(tick := s.tick + 1), log + [e])
  {
    hide Written, Produces, ReadsRoom;
    if s.reply.Some? {
      WrittenStays(log, e, s.reply.value);
    }
    forall w | w in s.workers ensures HoldsWritten(log + [e], s.workers[w]) {
      HeldStays(log, e, s.workers[w]);
    }
  }

  /** A preflight's own step moves no other worker and stores nothing. */
  lemma HolderAlone(s: Sys, e: Event, correction: string -> bool)
    requires HolderStep(e)
    ensures var t := Next(s, e, correction);
            && t.reply == s.reply && t.workers.Keys == s.workers.Keys
            && (forall v :: v in s.workers && v != e.w ==> t.workers[v] == s.workers[v])
  {
    hide Assess, Rebuilt, Revision, Silenced, Usable;
  }

  /** The text a preflight goes on with after its refresh call is the one the model just sent. */
  lemma AnswerWrites(s: Sys, log: seq<Event>, e: Event, correction: string -> bool)
    requires e.Answer? && e.w in s.workers && s.tick == |log| && HoldsWritten(log, s.workers[e.w])
    ensures var t := Next(s, e, correction); e.w in t.workers && HoldsWritten(log + [e], t.workers[e.w])
  {
    hide Rebuilt, Usable;
    HeldStays(log, e, s.workers[e.w]);
  }

  /** Otherwise it goes on with a reply it held, or silences one. */
  lemma OthersWriteNothing(s: Sys, log: seq<Event>, e: Event, correction: string -> bool)
    requires HolderStep(e) && !e.Answer? && e.w in s.workers && HoldsWritten(log, s.workers[e.w])
    ensures var t := Next(s, e, correction); e.w in t.workers && HoldsWritten(log + [e], t.workers[e.w])
  {
    hide Assess, Produces;
    HeldStays(log, e, s.workers[e.w]);
  }

  /** A check is noted only where the room was read as writable and in time. */
  lemma ChecksAreReads(s: Sys, log: seq<Event>, e: Event, correction: string -> bool)
    requires Remembered(s, log)
    ensures forall i :: 0 <= i < |Next(s, e, correction).checks| ==> Read(log + [e], Next(s, e, correction).checks[i])
  {
    hide Assess, Rebuilt, Written, Produces, SameJson, Visible;
    if Decides(s, e) {
      DecisionIsRight(s, e, e.w, correction);
    }
  }

  lemma RemembersHolder(s: Sys, log: seq<Event>, e: Event, correction: string -> bool)
    requires Remembered(s, log) && HolderStep(e)
    ensures Remembered(Next(s, e, correction), log + [e])
  {
    hide Next, Written, Produces, ReadsRoom, HoldsWritten, Read;
    LogGrows(s, log, e);
    HolderAlone(s, e, correction);
    if e.w in s.workers {
      if e.Answer? {
        AnswerWrites(s, log, e, correction);
      } else {
        OthersWriteNothing(s, log, e, correction);
      }
    }
    ChecksAreReads(s, log, e, correction);
    TickGrows(s, e, correction);
  }

  lemma TickGrows(s: Sys, e: Event, correction: string -> bool)
    ensures Next(s, e, correction).tick == s.tick + 1
  {
    hide Effect;
  }

  lemma RemembersElsewhere(s: Sys, log: seq<Event>, e: Event, correction: string -> bool)
    requires Remembered(s, log) && !HolderStep(e)
    ensures Remembered(Next(s, e, correction), log + [e])
  {
    hide Assess, Unbound, SameJson, Publishable, Advanced, ReadsRoom;
    LogGrows(s, log, e);
  }

  lemma SeenStays(log: seq<Event>, e: Event, r: Reply, correction: string -> bool)
    requires ClaimSeen(log, r, correction)
    ensures ClaimSeen(log + [e], r, correction)
  {
    hide ClaimKeeps;
    if !Unbound(r) {
      var j :| 0 <= j < |log| && ClaimKeeps(log[j], r.trace.value, correction);
      assert ClaimKeeps((log + [e])[j], r.trace.value, correction);
    }
  }

  lemma SeenNow(log: seq<Event>, e: Event, r: Reply, correction: string -> bool)
    requires Unbound(r) || ClaimKeeps(e, r.trace.value, correction)
    ensures ClaimSeen(log + [e], r, correction)
  {
    hide ClaimKeeps;
    assert (log + [e])[|log|] == e;
  }

  /** What an event does to claims: only a read of the room takes hold of a reply, only such a claim claims it. */
  ghost predicate ClaimsMove(s: Sys, e: Event, t: Sys, correction: string -> bool) {
    && (forall w :: w in t.workers && t.workers[w].Claiming? ==>
          || (w in s.workers && s.workers[w] == t.workers[w])
          || Unbound(t.workers[w].reply) || ClaimKeeps(e, t.workers[w].reply.trace.value, correction))
    && (t.status in {Claimed, Delivered} ==>
          || (s.status in {Claimed, Delivered} && t.reply == s.reply)
          || (e.Claim? && e.w in s.workers && s.workers[e.w].Claiming? && s.reply.Some? && t.reply == s.reply
              && SameJson(s.reply.value, s.workers[e.w].reply)))
  }

  lemma HolderClaimsNothing(s: Sys, e: Event, correction: string -> bool)
    requires HolderStep(e)
    ensures ClaimsMove(s, e, Next(s, e, correction), correction)
  {
    hide Assess, Rebuilt, Silenced, Revision, Usable, SameJson, Unbound, ClaimKeeps;
  }

  lemma ClaimMoves(s: Sys, e: Event, correction: string -> bool)
    ensures ClaimsMove(s, e, Next(s, e, correction), correction)
  {
    hide Next, ClaimsMove;
    if HolderStep(e) {
      HolderClaimsNothing(s, e, correction);
    } else if EdgeStep(e) {
      EdgeClaims(s, e, correction);
    } else {
      ElsewhereClaims(s, e, correction);
    }
  }

  lemma EdgeClaims(s: Sys, e: Event, correction: string -> bool)
    requires EdgeStep(e)
    ensures ClaimsMove(s, e, Next(s, e, correction), correction)
  {
    hide Assess, Silenced, Publishable, Advanced;
  }

  lemma ElsewhereClaims(s: Sys, e: Event, correction: string -> bool)
    requires !HolderStep(e) && !EdgeStep(e)
    ensures ClaimsMove(s, e, Next(s, e, correction), correction)
  {
    hide Publishable, Advanced, Unless, SameJson, Unbound, ClaimKeeps;
  }

  lemma SameSeen(log: seq<Event>, a: Reply, b: Reply, correction: string -> bool)
    requires SameJson(a, b) && ClaimSeen(log, b, correction)
    ensures ClaimSeen(log, a, correction)
  {
    hide ClaimKeeps;
  }

  lemma NextSeen(s: Sys, log: seq<Event>, e: Event, correction: string -> bool)
    requires ClaimsSeen(s, log, correction)
    ensures ClaimsSeen(Next(s, e, correction), log + [e], correction)
  {
    hide Next, ClaimSeen, ClaimKeeps, SameJson, Unbound;
    var t := Next(s, e, correction);
    ClaimMoves(s, e, correction);
    forall w | w in t.workers && t.workers[w].Claiming? ensures ClaimSeen(log + [e], t.workers[w].reply, correction) {
      if w in s.workers && s.workers[w] == t.workers[w] {
        SeenStays(log, e, t.workers[w].reply, correction);
      } else {
        SeenNow(log, e, t.workers[w].reply, correction);
      }
    }
    if t.status in {Claimed, Delivered} && t.reply.Some? {
      if !(s.status in {Claimed, Delivered} && t.reply == s.reply) {
        SameSeen(log, s.reply.value, s.workers[e.w].reply, correction);
      }
      SeenStays(log, e, s.reply.value, correction);
    }
  }

  ghost predicate Logged(s: Sys, log: seq<Event>, correction: string -> bool) {
    Remembered(s, log) && ClaimsSeen(s, log, correction)
  }

  lemma NextLogged(s: Sys, log: seq<Event>, e: Event, correction: string -> bool)
    requires Logged(s, log, correction)
    ensures Logged(Next(s, e, correction), log + [e], correction)
  {
    hide Remembered, Next, ClaimsSeen;
    NextSeen(s, log, e, correction);
    if HolderStep(e) {
      RemembersHolder(s, log, e, correction);
    } else {
      RemembersElsewhere(s, log, e, correction);
    }
  }

  lemma {:induction false} RunLogged(es: seq<Event>, correction: string -> bool)
    ensures Logged(RunFrom(Init, es, correction), es, correction)
  {
    hide Next;
    if es != [] {
      var before := es[..|es| - 1];
      RunLogged(before, correction);
      hide Logged;
      NextLogged(RunFrom(Init, before, correction), before, es[|es| - 1], correction);
      assert before + [es[|es| - 1]] == es;
    }
  }

  // ---------------------------------------------------------------- over all runs

  /** In event `e` the room was read, could be written to, and still matched what `trace` remembers of it. */
  predicate KeptIn(e: Event, trace: Trace, correction: string -> bool) {
    (e.Assessed? || e.Reassessed?) && e.focus.Some? && e.writable && (e.Assessed? ==> !e.expired)
    && Assess(trace, e.focus.value, true, false, correction).action == Keep
  }

  /** Let through by a preflight, or claimed or delivered although it is bound to a message of the room. */
  predicate PastPreflight(s: Sys) {
    s.status in {Generated, Claimed, Delivered} && s.reply.Some?
    && (s.reply.value.checkedAt.Some? || (s.status != Generated && !Unbound(s.reply.value)))
  }

  /**
   What may be sent is the text that its event produced. Past a preflight, the room was read after that event and the
   draft kept against what it showed; and the claim of a delivery read the room once more.
  */
  ghost predicate SendsWhatWasKept(s: Sys, log: seq<Event>, correction: string -> bool) {
    && (s.status in {Generated, Claimed, Delivered} ==>
          && s.reply.Some? && !s.reply.value.silent && s.reply.value.written < |log|
          && Produces(log[s.reply.value.written], s.reply.value.text))
    && (PastPreflight(s) ==>
          && s.reply.value.trace.Some?
          && exists i :: s.reply.value.written < i < |log| && KeptIn(log[i], s.reply.value.trace.value, correction))
    && (s.status in {Claimed, Delivered} && !Unbound(s.reply.value) ==>
          exists j :: 0 <= j < |log| && ClaimKeeps(log[j], s.reply.value.trace.value, correction))
  }

  lemma VouchedIsKept(log: seq<Event>, c: Check, r: Reply, correction: string -> bool)
    requires Read(log, c) && Vouches(c, r) && Assess(c.trace, c.focus, true, false, correction).action == Keep
    ensures r.trace.Some? && r.written < c.readAt < |log| && KeptIn(log[c.readAt], r.trace.value, correction)
  {
    hide Assess;
  }

  lemma SentIsKept(s: Sys, log: seq<Event>, correction: string -> bool)
    requires Inv(s, correction) && Logged(s, log, correction)
    ensures SendsWhatWasKept(s, log, correction)
  {
    hide Assess, Exclusive, Budget, Produces, KeptIn, Vouches, Read, ClaimKeeps;
    KeptIsChecked(s, correction);
    if PastPreflight(s) {
      var i :| 0 <= i < |s.checks| && Vouches(s.checks[i], s.reply.value)
               && Assess(s.checks[i].trace, s.checks[i].focus, true, false, correction).action == Keep;
      VouchedIsKept(log, s.checks[i], s.reply.value, correction);
    }
  }

  /** In every run the reply that may be sent is the text a model produced and a later room read kept. */
  lemma SentTextWasKept(es: seq<Event>, correction: string -> bool)
    ensures SendsWhatWasKept(RunFrom(Init, es, correction), es, correction)
  {
    RunKeeps(es, correction);
    RunLogged(es, correction);
    SentIsKept(RunFrom(Init, es, correction), es, correction);
  }

  // ---------------------------------------------------------------- over all runs of an operation

  /** What a move is to the step it concerns. */
  function EventOf(move: Move): Event {
    match move
    case Step(_, e, _, _, _) => e
    case RestartAll(characterTurn) => Restart(characterTurn)
    case _ => Retry
  }

  /** The events one step went through, in order. */
  ghost function StepLog(deployments: seq<string>, moves: seq<Move>, k: StepId,
                         correction: string -> bool): seq<Event>
  {
    if moves == [] then []
    else
      var before := moves[..|moves| - 1];
      var m, m' := RunAll(Start(deployments), before, correction), RunAll(Start(deployments), moves, correction);
      StepLog(deployments, before, k, correction)
      + if k in m.steps && k in m'.steps && m'.steps[k] != m.steps[k] then [EventOf(moves[|moves| - 1])] else []
  }

  /** A move leaves a step alone, is one event to it, or prepares it for the first time. */
  lemma MoveIsEvent(m: Whole, move: Move, k: StepId, correction: string -> bool)
    ensures var m' := Apply(m, move, correction);
            && (k in m.steps ==> k in m'.steps)
            && (k in m'.steps ==>
                  m'.steps[k] == if k !in m.steps then Init.(operation := m.operation)
                                 else if m'.steps[k] == m.steps[k] then m.steps[k]
                                 else Next(View(m, k), EventOf(move), correction))
  {
    hide Next, Trim, Proposed, Agrees, Own, Settled, Busy, Publishable, RestartedOperation;
  }

  lemma StepLogged(m: Whole, move: Move, k: StepId, log: seq<Event>, correction: string -> bool)
    requires if k in m.steps then Logged(m.steps[k], log, correction) else log == []
    ensures var m' := Apply(m, move, correction);
            var more := if k in m.steps && k in m'.steps && m'.steps[k] != m.steps[k] then [EventOf(move)] else [];
            if k in m'.steps then Logged(m'.steps[k], log + more, correction) else log + more == []
  {
    hide Apply, Next;
    MoveIsEvent(m, move, k, correction);
    if k in m.steps {
      assert log + [] == log;
      hide HoldsWritten, Written, Read, ClaimSeen;
      NextLogged(View(m, k), log, EventOf(move), correction);
    }
  }

  lemma {:induction false} StepsLogged(deployments: seq<string>, moves: seq<Move>, k: StepId,
                                         correction: string -> bool)
    ensures var m := RunAll(Start(deployments), moves, correction);
            var log := StepLog(deployments, moves, k, correction);
            if k in m.steps then Logged(m.steps[k], log, correction) else log == []
    decreases |moves|
  {
    hide Apply, Logged;
    if moves != [] {
      var before := moves[..|moves| - 1];
      StepsLogged(deployments, before, k, correction);
      StepLogged(RunAll(Start(deployments), before, correction), moves[|moves| - 1], k,
                     StepLog(deployments, before, k, correction), correction);
    }
  }

  /** So it is for every step of every run of an operation. */
  lemma EachSentTextWasKept(deployments: seq<string>, moves: seq<Move>, k: StepId, correction: string -> bool)
    requires k in RunAll(Start(deployments), moves, correction).steps
    ensures SendsWhatWasKept(RunAll(Start(deployments), moves, correction).steps[k],
                             StepLog(deployments, moves, k, correction), correction)
  {
    hide RunAll, StepLog;
    RunAllKeeps(deployments, moves, correction);
    var m := RunAll(Start(deployments), moves, correction);
    var log := StepLog(deployments, moves, k, correction);
    StepsLogged(deployments, moves, k, correction);
    ViewKept(m, k, correction);
    SentOfView(m, k, log, correction);
  }

  lemma SentOfView(m: Whole, k: StepId, log: seq<Event>, correction: string -> bool)
    requires k in m.steps && Inv(View(m, k), correction) && Logged(m.steps[k], log, correction)
    ensures SendsWhatWasKept(m.steps[k], log, correction)
  {
    hide Inv, KeptIn, Produces, ClaimSeen, ClaimKeeps, Written, HoldsWritten, Read;
    assert Logged(View(m, k), log, correction);
    SentIsKept(View(m, k), log, correction);
    assert PastPreflight(View(m, k)) == PastPreflight(m.steps[k]);
  }
}
