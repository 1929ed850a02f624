/** The publication preflight as it runs against one persisted step, tied to the state machine of every run. */
module DraftRuntime {
  import opened Wrappers
  import opened DraftFreshness
  import opened DraftRuns

  datatype Disposition = Kept | RefreshedText | Dropped | Stopped | InProgress

  /** What the model sent back, if it answered in time and in the form of an answer. */
  datatype ModelAnswer = ModelAnswer(text: string, ignore: bool)

  predicate Optional(r: Reply) {
    r.trace.Some? && r.trace.value.origin != Direct
  }

  /** The draft still answers what the room shows. */
  predicate Keeps(r: Reply, focus: Option<Focus>, writable: bool, expired: bool, correction: string -> bool) {
    r.trace.Some? && focus.Some? && Assess(r.trace.value, focus.value, writable, expired, correction).action == Keep
  }

  /** The model's refresh is usable, and the refreshed draft answers what the room shows by then. */
  predicate Renews(r: Reply, focus: Focus, answer: Option<ModelAnswer>, latest: Option<Focus>, writable: bool,
                   correction: string -> bool)
  {
    && r.trace.Some? && answer.Some? && WellFormed(answer.value.text, answer.value.ignore)
    && !(answer.value.ignore && r.trace.value.origin == Direct) && latest.Some?
    && Assess(Rebuilt(r.trace.value, focus), latest.value, writable, false, correction).action == Keep
  }

  /** The draft no longer answers the room, may be refreshed, and is. */
  predicate Refreshes(r: Reply, focus: Option<Focus>, writable: bool, expired: bool, answer: Option<ModelAnswer>,
                      latest: Option<Focus>, correction: string -> bool)
  {
    && r.trace.Some? && focus.Some?
    && Assess(r.trace.value, focus.value, writable, expired, correction).action == Refresh
    && Renews(r, focus.value, answer, latest, writable, correction)
  }

  /** The row itself is as before: only a worker moved. */
  predicate SameRow(s: Sys, t: Sys) {
    t.status == s.status && t.reply == s.reply && t.operation == s.operation
  }

  lemma AssessedStep(s: Sys, w: nat, focus: Option<Focus>, writable: bool, expired: bool, correction: string -> bool)
    requires w in s.workers && s.workers[w].Reserved?
    ensures var t, r := Next(s, Assessed(w, focus, writable, expired), correction), s.workers[w].reply;
            && SameRow(s, t) && w in t.workers
            && t.workers[w] ==
                 if r.trace == None || focus == None then Saving(Silenced(r), None)
                 else
                   var action := Assess(r.trace.value, focus.value, writable, expired, correction).action;
                   if action == Keep then Saving(r, Some(r))
                   else if action == Refresh then Revising(r, focus.value)
                   else Saving(Silenced(r), None)
  {
    hide Assess;
  }

  lemma GeneratedIsSendable(run: seq<Event>, correction: string -> bool)
    ensures var s := RunFrom(Init, run, correction);
            s.status == Generated ==> s.reply.Some? && !s.reply.value.silent
  {
    hide Next;
    RunKeeps(run, correction);
  }

  lemma RebuiltIsRefreshed(trace: Trace, focus: Focus)
    ensures Rebuilt(trace, focus).refreshCount == 1 && Rebuilt(trace, focus).origin == trace.origin
  {
  }

  lemma LoadStep(s: Sys, w: nat, correction: string -> bool)
    ensures Next(s, Load(w), correction) == DoLoad(s, w).(tick := s.tick + 1)
  {
  }

  lemma CallStep(s: Sys, w: nat, correction: string -> bool)
    requires w in s.workers && s.workers[w].Revising?
    ensures var t := Next(s, Call(w), correction);
            SameRow(s, t) && w in t.workers && t.workers[w] == Calling(s.workers[w].reply, s.workers[w].focus)
  {
  }

  lemma FailStep(s: Sys, w: nat, correction: string -> bool)
    requires w in s.workers && s.workers[w].Calling?
    ensures var t := Next(s, Fail(w), correction);
            SameRow(s, t) && w in t.workers && t.workers[w] == Saving(Silenced(s.workers[w].reply), None)
  {
  }

  lemma AnswerStep(s: Sys, w: nat, text: string, ignore: bool, correction: string -> bool)
    requires w in s.workers && s.workers[w].Calling? && s.workers[w].reply.trace.Some?
    ensures var t, r := Next(s, Answer(w, text, ignore), correction), s.workers[w].reply;
            && SameRow(s, t) && w in t.workers
            && t.workers[w] == if !Usable(r, text, ignore) then Saving(Silenced(r), None)
                               else Revised(Revision(r, s.workers[w].focus, text, ignore, s.tick), r)
  {
    hide Rebuilt, Usable;
  }

  lemma ReassessedStep(s: Sys, w: nat, focus: Option<Focus>, writable: bool, correction: string -> bool)
    requires w in s.workers && s.workers[w].Revised? && s.workers[w].reply.trace.Some?
    ensures var t, r := Next(s, Reassessed(w, focus, writable), correction), s.workers[w].reply;
            && SameRow(s, t) && w in t.workers && t.workers[w].Saving?
            && t.workers[w].reply ==
                 if focus == None then Silenced(s.workers[w].before)
                 else if Assess(r.trace.value, focus.value, writable, false, correction).action == Keep then r
                 else Silenced(r)
  {
    hide Assess;
  }

  /** Which of the outcomes an examination has depends on the first assessment. */
  lemma ExaminationOf(r: Reply, focus: Option<Focus>, writable: bool, expired: bool, answer: Option<ModelAnswer>,
                      latest: Option<Focus>, correction: string -> bool)
    ensures var bound := r.trace.Some? && focus.Some?;
            && (Keeps(r, focus, writable, expired, correction) <==>
                  bound && Assess(r.trace.value, focus.value, writable, expired, correction).action == Keep)
            && (Refreshes(r, focus, writable, expired, answer, latest, correction) <==>
                  bound && Assess(r.trace.value, focus.value, writable, expired, correction).action == Refresh
                  && Renews(r, focus.value, answer, latest, writable, correction))
  {
    hide Assess, Renews;
  }

  lemma SilencedOptional(r: Reply)
    ensures Optional(Silenced(r)) == Optional(r)
  {
  }

  lemma RevisionFacts(r: Reply, focus: Focus, text: string, ignore: bool, tick: nat)
    requires r.trace.Some?
    ensures var revised := Revision(r, focus, text, ignore, tick);
            && revised.text == text && revised.silent == ignore
            && revised.trace == Some(Rebuilt(r.trace.value, focus)) && revised.written == tick
            && revised.checkedAt == r.checkedAt && Silenced(revised).text == ""
            && Optional(revised) == Optional(r) && Optional(Silenced(revised)) == Optional(Silenced(r)) == Optional(r)
  {
  }

  class StepRow {
    var status: Status
    var reply: Option<Reply>
    var operation: Operation
    var clock: nat
    const correction: string -> bool
    ghost var sys: Sys
    ghost var run: seq<Event>

    /** The row is the one the run so far leads to. */
    ghost predicate Valid()
      reads this
    {
      && sys == RunFrom(Init, run, correction)
      && status == sys.status && reply == sys.reply && operation == sys.operation && clock == sys.tick
    }

    constructor (correction: string -> bool)
      ensures Valid() && run == [] && this.correction == correction
    {
      status, reply, operation, clock := Generating, None, Active, 0;
      this.correction := correction;
      sys, run := Init, [];
    }

    method Happens(ghost e: Event)
      requires sys == RunFrom(Init, run, correction) && clock == sys.tick
      modifies `sys, `run, `clock
      ensures sys == Next(old(sys), e, correction) && run == old(run) + [e]
      ensures sys == RunFrom(Init, run, correction) && clock == sys.tick == old(clock) + 1
    {
      run := run + [e];
      assert run[..|run| - 1] == old(run);
      sys := Next(sys, e, correction);
      clock := clock + 1;
    }

    /** The guarded update: exactly one of several preflights that read the same draft gets it. */
    method Reserve(ghost w: nat, snapshot: Reply) returns (won: bool)
      requires Valid() && w in sys.workers && sys.workers[w] == Loaded(snapshot)
      modifies `status, `sys, `run, `clock
      ensures Valid() && run == old(run) + [Event.Reserve(w)] && sys == Next(old(sys), Event.Reserve(w), correction)
      ensures won <==> old(status) == Generated && reply.Some? && SameJson(reply.value, snapshot)
      ensures if won then w in sys.workers && sys.workers[w] == Reserved(snapshot) && status == Refreshing
              else w !in sys.workers && status == old(status)
    {
      won := status == Generated && reply.Some? && SameJson(reply.value, snapshot);
      if won {
        status := Refreshing;
      }
      Happens(Event.Reserve(w));
    }

    /** The locked write that ends a reservation; refused when the row or the operation has moved on. */
    method Save(ghost w: nat, r: Reply, pendingLeft: bool) returns (saved: bool)
      requires Valid() && w in sys.workers && sys.workers[w].Saving? && sys.workers[w].reply == r
      modifies this
      ensures Valid() && run == old(run) + [Event.Save(w, pendingLeft)]
      ensures sys == Next(old(sys), Event.Save(w, pendingLeft), correction)
      ensures saved <==> old(status) == Refreshing && Publishable(old(operation))
      ensures saved ==>
                && w !in sys.workers && status == (if r.silent then Silent else Generated)
                && reply == Some(if r.silent || r.trace == None then r else r.(checkedAt := Some(old(clock))))
      ensures !saved ==> status == old(status) && reply == old(reply) && operation == old(operation)
    {
      saved := status == Refreshing && Publishable(operation);
      if saved {
        if r.silent {
          status, reply := Silent, Some(r);
          operation := if pendingLeft then Active else Completed;
        } else {
          status := Generated;
          reply := Some(if r.trace.Some? then r.(checkedAt := Some(clock)) else r);
        }
      }
      Happens(Event.Save(w, pendingLeft));
    }

    /** The first assessment and, if it asks for one, the single refresh and its reassessment: what is to be saved. */
    method Examine(ghost w: nat, snapshot: Reply, focus: Option<Focus>, writable: bool, expired: bool,
                   answer: Option<ModelAnswer>, latest: Option<Focus>) returns (r: Reply, refreshed: bool)
      requires Valid() && w in sys.workers && sys.workers[w] == Reserved(snapshot)
      modifies `sys, `run, `clock
      ensures Valid() && old(run) <= run && w in sys.workers && sys.workers[w].Saving? && sys.workers[w].reply == r
      ensures if Keeps(snapshot, focus, writable, expired, correction) then r == snapshot && !refreshed
              else if Refreshes(snapshot, focus, writable, expired, answer, latest, correction)
              then refreshed && r.text == answer.value.text && r.silent == answer.value.ignore
                   && r.trace == Some(Rebuilt(snapshot.trace.value, focus.value))
              else r.silent && r.text == ""
      ensures Optional(r) == Optional(snapshot)
    {
      hide Assess, Rebuilt, Next, RunFrom, Renews, Revision, Optional, Keeps, Refreshes, Visible;
      SilencedOptional(snapshot);
      ExaminationOf(snapshot, focus, writable, expired, answer, latest, correction);
      AssessedStep(sys, w, focus, writable, expired, correction);
      if snapshot.trace == None || focus == None {
        Happens(Assessed(w, focus, writable, expired));
        return Silenced(snapshot), false;
      }
      var decision := AssessDraft(snapshot.trace.value, focus.value, writable, expired, correction);
      Happens(Assessed(w, focus, writable, expired));
      if decision.action == Keep {
        return snapshot, false;
      }
      if decision.action != Refresh {
        return Silenced(snapshot), false;
      }
      r, refreshed := RefreshOnce(w, snapshot, focus.value, answer, latest, writable);
    }

    /** The single refresh and its reassessment against a later reading of the room. */
    method RefreshOnce(ghost w: nat, snapshot: Reply, focus: Focus, answer: Option<ModelAnswer>, latest: Option<Focus>,
                       writable: bool) returns (r: Reply, refreshed: bool)
      requires Valid() && w in sys.workers && sys.workers[w] == Revising(snapshot, focus) && snapshot.trace.Some?
      modifies `sys, `run, `clock
      ensures Valid() && old(run) <= run && w in sys.workers && sys.workers[w].Saving? && sys.workers[w].reply == r
      ensures if Renews(snapshot, focus, answer, latest, writable, correction)
              then refreshed && r.text == answer.value.text && r.silent == answer.value.ignore
                   && r.trace == Some(Rebuilt(snapshot.trace.value, focus))
              else r.silent && r.text == ""
      ensures Optional(r) == Optional(snapshot)
    {
      hide Assess, Rebuilt, Next, RunFrom, Revision, Optional, Visible;
      RevisionFacts(snapshot, focus, "", false, 0);
      CallStep(sys, w, correction);
      Happens(Call(w));
      if answer == None {
        FailStep(sys, w, correction);
        Happens(Fail(w));
        return Silenced(snapshot), false;
      }
      var text, ignore := answer.value.text, answer.value.ignore;
      var revised := Revision(snapshot, focus, text, ignore, clock);
      RevisionFacts(snapshot, focus, text, ignore, clock);
      AnswerStep(sys, w, text, ignore, correction);
      Happens(Answer(w, text, ignore));
      if !WellFormed(text, ignore) || (ignore && snapshot.trace.value.origin == Direct) {
        return Silenced(snapshot), false;
      }
      ReassessedStep(sys, w, latest, writable, correction);
      Happens(Reassessed(w, latest, writable));
      if latest == None {
        return Silenced(snapshot), false;
      }
      var after := AssessDraft(revised.trace.value, latest.value, writable, false, correction);
      r := if after.action == Keep then revised else Silenced(revised);
      refreshed := true;
    }

    /** What a preflight does once the draft is its own: examine, save, and say what became of it. */
    method Conclude(ghost w: nat, snapshot: Reply, focus: Option<Focus>, writable: bool, expired: bool,
                    answer: Option<ModelAnswer>, latest: Option<Focus>, pendingLeft: bool) returns (view: Disposition)
      requires Valid() && w in sys.workers && sys.workers[w] == Reserved(snapshot) && !snapshot.silent
      requires status == Refreshing && Publishable(operation)
      modifies this
      ensures Valid() && old(run) <= run && w !in sys.workers && reply.Some?
      ensures if Keeps(snapshot, focus, writable, expired, correction)
              then view == Kept && status == Generated && reply.value.checkedAt.Some?
                   && reply.value.text == snapshot.text && reply.value.trace == snapshot.trace
                   && !reply.value.silent
              else if Refreshes(snapshot, focus, writable, expired, answer, latest, correction) && !answer.value.ignore
              then view == RefreshedText && status == Generated && reply.value.checkedAt.Some?
                   && reply.value.text == answer.value.text && !reply.value.silent
                   && reply.value.trace == Some(Rebuilt(snapshot.trace.value, focus.value))
              else
                && status == Silent && reply.value.silent && reply.value.text == ""
                && view == if Optional(snapshot) then Dropped else Stopped
    {
      hide Assess, Rebuilt, RunFrom, Renews, Next, Visible;
      RefreshIsFirst(snapshot, focus, writable, expired, answer, latest, correction);
      var r, refreshed := Examine(w, snapshot, focus, writable, expired, answer, latest);
      var saved := Save(w, r, pendingLeft);
      view := if r.silent then (if Optional(r) then Dropped else Stopped)
              else if refreshed then RefreshedText else Kept;
    }

    /**
     One preflight that nothing interrupts. Whatever it answers, the row is left sendable only with a text that was kept
     after it was written, and it is never left reserved.
    */
    method Preflight(ghost w: nat, focus: Option<Focus>, writable: bool, expired: bool, answer: Option<ModelAnswer>,
                     latest: Option<Focus>, pendingLeft: bool)
      returns (view: Disposition)
      requires Valid() && w !in sys.workers
      modifies this
      ensures Valid() && old(run) <= run && w !in sys.workers
      ensures view == InProgress <==> old(status) == Refreshing
      ensures old(status) != Generated || !Publishable(old(operation)) ==>
                status == old(status) && reply == old(reply) && view in {InProgress, Stopped}
      ensures old(status) == Generated && Publishable(old(operation)) ==>
                && old(reply).Some? && reply.Some?
                && (view == Kept <==> Keeps(old(reply).value, focus, writable, expired, correction))
                && (view == RefreshedText <==>
                      Refreshes(old(reply).value, focus, writable, expired, answer, latest, correction)
                          && !answer.value.ignore)
                && (view == Dropped <==> status == Silent && Optional(old(reply).value))
                && (view == Stopped <==> status == Silent && !Optional(old(reply).value))
      ensures view == Kept ==>
                && status == Generated && reply.value.checkedAt.Some? && !reply.value.silent
                && reply.value.text == old(reply).value.text && reply.value.trace == old(reply).value.trace
      ensures view == RefreshedText ==>
                && status == Generated && reply.value.checkedAt.Some? && !reply.value.silent
                && reply.value.text == answer.value.text && Visible(reply.value.text)
                && reply.value.trace == Some(Rebuilt(old(reply).value.trace.value, focus.value))
                && RefreshedOnce(reply.value) && !RefreshedOnce(old(reply).value)
      ensures view == Dropped || (view == Stopped && old(status) == Generated && Publishable(old(operation))) ==>
                status == Silent && reply.Some? && reply.value.silent && reply.value.text == ""
    {
      hide Assess, Rebuilt, RunFrom, Renews, Next, Visible;
      GeneratedIsSendable(run, correction);
      if status == Refreshing {
        return InProgress;
      }
      if status != Generated || !Publishable(operation) {
        return Stopped;
      }
      var snapshot := reply.value;
      RefreshIsFirst(snapshot, focus, writable, expired, answer, latest, correction);
      LoadStep(sys, w, correction);
      Happens(Load(w));
      var won := Reserve(w, snapshot);
      view := Conclude(w, snapshot, focus, writable, expired, answer, latest, pendingLeft);
    }
  }

  lemma RefreshIsFirst(r: Reply, focus: Option<Focus>, writable: bool, expired: bool, answer: Option<ModelAnswer>,
                       latest: Option<Focus>, correction: string -> bool)
    ensures !(Keeps(r, focus, writable, expired, correction)
              && Refreshes(r, focus, writable, expired, answer, latest, correction))
    ensures Refreshes(r, focus, writable, expired, answer, latest, correction) ==>
              && !RefreshedOnce(r) && RefreshedOnce(r.(trace := Some(Rebuilt(r.trace.value, focus.value))))
              && WellFormed(answer.value.text, answer.value.ignore)
  {
    hide Assess, Visible;
    if r.trace.Some? && focus.Some? {
      StopsAreRight(r.trace.value, focus.value, writable, expired, correction);
    }
  }
}
