/**
 The turns a human asked for are taken in the order asked, none is skipped, and an operation is completed only when all
 of them are settled, as long as no generation ends the whole turn early.
*/
module OperationOrder {
  import opened DraftFreshness
  import opened DraftRuns
  import opened OperationRuns

  /** The turns a human asked for among `turns`. */
  function Selected(turns: seq<Turn>): seq<Turn> {
    if turns == [] then [] else (if turns[0].selected then [turns[0]] else []) + Selected(turns[1..])
  }

  /** What was asked for from position `i` on. */
  function AskedFrom(deployments: seq<string>, i: nat): seq<Turn> {
    Start(deployments).pending[if i < |deployments| then i else |deployments|..]
  }

  /** No generation ends the whole turn, and what a settling step cuts are invitations of some character. */
  predicate Continuing(move: Move) {
    move.Step? ==> !move.stop && "" !in move.cut.without
  }

  /** Asked-for turns carry no source. */
  ghost predicate Sourceless(turns: seq<Turn>) {
    forall i :: 0 <= i < |turns| && turns[i].selected ==> turns[i].source == ""
  }

  lemma SelectedUnfold(turns: seq<Turn>)
    requires turns != []
    ensures Selected(turns) == (if turns[0].selected then [turns[0]] else []) + Selected(turns[1..])
  {
  }

  lemma {:induction false} SelectedAppend(a: seq<Turn>, b: seq<Turn>)
    ensures Selected(a + b) == Selected(a) + Selected(b)
  {
    if a == [] {
      NothingSelected();
      assert a + b == b && [] + Selected(b) == Selected(b);
    } else {
      hide Selected;
      SelectedUnfold(a + b);
      SelectedUnfold(a);
      assert (a + b)[0] == a[0] && (a + b)[1..] == a[1..] + b;
      SelectedAppend(a[1..], b);
    }
  }

  lemma {:induction false} NoneSelected(turns: seq<Turn>)
    requires forall i :: 0 <= i < |turns| ==> !turns[i].selected
    ensures Selected(turns) == []
  {
    if turns != [] {
      NoneSelected(turns[1..]);
    }
  }

  /** A cut that spares the sourceless keeps every asked-for turn, in order. */
  lemma {:induction false} TrimSelected(turns: seq<Turn>, cut: Cut)
    requires Sourceless(turns) && "" !in cut.without
    ensures Selected(Trim(turns, cut)) == Selected(turns) && Sourceless(Trim(turns, cut))
  {
    if turns != [] {
      var rest := turns[1..];
      assert forall i :: 0 <= i < |rest| ==> rest[i] == turns[i + 1];
      TrimSelected(rest, cut);
      var keep := (turns[0].selected || !cut.onlySelected) && turns[0].source !in cut.without;
      if keep {
        assert ([turns[0]] + Trim(rest, cut))[1..] == Trim(rest, cut);
      } else {
        assert [] + Trim(rest, cut) == Trim(rest, cut);
      }
    }
  }

  lemma ProposedSelected(rest: seq<Turn>, inserted: seq<Turn>)
    requires Sourceless(rest) && forall i :: 0 <= i < |inserted| ==> !inserted[i].selected
    ensures Selected(Proposed(rest, inserted, false)) == Selected(rest)
    ensures Sourceless(Proposed(rest, inserted, false))
  {
    SelectedAppend(rest, inserted);
    NoneSelected(inserted);
  }

  /** Behind the head of pending turns the asked-for ones go on where they should. */
  lemma BehindHead(deployments: seq<string>, pending: seq<Turn>, i: nat)
    requires pending != [] && InOrder(pending) && Selected(pending) == AskedFrom(deployments, i)
    ensures Selected(pending[1..]) == AskedFrom(deployments, i + 1)
    ensures i < |deployments| ==> pending[0].deployment == deployments[i]
  {
    var asked := AskedFrom(deployments, i);
    if pending[0].selected {
      assert Selected(pending)[1..] == Selected(pending[1..]);
      assert asked[1..] == AskedFrom(deployments, i + 1);
      assert pending[0] == asked[0];
    } else {
      assert forall j :: 0 <= j < |pending| ==> !pending[j].selected;
      NoneSelected(pending);
      NoneSelected(pending[1..]);
      assert asked == [];
    }
  }

  lemma {:induction false} AllAsked(turns: seq<Turn>)
    requires forall i :: 0 <= i < |turns| ==> turns[i].selected
    ensures Selected(turns) == turns
  {
    if turns != [] {
      AllAsked(turns[1..]);
    }
  }

  // ---------------------------------------------------------------- what every run keeps

  /** What is planned after the checkpoint's own turn. */
  ghost predicate Follows(deployments: seq<string>, turns: seq<Turn>, checkpoint: nat) {
    Sourceless(turns) && Selected(turns) == AskedFrom(deployments, checkpoint + 1)
  }

  ghost predicate Planned(deployments: seq<string>, m: Whole) {
    && (forall k :: k in m.steps && k.index == m.checkpoint ==> Follows(deployments, PlanOf(m, k), m.checkpoint))
    && (forall t :: t in m.requests && m.requests[t].id.index == m.checkpoint ==>
          Follows(deployments, m.requests[t].rest, m.checkpoint))
  }

  /** The steps at the asked-for positions are those of the characters asked for; none was passed over. */
  ghost predicate Positions(deployments: seq<string>, known: set<StepId>, prepared: set<StepId>, checkpoint: nat) {
    && (forall k :: k in known && k.index < |deployments| ==> k.deployment == deployments[k.index])
    && (forall i :: 0 <= i < |deployments| && i < checkpoint ==> StepId(i, deployments[i]) in prepared)
  }

  ghost predicate InTurn(deployments: seq<string>, m: Whole) {
    && Sourceless(m.pending) && Selected(m.pending) == AskedFrom(deployments, m.checkpoint)
    && Planned(deployments, m) && Positions(deployments, Known(m), m.steps.Keys, m.checkpoint)
    && (m.operation == Completed ==> m.checkpoint >= |deployments|)
  }

  lemma StartInTurn(deployments: seq<string>)
    ensures InTurn(deployments, Start(deployments))
  {
    AllAsked(Start(deployments).pending);
  }

  lemma ReadInTurn(deployments: seq<string>, m: Whole, t: nat)
    requires InTurn(deployments, m) && InOrder(m.pending)
    ensures InTurn(deployments, DoRead(m, t))
  {
    hide Selected, InOrder, AskedFrom, Known, Positions, Follows;
    var m' := DoRead(m, t);
    if m' != m {
      BehindHead(deployments, m.pending, m.checkpoint);
      SourcelessTail(m.pending);
      BehindFollows(deployments, m.pending, m.checkpoint);
      assert forall k :: k in m'.steps ==> PlanOf(m', k) == PlanOf(m, k);
      ReadPositions(deployments, m, t);
    }
  }

  lemma SourcelessTail(turns: seq<Turn>)
    requires turns != [] && Sourceless(turns)
    ensures Sourceless(turns[1..])
  {
  }

  lemma BehindFollows(deployments: seq<string>, pending: seq<Turn>, checkpoint: nat)
    requires pending != [] && Sourceless(pending[1..])
    requires Selected(pending[1..]) == AskedFrom(deployments, checkpoint + 1)
    ensures Follows(deployments, pending[1..], checkpoint)
  {
  }

  lemma ReadPositions(deployments: seq<string>, m: Whole, t: nat)
    requires Positions(deployments, Known(m), m.steps.Keys, m.checkpoint) && m.pending != [] && t !in m.requests
    requires m.checkpoint < |deployments| ==> m.pending[0].deployment == deployments[m.checkpoint]
    ensures Positions(deployments, Known(DoRead(m, t)), m.steps.Keys, m.checkpoint)
  {
    var m' := DoRead(m, t);
    assert forall k :: k in Known(m') ==> k in Known(m) || k == m'.requests[t].id;
  }

  lemma FewerPositions(deployments: seq<string>, known: set<StepId>, prepared: set<StepId>, known': set<StepId>,
                       prepared': set<StepId>, checkpoint: nat)
    requires Positions(deployments, known, prepared, checkpoint) && known' <= known && prepared <= prepared'
    ensures Positions(deployments, known', prepared', checkpoint)
  {
  }

  lemma PrepareInTurn(deployments: seq<string>, m: Whole, t: nat, exhausted: bool, correction: string -> bool)
    requires InTurn(deployments, m)
    ensures InTurn(deployments, DoPrepare(m, t, exhausted, correction))
  {
    hide Selected, Sourceless, AskedFrom, Prepared, Publishable, Known, Positions, Follows, Planned;
    var m' := DoPrepare(m, t, exhausted, correction);
    if t in m.requests {
      KnownOfRequest(m, t);
      RequestEnds(m, t, m');
      FewerPositions(deployments, Known(m), m.steps.Keys, Known(m'), m'.steps.Keys, m.checkpoint);
      PreparePlanned(deployments, m, t, exhausted, correction);
    }
  }

  lemma KnownOfRequest(m: Whole, t: nat)
    requires t in m.requests
    ensures m.requests[t].id in Known(m)
  {
  }

  lemma PreparePlanned(deployments: seq<string>, m: Whole, t: nat, exhausted: bool, correction: string -> bool)
    requires Planned(deployments, m) && t in m.requests
    ensures Planned(deployments, DoPrepare(m, t, exhausted, correction))
  {
    hide Prepared, Publishable, Follows;
    var m' := DoPrepare(m, t, exhausted, correction);
    assert forall k :: k in m'.steps && k != m.requests[t].id ==> PlanOf(m', k) == PlanOf(m, k);
  }

  predicate Quiet(e: Event) {
    || e.Load? || e.Reserve? || e.Assessed? || e.Call? || e.Answer? || e.Reassessed? || e.Fail?
    || e.ClaimRead? || e.Claim?
  }

  lemma QuietKeepsOperation(s: Sys, e: Event, correction: string -> bool)
    requires Quiet(e)
    ensures Next(s, e, correction).operation == s.operation
  {
    hide Assess, Rebuilt, SameJson, Usable, Silenced, Revision, Unbound, Publishable;
  }

  /** A step's own event completes its operation only when it settles the step and says that no turn is left. */
  lemma CompletionSettles(s: Sys, e: Event, correction: string -> bool)
    requires Own(e) && Exclusive(s)
    ensures var t := Next(s, e, correction);
            t.operation == Completed && s.operation != Completed ==>
              (e.Generate? || e.Save? || e.Deliver?) && !e.pendingLeft && Settled(t.status) && !Settled(s.status)
  {
    hide Assess, Rebuilt, SameJson, Usable, Silenced, Revision, Unbound;
    if Quiet(e) {
      QuietKeepsOperation(s, e, correction);
    } else {
      LoudCompletion(s, e, correction);
    }
  }

  lemma LoudCompletion(s: Sys, e: Event, correction: string -> bool)
    requires Own(e) && !Quiet(e) && Exclusive(s)
    ensures var t := Next(s, e, correction);
            t.operation == Completed && s.operation != Completed ==>
              (e.Generate? || e.Save? || e.Deliver?) && !e.pendingLeft && Settled(t.status) && !Settled(s.status)
  {
  }

  lemma NothingAsked(deployments: seq<string>, i: nat)
    ensures AskedFrom(deployments, i) == [] <==> i >= |deployments|
  {
  }

  /** The plan of the step at the checkpoint, whatever its event does to it. */
  lemma PlanFollows(deployments: seq<string>, plan: seq<Turn>, inserted: seq<Turn>, proposes: bool, cut: Cut,
                    checkpoint: nat)
    requires Follows(deployments, plan, checkpoint) && "" !in cut.without
    requires forall i :: 0 <= i < |inserted| ==> !inserted[i].selected
    ensures var next := if proposes then Proposed(plan, inserted, false) else plan;
            Follows(deployments, next, checkpoint) && Follows(deployments, Trim(next, cut), checkpoint)
  {
    hide Sourceless, AskedFrom, Trim;
    ProposedSelected(plan, inserted);
    TrimSelected(if proposes then Proposed(plan, inserted, false) else plan, cut);
  }

  lemma StepInTurn(deployments: seq<string>, m: Whole, k: StepId, e: Event, inserted: seq<Turn>, cut: Cut,
                   correction: string -> bool)
    requires InTurn(deployments, m) && Sane(m, correction) && "" !in cut.without
    ensures InTurn(deployments, DoStep(m, k, e, inserted, false, cut, correction))
  {
    hide Next, Trim, Proposed, Own, Settled, Sourceless, Selected, AskedFrom, InOrder, OneTurn, Inv, Agrees, Follows,
        Positions, Planned, Known, PlanOf;
    var m' := DoStep(m, k, e, inserted, false, cut, correction);
    if m' != m {
      StepCompletes(m, k, e, inserted, cut, correction);
      StepWithin(m, k);
      SameKnown(m, m');
      assert m'.steps.Keys == m.steps.Keys;
      StepPlanned(deployments, m, k, e, inserted, cut, correction);
      if m'.checkpoint != m.checkpoint {
        SettlesAtCheckpoint(m, k);
        SettledPosition(deployments, Known(m), m.steps.Keys, k);
        FollowsLeft(deployments, m'.pending, m.checkpoint);
      }
    }
  }

  /** A step's event completes the operation only by settling the step with no turn left. */
  lemma StepCompletes(m: Whole, k: StepId, e: Event, inserted: seq<Turn>, cut: Cut, correction: string -> bool)
    requires EachKept(m, correction) && OneOutstanding(m)
    ensures var m' := DoStep(m, k, e, inserted, false, cut, correction);
            m'.operation == Completed && m.operation != Completed ==>
              m'.pending == [] && k.index == m.checkpoint && m'.checkpoint == m.checkpoint + 1
  {
    hide Next, Trim, Proposed, Own, Settled, PlanOf, Budget, Honest, Evidence, Exclusive;
    var m' := DoStep(m, k, e, inserted, false, cut, correction);
    if m' != m {
      ViewKept(m, k, correction);
      CompletionSettles(View(m, k), e, correction);
      if !Settled(View(m, k).status) {
        SettlesAtCheckpoint(m, k);
      }
    }
  }

  lemma SettledPosition(deployments: seq<string>, known: set<StepId>, prepared: set<StepId>, k: StepId)
    requires Positions(deployments, known, prepared, k.index) && k in known && k in prepared
    ensures Positions(deployments, known, prepared, k.index + 1)
  {
  }

  /** What is planned after the step's event: for the same checkpoint as before, or for the next one. */
  lemma StepPlanned(deployments: seq<string>, m: Whole, k: StepId, e: Event, inserted: seq<Turn>, cut: Cut,
                    correction: string -> bool)
    requires Planned(deployments, m) && "" !in cut.without
    requires OneOutstanding(m) && OneTurn(Known(m), m.steps.Keys, m.checkpoint, m.pending)
    ensures var m' := DoStep(m, k, e, inserted, false, cut, correction);
            && Planned(deployments, m')
            && (m'.checkpoint != m.checkpoint ==> Follows(deployments, m'.pending, m.checkpoint))
  {
    hide Next, Trim, Proposed, Own, Settled, OneTurn, Follows, Known;
    var m' := DoStep(m, k, e, inserted, false, cut, correction);
    if m' != m {
      if k.index == m.checkpoint {
        PlanFollows(deployments, PlanOf(m, k), inserted, View(m, k).generator && e.Generate?, cut, m.checkpoint);
      }
      if m'.checkpoint == m.checkpoint {
        assert forall j :: j in m'.steps && j != k ==> PlanOf(m', j) == PlanOf(m, j);
      } else {
        SettlesAtCheckpoint(m, k);
        NothingBeyond(m);
      }
    }
  }

  lemma NothingBeyond(m: Whole)
    requires OneTurn(Known(m), m.steps.Keys, m.checkpoint, m.pending)
    ensures forall k :: k in m.steps ==> k.index <= m.checkpoint
    ensures forall t :: t in m.requests ==> m.requests[t].id.index <= m.checkpoint
  {
    assert forall k :: k in m.steps ==> k in Known(m);
    assert forall t :: t in m.requests ==> m.requests[t].id in Known(m);
  }

  lemma FollowsLeft(deployments: seq<string>, left: seq<Turn>, checkpoint: nat)
    requires Follows(deployments, left, checkpoint)
    ensures Sourceless(left) && Selected(left) == AskedFrom(deployments, checkpoint + 1)
    ensures left == [] ==> checkpoint + 1 >= |deployments|
  {
    NothingAsked(deployments, checkpoint + 1);
    hide AskedFrom;
  }

  lemma RestartInTurn(deployments: seq<string>, m: Whole, characterTurn: bool, correction: string -> bool)
    requires InTurn(deployments, m)
    ensures InTurn(deployments, DoRestartAll(m, characterTurn, correction))
  {
    hide Next, Sourceless, Selected, AskedFrom, Follows, Positions, PlanOf;
    var m' := DoRestartAll(m, characterTurn, correction);
    assert m'.steps.Keys == m.steps.Keys;
    assert Known(m') <= Known(m);
    FewerPositions(deployments, Known(m), m.steps.Keys, Known(m'), m'.steps.Keys, m.checkpoint);
    SamePlans(m, m');
  }

  lemma SamePlans(m: Whole, m': Whole)
    requires m'.planned == m.planned
    ensures forall k :: PlanOf(m', k) == PlanOf(m, k)
  {
  }

  lemma YieldInTurn(deployments: seq<string>, m: Whole)
    requires InTurn(deployments, m)
    ensures InTurn(deployments, DoYield(m))
  {
    hide Sourceless, Selected, AskedFrom, Follows, Trim, Busy, Positions, Known, PlanOf;
    var m' := DoYield(m);
    if m' != m {
      TrimSelected(m.pending, SELECTED_ONLY);
      NothingSelected();
      NothingAsked(deployments, m.checkpoint);
      SameKnown(m, m');
      SamePlans(m, m');
    }
  }

  lemma NothingSelected()
    ensures Selected([]) == []
  {
  }

  lemma ApplyInTurn(deployments: seq<string>, m: Whole, move: Move, correction: string -> bool)
    requires InTurn(deployments, m) && Sane(m, correction) && Continuing(move)
    ensures InTurn(deployments, Apply(m, move, correction))
  {
    hide InTurn, DoRead, DoPrepare, DoStep, DoRestartAll, DoYield, OneOutstanding, EachKept, OneTurn;
    match move
    case Read(t) => ReadInTurn(deployments, m, t);
    case Prepare(t, exhausted) => PrepareInTurn(deployments, m, t, exhausted, correction);
    case Step(k, e, inserted, stop, cut) => StepInTurn(deployments, m, k, e, inserted, cut, correction);
    case RestartAll(characterTurn) => RestartInTurn(deployments, m, characterTurn, correction);
    case YieldToHuman => YieldInTurn(deployments, m);
  }

  lemma {:induction false} RunInTurn(deployments: seq<string>, moves: seq<Move>, correction: string -> bool)
    requires forall i :: 0 <= i < |moves| ==> Continuing(moves[i])
    ensures InTurn(deployments, RunAll(Start(deployments), moves, correction))
    decreases |moves|
  {
    hide Apply, InTurn, Continuing;
    if moves == [] {
      StartInTurn(deployments);
    } else {
      var before := moves[..|moves| - 1];
      assert forall i :: 0 <= i < |before| ==> before[i] == moves[i];
      RunInTurn(deployments, before, correction);
      RunAllKeeps(deployments, before, correction);
      hide Sane;
      ApplyInTurn(deployments, RunAll(Start(deployments), before, correction), moves[|moves| - 1], correction);
    }
  }

  /**
   Once a generation has ended the whole turn, nothing is proposed after its step, and when the step settles nothing is
   pending: the operation is completed.
  */
  lemma EndedTurnLeavesNothing(m: Whole, k: StepId, e: Event, inserted: seq<Turn>, stop: bool, cut: Cut,
                               correction: string -> bool)
    requires k in m.steps && k.index == m.checkpoint
    requires if m.steps[k].generator && e.Generate? then stop else PlanOf(m, k) == []
    ensures var m' := DoStep(m, k, e, inserted, stop, cut, correction);
            m' != m ==> if m'.checkpoint == m.checkpoint then PlanOf(m', k) == [] else m'.pending == []
  {
    hide Next, Own, Settled, Agrees;
    TrimNothing(cut);
  }

  // ---------------------------------------------------------------- over all runs

  /**
   In every run without such an end, whatever is generated, refreshed, dropped, delivered, cancelled, restarted or
   invited: what is still to come of the turns asked for is exactly what lies behind the checkpoint, in the order asked;
   the step at each of their positions is their character's; and a completed operation has settled every one of them.
  */
  lemma AskedTurnsAreServed(deployments: seq<string>, moves: seq<Move>, i: nat, correction: string -> bool)
    requires forall n :: 0 <= n < |moves| ==> Continuing(moves[n])
    requires i < |deployments|
    ensures var m := RunAll(Start(deployments), moves, correction); var k := StepId(i, deployments[i]);
            && |Selected(m.pending)| == (if m.checkpoint < |deployments| then |deployments| - m.checkpoint else 0)
            && (m.checkpoint <= i ==> Selected(m.pending)[i - m.checkpoint] == Turn(deployments[i], true, ""))
            && (forall j :: j in m.steps && j.index == i ==> j == k)
            && (i < m.checkpoint || m.operation == Completed ==> k in m.steps && Settled(m.steps[k].status))
  {
    hide RunAll, EachKept, CursorsInOrder, Selected, Follows, Settled;
    RunInTurn(deployments, moves, correction);
    RunAllKeeps(deployments, moves, correction);
    var m := RunAll(Start(deployments), moves, correction);
    assert forall j :: j in m.steps ==> j in Known(m);
  }
}
