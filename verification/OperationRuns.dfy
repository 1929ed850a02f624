/**
 A whole operation: its cursor, and every step that was ever prepared under it, each with its own preflights, claims
 and crashes. A request reads the cursor's checkpoint and prepares the step it read in a later transaction, when the
 checkpoint may have moved on; the checkpoint moves on when its step settles. This is why nothing outside a step opens
 its closed operation again, which `DraftRuns` takes for granted.
*/
module OperationRuns {
  import opened DraftFreshness
  import opened DraftRuns

  /** A pending turn: asked for by a human, or proposed by the reply of `source`. */
  datatype Turn = Turn(deployment: string, selected: bool, source: string)

  /** What identifies a step within its operation. */
  datatype StepId = StepId(index: nat, deployment: string)

  /** What a request read of the cursor: the step at the checkpoint, and the turns after it. */
  datatype Request = Request(id: StepId, rest: seq<Turn>)

  /** `planned` holds the cursor each step proposes for the operation; `requests` are those between read and prepare. */
  datatype Whole = Whole(operation: Operation, pending: seq<Turn>, checkpoint: nat, steps: map<StepId, Sys>,
                         planned: map<StepId, seq<Turn>>, requests: map<nat, Request>)

  /** What a settling step leaves of its proposals. */
  datatype Cut = Cut(onlySelected: bool, without: set<string>)

  datatype Move =
    | Read(t: nat)
    | Prepare(t: nat, exhausted: bool)
    | Step(k: StepId, event: Event, inserted: seq<Turn>, stop: bool, cut: Cut)
    | RestartAll(characterTurn: bool)
    | YieldToHuman

  function Trim(turns: seq<Turn>, cut: Cut): seq<Turn> {
    if turns == [] then []
    else
      var keep := (turns[0].selected || !cut.onlySelected) && turns[0].source !in cut.without;
      (if keep then [turns[0]] else []) + Trim(turns[1..], cut)
  }

  const SELECTED_ONLY: Cut := Cut(true, {})

  /** A step as it stands, with the operation it shares. */
  function View(m: Whole, k: StepId): Sys
    requires k in m.steps
  {
    m.steps[k].(operation := m.operation)
  }

  // ---------------------------------------------------------------- one move

  /** The checkpoint is read while it has a turn left. */
  function DoRead(m: Whole, t: nat): Whole {
    if t in m.requests || m.pending == [] then m
    else m.(requests := m.requests[t := Request(StepId(m.checkpoint, m.pending[0].deployment), m.pending[1..])])
  }

  /** The step that was read is prepared while the operation is open, unless it exists and did not fail. */
  function DoPrepare(m: Whole, t: nat, exhausted: bool, correction: string -> bool): Whole {
    if t !in m.requests then m
    else
      var k, rest, n := m.requests[t].id, m.requests[t].rest, m.(requests := m.requests - {t});
      if !Publishable(m.operation) || (k in m.steps && m.steps[k].status != Failed) then n
      else if exhausted then n.(operation := Abandoned)
      else n.(steps := m.steps[k := Prepared(m, k, correction)], planned := m.planned[k := rest])
  }

  function Prepared(m: Whole, k: StepId, correction: string -> bool): Sys {
    if k !in m.steps then Init.(operation := m.operation) else Next(View(m, k), Retry, correction)
  }

  /** The events that belong to one step alone. */
  predicate Own(e: Event) {
    !e.Retry? && !e.Restart? && !e.OperationMoves?
  }

  /** The turns a finished generation proposes: those after the checkpoint it read, then invitations of its own. */
  function Proposed(rest: seq<Turn>, inserted: seq<Turn>, stop: bool): seq<Turn> {
    if stop then [] else rest + inserted
  }

  function PlanOf(m: Whole, k: StepId): seq<Turn> {
    if k in m.planned then m.planned[k] else []
  }

  /** Whether the event's own account of the cursor agrees with the turns that are left. */
  predicate Agrees(e: Event, left: seq<Turn>) {
    match e
    case Generate(_, pendingLeft) => pendingLeft == (left != [])
    case Save(_, pendingLeft) => pendingLeft == (left != [])
    case Deliver(_, pendingLeft) => pendingLeft == (left != [])
    case _ => true
  }

  function DoStep(m: Whole, k: StepId, e: Event, inserted: seq<Turn>, stop: bool, cut: Cut,
                  correction: string -> bool): Whole
  {
    if k !in m.steps || !Own(e) || exists i :: 0 <= i < |inserted| && inserted[i].selected then m
    else
      var s := View(m, k);
      var t := Next(s, e, correction);
      var plan := if s.generator && e.Generate? then Proposed(PlanOf(m, k), inserted, stop) else PlanOf(m, k);
      var left := Trim(plan, cut);
      if !Settled(s.status) && Settled(t.status) then
        if !Agrees(e, left) then m
        else m.(operation := t.operation, steps := m.steps[k := t], pending := left, checkpoint := k.index + 1)
      else
        m.(operation := t.operation, steps := m.steps[k := t],
           planned := m.planned[k := if e.Save? then left else plan])
  }

  /** A restart ends every request; the operation follows its unsettled step, if it has one. */
  ghost function DoRestartAll(m: Whole, characterTurn: bool, correction: string -> bool): Whole {
    m.(operation := RestartedOperation(m, characterTurn), requests := map[],
       steps := map j | j in m.steps :: Next(View(m, j), Restart(characterTurn), correction))
  }

  ghost predicate AnyIn(m: Whole, status: Status) {
    exists j :: j in m.steps && m.steps[j].status == status
  }

  /** A restart closes the operation of a step it finds claimed, reserved or, for a character turn, generating. */
  ghost function RestartedOperation(m: Whole, characterTurn: bool): Operation {
    if m.operation == Completed then Completed
    else if AnyIn(m, Claimed) then Unresolved
    else if AnyIn(m, Refreshing) then Abandoned
    else if characterTurn && AnyIn(m, Generating) then Unresolved
    else m.operation
  }

  predicate Busy(s: Status) {
    s == Generating || s == Refreshing || s == Claimed
  }

  /** A newer human message ends optional continuations, also of a failed operation, unless work is running. */
  function DoYield(m: Whole): Whole {
    if (m.operation != Active && m.operation != Abandoned)
       || (m.pending != [] && m.pending[0].selected) || (exists j :: j in m.steps && Busy(m.steps[j].status)) then m
    else
      var left := Trim(m.pending, SELECTED_ONLY);
      m.(pending := left, operation := Advanced(left != []))
  }

  ghost function Apply(m: Whole, move: Move, correction: string -> bool): Whole {
    match move
    case Read(t) => DoRead(m, t)
    case Prepare(t, exhausted) => DoPrepare(m, t, exhausted, correction)
    case Step(k, e, inserted, stop, cut) => DoStep(m, k, e, inserted, stop, cut, correction)
    case RestartAll(characterTurn) => DoRestartAll(m, characterTurn, correction)
    case YieldToHuman => DoYield(m)
  }

  function Start(deployments: seq<string>): Whole {
    Whole(Active, seq(|deployments|, i requires 0 <= i < |deployments| => Turn(deployments[i], true, "")),
          0, map[], map[], map[])
  }

  ghost function RunAll(m: Whole, moves: seq<Move>, correction: string -> bool): Whole {
    if moves == [] then m else Apply(RunAll(m, moves[..|moves| - 1], correction), moves[|moves| - 1], correction)
  }

  // ---------------------------------------------------------------- what every run keeps

  /** Human requests come before invitations. */
  ghost predicate InOrder(turns: seq<Turn>) {
    forall i, j :: 0 <= i < j < |turns| && turns[j].selected ==> turns[i].selected
  }

  /** Every step before the checkpoint is settled, and none lies beyond it. */
  ghost predicate OneOutstanding(m: Whole) {
    forall k :: k in m.steps ==> k.index <= m.checkpoint && (k.index < m.checkpoint ==> Settled(m.steps[k].status))
  }

  /** Every step that was read or prepared. */
  ghost function Known(m: Whole): set<StepId> {
    m.steps.Keys + set t | t in m.requests :: m.requests[t].id
  }

  /** One step for each index: the checkpoint's is that of its turn, and those before it were all prepared. */
  ghost predicate OneTurn(known: set<StepId>, prepared: set<StepId>, checkpoint: nat, pending: seq<Turn>) {
    && (forall j, k :: j in known && k in known && j.index == k.index ==> j == k)
    && (forall k :: k in known ==>
          && k.index <= checkpoint
          && (k.index < checkpoint ==> k in prepared)
          && (k.index == checkpoint && pending != [] ==> k.deployment == pending[0].deployment))
  }

  ghost predicate EachKept(m: Whole, correction: string -> bool) {
    forall k :: k in m.steps ==> Inv(View(m, k), correction)
  }

  ghost predicate CursorsInOrder(m: Whole) {
    && InOrder(m.pending)
    && (forall k :: k in m.planned ==> InOrder(m.planned[k]))
    && (forall t :: t in m.requests ==> InOrder(m.requests[t].rest))
  }

  ghost predicate Sane(m: Whole, correction: string -> bool) {
    && OneOutstanding(m) && EachKept(m, correction) && CursorsInOrder(m)
    && OneTurn(Known(m), m.steps.Keys, m.checkpoint, m.pending)
  }

  lemma {:induction false} TrimInOrder(turns: seq<Turn>, cut: Cut)
    requires InOrder(turns)
    ensures InOrder(Trim(turns, cut))
    ensures forall t :: t in Trim(turns, cut) ==> t in turns
    ensures turns != [] && !turns[0].selected && cut.onlySelected ==> Trim(turns, cut) == []
  {
    if turns != [] {
      var rest := turns[1..];
      assert forall i :: 0 <= i < |rest| ==> rest[i] == turns[i + 1];
      TrimInOrder(rest, cut);
      var kept := Trim(rest, cut);
      forall j | 0 <= j < |kept| && kept[j].selected ensures turns[0].selected {
        assert kept[j] in rest;
      }
    }
  }

  /** A settling step keeps exactly the turns its cut allows, each as often as it was proposed. */
  lemma {:induction false} TrimIsExact(turns: seq<Turn>, cut: Cut, t: Turn)
    ensures multiset(Trim(turns, cut))[t]
         == if (t.selected || !cut.onlySelected) && t.source !in cut.without then multiset(turns)[t] else 0
  {
    if turns != [] {
      var rest := turns[1..];
      TrimIsExact(rest, cut, t);
      assert turns == [turns[0]] + rest;
      assert [] + Trim(rest, cut) == Trim(rest, cut);
    }
  }

  lemma ProposedInOrder(rest: seq<Turn>, inserted: seq<Turn>, stop: bool)
    requires InOrder(rest) && forall i :: 0 <= i < |inserted| ==> !inserted[i].selected
    ensures InOrder(Proposed(rest, inserted, stop))
  {
  }

  lemma PlanInOrder(m: Whole, k: StepId)
    requires CursorsInOrder(m)
    ensures InOrder(PlanOf(m, k))
  {
  }

  /**
   A step that cannot be generated again does not care what becomes of its operation; any step survives its closing.
  */
  lemma OtherOperation(s: Sys, o: Operation, correction: string -> bool)
    requires Inv(s, correction) && (s.status != Failed || Publishable(s.operation) || !Publishable(o))
    ensures Inv(s.(operation := o), correction)
  {
    hide Assess, Vouched;
  }

  /** What a settled step can still do to the operation it shares: close it. */
  lemma SettledOnlyCloses(s: Sys, e: Event, correction: string -> bool)
    requires Inv(s, correction) && Settled(s.status) && (Own(e) || e.Restart?)
    ensures var t := Next(s, e, correction);
            t.status == s.status && (t.operation == s.operation || !Publishable(t.operation))
            && (e.Restart? ==> t.operation == s.operation)
  {
    hide Assess, Rebuilt, SameJson, Budget, Honest, Evidence, Revision, Silenced, Unbound;
  }

  /** Replacing one step and moving the operation with it keeps every other step's invariant. */
  lemma OthersKept(m: Whole, k: StepId, t: Sys, correction: string -> bool)
    requires OneOutstanding(m) && EachKept(m, correction) && k.index <= m.checkpoint && Inv(t, correction)
    requires k.index < m.checkpoint ==> t.operation == m.operation || !Publishable(t.operation)
    requires forall j :: j in m.steps && j.index == k.index ==> j == k
    ensures EachKept(m.(operation := t.operation, steps := m.steps[k := t]), correction)
  {
    hide Inv, Publishable;
    var m' := m.(operation := t.operation, steps := m.steps[k := t]);
    forall j | j in m'.steps ensures Inv(View(m', j), correction) {
      if j != k {
        assert Inv(View(m, j), correction);
        if j.index < m.checkpoint {
          assert Settled(m.steps[j].status);
        }
        if t.operation == m.operation {
          assert View(m', j) == View(m, j);
        } else {
          OtherOperation(View(m, j), t.operation, correction);
        }
      } else {
        assert View(m', j) == t;
      }
    }
  }

  /** When the checkpoint's step settles every step read so far is behind the checkpoint, and was prepared. */
  lemma CheckpointMoves(known: set<StepId>, prepared: set<StepId>, k: StepId, pending: seq<Turn>, left: seq<Turn>)
    requires OneTurn(known, prepared, k.index, pending) && k in known && k in prepared
    ensures OneTurn(known, prepared, k.index + 1, left)
  {
  }

  lemma SettlesAtCheckpoint(m: Whole, k: StepId)
    requires OneOutstanding(m) && k in m.steps && !Settled(m.steps[k].status)
    ensures k.index == m.checkpoint
  {
  }

  lemma StepOutstanding(m: Whole, k: StepId, t: Sys, m': Whole)
    requires OneOutstanding(m) && k in m.steps && m'.steps == m.steps[k := t]
    requires OneTurn(Known(m), m.steps.Keys, m.checkpoint, m.pending)
    requires k.index < m.checkpoint ==> Settled(t.status)
    requires m'.checkpoint == m.checkpoint
             || (Settled(t.status) && k.index == m.checkpoint && m'.checkpoint == k.index + 1)
    ensures OneOutstanding(m')
  {
    hide Settled;
    assert forall j :: j in m.steps ==> j in Known(m);
  }

  lemma SameKnown(m: Whole, m': Whole)
    requires m'.requests == m.requests && m'.steps.Keys == m.steps.Keys
    ensures Known(m') == Known(m)
  {
  }

  lemma StepCursors(m: Whole, k: StepId, e: Event, inserted: seq<Turn>, stop: bool, cut: Cut,
                    correction: string -> bool)
    requires CursorsInOrder(m)
    ensures CursorsInOrder(DoStep(m, k, e, inserted, stop, cut, correction))
  {
    hide Next, InOrder, Trim, Proposed, Agrees, Own, Settled;
    if DoStep(m, k, e, inserted, stop, cut, correction) != m {
      PlanInOrder(m, k);
      ProposedInOrder(PlanOf(m, k), inserted, stop);
      TrimInOrder(PlanOf(m, k), cut);
      TrimInOrder(Proposed(PlanOf(m, k), inserted, stop), cut);
    }
  }

  lemma StepKeeps(m: Whole, k: StepId, e: Event, inserted: seq<Turn>, stop: bool, cut: Cut, correction: string -> bool)
    requires Sane(m, correction)
    ensures Sane(DoStep(m, k, e, inserted, stop, cut, correction), correction)
  {
    hide Inv, Next, CursorsInOrder, Trim, Proposed, Agrees, EachKept, Own, Settled, OneTurn, OneOutstanding, Known;
    var m' := DoStep(m, k, e, inserted, stop, cut, correction);
    if m' != m {
      var s := View(m, k);
      var t := Next(s, e, correction);
      ViewKept(m, k, correction);
      NextKeeps(s, e, correction);
      StepCursors(m, k, e, inserted, stop, cut, correction);
      StepWithin(m, k);
      AloneAtIndex(m, k);
      if k.index < m.checkpoint {
        SettledOnlyCloses(s, e, correction);
      }
      OthersKept(m, k, t, correction);
      SameSteps(m.(operation := t.operation, steps := m.steps[k := t]), m', correction);
      assert m'.steps.Keys == m.steps.Keys;
      SameKnown(m, m');
      if !Settled(s.status) {
        SettlesAtCheckpoint(m, k);
        CheckpointMoves(Known(m), m.steps.Keys, k, m.pending, m'.pending);
      }
      StepOutstanding(m, k, t, m');
    }
  }

  lemma AloneAtIndex(m: Whole, k: StepId)
    requires OneTurn(Known(m), m.steps.Keys, m.checkpoint, m.pending) && k in Known(m)
    ensures forall j :: j in m.steps && j.index == k.index ==> j == k
  {
    assert forall j :: j in m.steps ==> j in Known(m);
  }

  lemma StepWithin(m: Whole, k: StepId)
    requires OneOutstanding(m) && k in m.steps
    ensures k in Known(m) && k.index <= m.checkpoint
    ensures k.index < m.checkpoint ==> Settled(m.steps[k].status)
  {
  }

  lemma ViewKept(m: Whole, k: StepId, correction: string -> bool)
    requires EachKept(m, correction) && k in m.steps
    ensures Inv(View(m, k), correction)
  {
  }

  lemma SameSteps(m: Whole, m': Whole, correction: string -> bool)
    requires EachKept(m, correction) && m'.operation == m.operation && m'.steps == m.steps
    ensures EachKept(m', correction)
  {
    forall k | k in m'.steps ensures Inv(View(m', k), correction) {
      assert View(m', k) == View(m, k);
    }
  }

  lemma FreshStep(o: Operation, correction: string -> bool)
    ensures Inv(Init.(operation := o), correction)
  {
  }

  lemma ReadKnows(m: Whole, t: nat)
    requires OneTurn(Known(m), m.steps.Keys, m.checkpoint, m.pending) && t !in m.requests && m.pending != []
    ensures OneTurn(Known(DoRead(m, t)), m.steps.Keys, m.checkpoint, m.pending)
  {
    var k := StepId(m.checkpoint, m.pending[0].deployment);
    var m' := DoRead(m, t);
    assert m'.requests[t].id == k;
    assert forall j :: j in Known(m') ==> j in Known(m) || j == k;
  }

  lemma ReadKeeps(m: Whole, t: nat, correction: string -> bool)
    requires Sane(m, correction)
    ensures Sane(DoRead(m, t), correction)
  {
    hide Inv, EachKept, OneTurn, Known;
    if DoRead(m, t) != m {
      SameSteps(m, DoRead(m, t), correction);
      ReadKnows(m, t);
    }
  }

  /** A request whose step is behind the checkpoint finds that step settled, and prepares nothing. */
  lemma StaleIsSettled(m: Whole, t: nat)
    requires OneOutstanding(m) && OneTurn(Known(m), m.steps.Keys, m.checkpoint, m.pending) && t in m.requests
    ensures m.requests[t].id in Known(m) && m.requests[t].id.index <= m.checkpoint
    ensures m.requests[t].id.index < m.checkpoint ==>
              m.requests[t].id in m.steps && Settled(m.steps[m.requests[t].id].status)
  {
  }

  /** Fewer requests, and no step but one already read: still one step for each index. */
  lemma FewerKnown(m: Whole, m': Whole)
    requires OneTurn(Known(m), m.steps.Keys, m.checkpoint, m.pending)
    requires Known(m') <= Known(m) && m.steps.Keys <= m'.steps.Keys
    ensures OneTurn(Known(m'), m'.steps.Keys, m.checkpoint, m.pending)
  {
  }

  lemma RequestEnds(m: Whole, t: nat, m': Whole)
    requires t in m.requests && m'.requests == m.requests - {t} && m'.steps.Keys <= m.steps.Keys + {m.requests[t].id}
    ensures Known(m') <= Known(m)
  {
  }

  lemma PrepareKeeps(m: Whole, t: nat, exhausted: bool, correction: string -> bool)
    requires Sane(m, correction)
    ensures Sane(DoPrepare(m, t, exhausted, correction), correction)
  {
    hide Inv, Next, InOrder, EachKept, OneTurn, Known, OneOutstanding, Prepared;
    var m' := DoPrepare(m, t, exhausted, correction);
    if m' != m {
      var k := m.requests[t].id;
      StaleIsSettled(m, t);
      RequestEnds(m, t, m');
      FewerKnown(m, m');
      if m'.steps != m.steps {
        PreparedStep(m, k, correction);
        AloneAtIndex(m, k);
        OthersKept(m, k, Prepared(m, k, correction), correction);
        SameSteps(m.(steps := m.steps[k := Prepared(m, k, correction)]), m', correction);
        PreparedOutstanding(m, k, Prepared(m, k, correction), m');
      } else {
        if m'.operation != m.operation {
          ClosingKeeps(m, Abandoned, correction);
        }
        SameSteps(m.(operation := m'.operation), m', correction);
        SameOutstanding(m, m');
      }
    }
  }

  lemma SameOutstanding(m: Whole, m': Whole)
    requires OneOutstanding(m) && m'.steps == m.steps && m'.checkpoint == m.checkpoint
    ensures OneOutstanding(m')
  {
  }

  lemma PreparedOutstanding(m: Whole, k: StepId, t: Sys, m': Whole)
    requires OneOutstanding(m) && m'.steps == m.steps[k := t] && m'.checkpoint == m.checkpoint == k.index
    ensures OneOutstanding(m')
  {
  }

  lemma PreparedStep(m: Whole, k: StepId, correction: string -> bool)
    requires EachKept(m, correction)
    ensures Inv(Prepared(m, k, correction), correction) && Prepared(m, k, correction).operation == m.operation
  {
    hide Inv, Next;
    if k in m.steps {
      ViewKept(m, k, correction);
      NextKeeps(View(m, k), Retry, correction);
      RetryKeepsOperation(View(m, k), correction);
    } else {
      FreshStep(m.operation, correction);
    }
  }

  lemma RetryKeepsOperation(s: Sys, correction: string -> bool)
    ensures Next(s, Retry, correction).operation == s.operation
  {
  }

  lemma ClosingKeeps(m: Whole, o: Operation, correction: string -> bool)
    requires EachKept(m, correction) && !Publishable(o)
    ensures EachKept(m.(operation := o), correction)
  {
    hide Inv;
    forall k | k in m.steps ensures Inv(View(m.(operation := o), k), correction) {
      OtherOperation(View(m, k), o, correction);
    }
  }

  lemma OnlyUnsettledStatus(m: Whole, k: StepId)
    requires OneOutstanding(m) && OneTurn(Known(m), m.steps.Keys, m.checkpoint, m.pending)
    requires k in m.steps && !Settled(m.steps[k].status)
    ensures forall status :: !Settled(status) ==> (AnyIn(m, status) <==> status == m.steps[k].status)
  {
    forall j | j in m.steps && !Settled(m.steps[j].status)
      ensures j == k
    {
      assert j in Known(m) && k in Known(m);
    }
    assert AnyIn(m, m.steps[k].status);
  }

  lemma RestartMoves(s: Sys, characterTurn: bool, correction: string -> bool)
    ensures Next(s, Restart(characterTurn), correction).operation ==
              if s.operation == Completed then Completed
              else if s.status == Claimed then Unresolved
              else if s.status == Refreshing then Abandoned
              else if characterTurn && s.status == Generating then Unresolved
              else s.operation
  {
  }

  /** The operation after a restart is what the restart of its unsettled step makes of it. */
  lemma RestartOfUnsettled(m: Whole, k: StepId, characterTurn: bool, correction: string -> bool)
    requires OneOutstanding(m) && OneTurn(Known(m), m.steps.Keys, m.checkpoint, m.pending)
    requires k in m.steps && !Settled(m.steps[k].status)
    ensures Next(View(m, k), Restart(characterTurn), correction).operation == RestartedOperation(m, characterTurn)
  {
    OnlyUnsettledStatus(m, k);
    RestartMoves(View(m, k), characterTurn, correction);
    hide OneTurn, Known, OneOutstanding, Next, AnyIn;
  }

  /** A restart leaves a settled step and the operation it shares alone, or closes the operation. */
  lemma RestartOnlyCloses(m: Whole, characterTurn: bool)
    ensures RestartedOperation(m, characterTurn) == m.operation || !Publishable(RestartedOperation(m, characterTurn))
  {
  }

  lemma RestartedStep(m: Whole, k: StepId, characterTurn: bool, correction: string -> bool)
    requires OneOutstanding(m) && OneTurn(Known(m), m.steps.Keys, m.checkpoint, m.pending)
    requires EachKept(m, correction) && k in m.steps
    ensures var m' := DoRestartAll(m, characterTurn, correction);
            && Inv(View(m', k), correction)
            && (Settled(m.steps[k].status) ==> Settled(m'.steps[k].status))
  {
    hide Inv, Next, OneTurn, OneOutstanding, Known, RestartedOperation, Settled;
    var s, e := View(m, k), Restart(characterTurn);
    ViewKept(m, k, correction);
    NextKeeps(s, e, correction);
    RestartOnlyCloses(m, characterTurn);
    if Settled(m.steps[k].status) {
      SettledOnlyCloses(s, e, correction);
      OtherOperation(Next(s, e, correction), RestartedOperation(m, characterTurn), correction);
    } else {
      RestartOfUnsettled(m, k, characterTurn, correction);
      assert View(DoRestartAll(m, characterTurn, correction), k) == Next(s, e, correction);
    }
  }

  lemma RestartKeeps(m: Whole, characterTurn: bool, correction: string -> bool)
    requires Sane(m, correction)
    ensures Sane(DoRestartAll(m, characterTurn, correction), correction)
  {
    hide Inv, Next, InOrder, OneTurn, Settled, RestartedOperation;
    var m' := DoRestartAll(m, characterTurn, correction);
    assert m'.steps.Keys == m.steps.Keys;
    assert Known(m') <= Known(m);
    FewerKnown(m, m');
    forall k | k in m'.steps
      ensures Inv(View(m', k), correction) && (k.index < m.checkpoint ==> Settled(m'.steps[k].status))
    {
      RestartedStep(m, k, characterTurn, correction);
    }
  }

  lemma YieldKeeps(m: Whole, correction: string -> bool)
    requires Sane(m, correction)
    ensures Sane(DoYield(m), correction)
    ensures !Publishable(m.operation) ==> !Publishable(DoYield(m).operation)
  {
    hide Inv, EachKept, InOrder, Trim, OneTurn, Known;
    var m' := DoYield(m);
    if m' != m {
      TrimInOrder(m.pending, SELECTED_ONLY);
      TrimNothing(SELECTED_ONLY);
      ClosingKeeps(m, Completed, correction);
      SameSteps(m.(operation := Completed), m', correction);
      SameKnown(m, m');
      NothingPending(Known(m), m.steps.Keys, m.checkpoint, m.pending);
    }
  }

  lemma NothingPending(known: set<StepId>, prepared: set<StepId>, checkpoint: nat, pending: seq<Turn>)
    requires OneTurn(known, prepared, checkpoint, pending)
    ensures OneTurn(known, prepared, checkpoint, [])
  {
  }

  lemma TrimNothing(cut: Cut)
    ensures Trim([], cut) == []
  {
  }

  lemma ApplyKeeps(m: Whole, move: Move, correction: string -> bool)
    requires Sane(m, correction)
    ensures Sane(Apply(m, move, correction), correction)
  {
    hide Sane, DoRead, DoPrepare, DoStep, DoRestartAll, DoYield;
    match move
    case Read(t) => ReadKeeps(m, t, correction);
    case Prepare(t, exhausted) => PrepareKeeps(m, t, exhausted, correction);
    case Step(k, e, inserted, stop, cut) => StepKeeps(m, k, e, inserted, stop, cut, correction);
    case RestartAll(characterTurn) => RestartKeeps(m, characterTurn, correction);
    case YieldToHuman => YieldKeeps(m, correction);
  }

  /** In every run of an operation only the checkpoint's step is unsettled, and every step keeps its own invariant. */
  lemma {:induction false} RunAllKeeps(deployments: seq<string>, moves: seq<Move>, correction: string -> bool)
    ensures Sane(RunAll(Start(deployments), moves, correction), correction)
    decreases |moves|
  {
    hide Apply;
    if moves != [] {
      RunAllKeeps(deployments, moves[..|moves| - 1], correction);
      hide Sane;
      ApplyKeeps(RunAll(Start(deployments), moves[..|moves| - 1], correction), moves[|moves| - 1], correction);
    }
  }

  // ---------------------------------------------------------------- over all runs

  /**
   Whatever its steps, restarts and cancellations, an operation has the
   model refresh the draft of each step at most once.
  */
  lemma EachStepRefreshedOnce(deployments: seq<string>, moves: seq<Move>, k: StepId, correction: string -> bool)
    requires k in RunAll(Start(deployments), moves, correction).steps
    ensures RunAll(Start(deployments), moves, correction).steps[k].calls <= 1
  {
    RunAllKeeps(deployments, moves, correction);
    ViewKept(RunAll(Start(deployments), moves, correction), k, correction);
  }

  /** And whatever may be sent of any step was kept against a room read after its text was produced. */
  lemma EachPublishedWasChecked(deployments: seq<string>, moves: seq<Move>, k: StepId, correction: string -> bool)
    requires k in RunAll(Start(deployments), moves, correction).steps
    ensures Checked(RunAll(Start(deployments), moves, correction).steps[k], correction)
  {
    hide RunAll, Checked;
    RunAllKeeps(deployments, moves, correction);
    var m := RunAll(Start(deployments), moves, correction);
    ViewKept(m, k, correction);
    KeptIsChecked(View(m, k), correction);
    SameChecks(m.steps[k], m.operation, correction);
  }

  lemma SameChecks(s: Sys, o: Operation, correction: string -> bool)
    ensures Checked(s.(operation := o), correction) == Checked(s, correction)
  {
    hide Assess, Vouches;
  }

  /** At any time at most one step is unsettled; it is the checkpoint's, and that of the turn at its head. */
  lemma OneStepOutstanding(deployments: seq<string>, moves: seq<Move>, j: StepId, k: StepId, correction: string -> bool)
    requires var m := RunAll(Start(deployments), moves, correction);
             j in m.steps && k in m.steps && !Settled(m.steps[j].status) && !Settled(m.steps[k].status)
    ensures var m := RunAll(Start(deployments), moves, correction);
            j == k && k.index == m.checkpoint && (m.pending != [] ==> k.deployment == m.pending[0].deployment)
  {
    hide RunAll, EachKept, CursorsInOrder, Settled;
    RunAllKeeps(deployments, moves, correction);
    var m := RunAll(Start(deployments), moves, correction);
    assert j in Known(m) && k in Known(m);
  }

  /**
   A request is overtaken when the checkpoint moved on between its read and its prepare. Its step was then prepared
   and settled by another request, so preparing it again changes nothing; every other request names the step of the
   checkpoint, and no two requests or steps disagree about an index.
  */
  lemma StalePrepareChangesNothing(deployments: seq<string>, moves: seq<Move>, t: nat, exhausted: bool,
                                   correction: string -> bool)
    requires t in RunAll(Start(deployments), moves, correction).requests
    ensures var m := RunAll(Start(deployments), moves, correction);
            var k := m.requests[t].id;
            && k.index <= m.checkpoint
            && (k.index < m.checkpoint ==>
                  && k in m.steps && Settled(m.steps[k].status)
                  && Apply(m, Prepare(t, exhausted), correction) == m.(requests := m.requests - {t}))
            && (k.index == m.checkpoint && m.pending != [] ==> k.deployment == m.pending[0].deployment)
            && (forall j :: j in m.steps && j.index == k.index ==> j == k)
  {
    hide RunAll, EachKept, CursorsInOrder;
    RunAllKeeps(deployments, moves, correction);
    var m := RunAll(Start(deployments), moves, correction);
    StaleIsSettled(m, t);
  }

  predicate Concerns(m: Whole, move: Move, k: StepId) {
    || move.RestartAll?
    || (move.Prepare? && move.t in m.requests && m.requests[move.t].id == k)
    || (move.Step? && move.k == k)
  }

  /** To an unsettled step everything else is at most a closing of its operation: a closed one is not opened again. */
  lemma OthersOnlyClose(deployments: seq<string>, moves: seq<Move>, move: Move, k: StepId, correction: string -> bool)
    requires var m := RunAll(Start(deployments), moves, correction);
             k in m.steps && !Settled(m.steps[k].status) && !Concerns(m, move, k)
    ensures var m := RunAll(Start(deployments), moves, correction); var m' := Apply(m, move, correction);
            && k in m'.steps && m'.steps[k] == m.steps[k] && m'.checkpoint == m.checkpoint
            && (m'.operation == m.operation || !Publishable(m'.operation))
  {
    hide RunAll;
    RunAllKeeps(deployments, moves, correction);
    OtherMoves(RunAll(Start(deployments), moves, correction), move, k, correction);
  }

  lemma OtherMoves(m: Whole, move: Move, k: StepId, correction: string -> bool)
    requires Sane(m, correction) && k in m.steps && !Settled(m.steps[k].status) && !Concerns(m, move, k)
    ensures var m' := Apply(m, move, correction);
            && k in m'.steps && m'.steps[k] == m.steps[k] && m'.checkpoint == m.checkpoint
            && (m'.operation == m.operation || !Publishable(m'.operation))
  {
    hide Next, InOrder, Inv, Settled, Trim, Proposed, Agrees, Own, Busy, Known, OneTurn;
    match move
    case Read(_) =>
    case Prepare(t, exhausted) => OtherPrepare(m, t, k, exhausted, correction);
    case Step(j, e, inserted, stop, cut) =>
      if DoStep(m, j, e, inserted, stop, cut, correction) != m {
        OnlyUnsettled(m, j, k);
        ViewKept(m, j, correction);
        SettledOnlyCloses(View(m, j), e, correction);
      }
    case YieldToHuman =>
      TrimInOrder(m.pending, SELECTED_ONLY);
      TrimNothing(SELECTED_ONLY);
  }

  lemma OnlyUnsettled(m: Whole, j: StepId, k: StepId)
    requires OneOutstanding(m) && OneTurn(Known(m), m.steps.Keys, m.checkpoint, m.pending)
    requires j in m.steps && k in m.steps && !Settled(m.steps[k].status) && j != k
    ensures Settled(m.steps[j].status)
  {
    assert j in Known(m) && k in Known(m);
  }

  /** A request for another step than the unsettled one is overtaken. */
  lemma OtherPrepare(m: Whole, t: nat, k: StepId, exhausted: bool, correction: string -> bool)
    requires Sane(m, correction) && k in m.steps && !Settled(m.steps[k].status)
    requires t in m.requests ==> m.requests[t].id != k
    ensures t in m.requests ==> DoPrepare(m, t, exhausted, correction) == m.(requests := m.requests - {t})
    ensures t !in m.requests ==> DoPrepare(m, t, exhausted, correction) == m
  {
    if t in m.requests {
      StaleIsSettled(m, t);
      assert k in Known(m);
    }
  }
}
