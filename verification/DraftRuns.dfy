/**
 One persisted draft under every interleaving of preflights, delivery claims, crashes and restarts. A preflight is a
 coroutine: each event below is one of its database transactions, room reads or model calls, and any other event may
 come between two of them.
*/
module DraftRuns {
  import opened Wrappers
  import opened DraftFreshness

  /** A persisted reply. `written` is history: the event in which its text was produced. */
  datatype Reply = Reply(text: string, silent: bool, trace: Option<Trace>, checkedAt: Option<nat>, written: nat)

  datatype Status = Generating | Generated | Refreshing | Silent | Failed | Claimed | Delivered | Uncertain

  datatype Operation = Active | AwaitingDelivery | Completed | Abandoned | Unresolved

  /** Where a preflight or a delivery claim stands. `original` is there while a failed save is still caught. */
  datatype Worker =
    | Loaded(reply: Reply)
    | Reserved(reply: Reply)
    | Revising(reply: Reply, focus: Focus)
    | Calling(reply: Reply, focus: Focus)
    | Revised(reply: Reply, before: Reply)
    | Saving(reply: Reply, original: Option<Reply>)
    | Claiming(reply: Reply)

  /** History: a draft text was kept against what the room showed in event `readAt`. */
  datatype Check = Check(trace: Trace, written: nat, focus: Focus, readAt: nat)

  /** `generator` says that a generation is still running; `calls` counts the step's refresh calls to the model. */
  datatype Sys = Sys(status: Status, reply: Option<Reply>, operation: Operation, generator: bool,
                     workers: map<nat, Worker>, tick: nat, calls: nat, checks: seq<Check>)

  datatype Event =
    | Generate(reply: Reply, pendingLeft: bool)
    | GenerationFails
    | GeneratorDies
    | Retry
    | Load(w: nat)
    | Reserve(w: nat)
    | Assessed(w: nat, focus: Option<Focus>, writable: bool, expired: bool)
    | Call(w: nat)
    | Answer(w: nat, text: string, ignore: bool)
    | Reassessed(w: nat, focus: Option<Focus>, writable: bool)
    | Fail(w: nat)
    | Save(w: nat, pendingLeft: bool)
    | ClaimRead(w: nat, shown: Focus)
    | Claim(w: nat)
    | Deliver(visible: bool, pendingLeft: bool)
    | LoseClaim
    | CancelDelivery
    | InterruptJob
    | Die(w: nat)
    | Restart(characterTurn: bool)
    | OperationMoves(operation: Operation)

  predicate Publishable(o: Operation) {
    o == Active || o == AwaitingDelivery
  }

  /** The comparison of the guarded update: everything persisted is equal. */
  predicate SameJson(a: Reply, b: Reply) {
    a.(written := b.written) == b
  }

  function Silenced(r: Reply): Reply {
    r.(text := "", silent := true)
  }

  function Revision(r: Reply, focus: Focus, text: string, ignore: bool, tick: nat): Reply
    requires r.trace.Some?
  {
    r.(text := text, silent := ignore, trace := Some(Rebuilt(r.trace.value, focus)), written := tick)
  }

  function Put(s: Sys, w: nat, to: Worker): Sys {
    s.(workers := s.workers[w := to])
  }

  function Gone(s: Sys, w: nat): Sys {
    s.(workers := s.workers - {w})
  }

  function Noted(s: Sys, r: Reply, focus: Focus): Sys
    requires r.trace.Some?
  {
    s.(checks := s.checks + [Check(r.trace.value, r.written, focus, s.tick)])
  }

  // ---------------------------------------------------------------- one event

  /** The operation once a step's cursor became its own. */
  function Advanced(pendingLeft: bool): Operation {
    if pendingLeft then Active else Completed
  }

  /** A finished generation writes its result whatever became of the step meanwhile. */
  function DoGenerate(s: Sys, r: Reply, pendingLeft: bool): Sys {
    if !s.generator || r.checkedAt.Some? || (r.trace.Some? && r.trace.value.refreshCount != 0) then s
    else s.(status := if r.silent then Silent else Generated, reply := Some(r.(written := s.tick)), generator := false,
            operation := if r.silent then Advanced(pendingLeft) else AwaitingDelivery)
  }

  function DoGenerationFails(s: Sys): Sys {
    if !s.generator then s
    else s.(status := Failed, generator := false,
            operation := if s.operation == Completed || s.operation == Unresolved then s.operation else Active)
  }

  /** A failed step is generated again only while its operation is open. */
  function DoRetry(s: Sys): Sys {
    if s.status == Failed && Publishable(s.operation) then s.(status := Generating, generator := true) else s
  }

  function DoLoad(s: Sys, w: nat): Sys {
    if w in s.workers || s.status != Generated || !Publishable(s.operation) || s.reply == None then s
    else Put(s, w, Loaded(s.reply.value))
  }

  function DoReserve(s: Sys, w: nat): Sys {
    if w !in s.workers || !s.workers[w].Loaded? then s
    else
      var r := s.workers[w].reply;
      if s.status == Generated && s.reply.Some? && SameJson(s.reply.value, r)
      then Put(s.(status := Refreshing), w, Reserved(r))
      else Gone(s, w)
  }

  function DoAssessed(s: Sys, w: nat, focus: Option<Focus>, writable: bool, expired: bool,
                      correction: string -> bool): Sys
  {
    if w !in s.workers || !s.workers[w].Reserved? then s
    else
      var r := s.workers[w].reply;
      if r.trace == None || focus == None then Put(s, w, Saving(Silenced(r), None))
      else
        var d := Assess(r.trace.value, focus.value, writable, expired, correction);
        if d.action == Keep then Put(Noted(s, r, focus.value), w, Saving(r, Some(r)))
        else if d.action == Refresh then Put(s, w, Revising(r, focus.value))
        else Put(s, w, Saving(Silenced(r), None))
  }

  function DoCall(s: Sys, w: nat): Sys {
    if w !in s.workers || !s.workers[w].Revising? then s
    else Put(s.(calls := s.calls + 1), w, Calling(s.workers[w].reply, s.workers[w].focus))
  }

  /** The characters `str.strip` takes off. */
  predicate Whitespace(c: char) {
    var n := c as int;
    9 <= n <= 13 || 28 <= n <= 32 || n == 0x85 || n == 0xA0 || n == 0x1680 || 0x2000 <= n <= 0x200A
    || n == 0x2028 || n == 0x2029 || n == 0x202F || n == 0x205F || n == 0x3000
  }

  predicate Visible(text: string) {
    exists i :: 0 <= i < |text| && !Whitespace(text[i])
  }

  /** The shape a refresh must have: some visible text, or an ignore without any. */
  predicate WellFormed(text: string, ignore: bool) {
    |text| <= 4000 && if ignore then text == "" else Visible(text)
  }

  /** A direct request may not be declined. */
  predicate Usable(r: Reply, text: string, ignore: bool) {
    WellFormed(text, ignore) && r.trace.Some? && !(ignore && r.trace.value.origin == Direct)
  }

  function DoAnswer(s: Sys, w: nat, text: string, ignore: bool): Sys {
    if w !in s.workers || !s.workers[w].Calling? || s.workers[w].reply.trace == None then s
    else
      var r := s.workers[w].reply;
      if !Usable(r, text, ignore) then Put(s, w, Saving(Silenced(r), None))
      else Put(s, w, Revised(Revision(r, s.workers[w].focus, text, ignore, s.tick), r))
  }

  function DoReassessed(s: Sys, w: nat, focus: Option<Focus>, writable: bool, correction: string -> bool): Sys {
    if w !in s.workers || !s.workers[w].Revised? || s.workers[w].reply.trace == None then s
    else
      var r, before := s.workers[w].reply, s.workers[w].before;
      if focus == None then Put(s, w, Saving(Silenced(before), None))
      else if Assess(r.trace.value, focus.value, writable, false, correction).action == Keep
      then Put(Noted(s, r, focus.value), w, Saving(r, Some(before)))
      else Put(s, w, Saving(Silenced(r), Some(before)))
  }

  function DoFail(s: Sys, w: nat): Sys {
    if w !in s.workers then s
    else match s.workers[w]
      case Reserved(r) => Put(s, w, Saving(Silenced(r), None))
      case Revising(r, _) => Put(s, w, Saving(Silenced(r), None))
      case Calling(r, _) => Put(s, w, Saving(Silenced(r), None))
      case Revised(_, r) => Put(s, w, Saving(Silenced(r), None))
      case _ => s
  }

  /** A save refused inside the guarded section is answered by one more attempt, to silence the draft. */
  function DoSave(s: Sys, w: nat, pendingLeft: bool): Sys {
    if w !in s.workers || !s.workers[w].Saving? then s
    else
      var r, original := s.workers[w].reply, s.workers[w].original;
      if s.status == Refreshing && Publishable(s.operation) then
        if r.silent
        then Gone(s.(status := Silent, reply := Some(r), operation := Advanced(pendingLeft)), w)
        else Gone(s.(status := Generated,
                     reply := Some(if r.trace.Some? then r.(checkedAt := Some(s.tick)) else r)), w)
      else if original.Some? then Put(s, w, Saving(Silenced(original.value), None))
      else Gone(s, w)
  }

  predicate Unbound(r: Reply) {
    r.trace == None || r.trace.value.target == ""
  }

  function DoClaimRead(s: Sys, w: nat, focus: Focus, correction: string -> bool): Sys {
    if w in s.workers || s.status != Generated || s.reply == None then s
    else if Unbound(s.reply.value)
            || (s.reply.value.checkedAt.Some?
                && Assess(s.reply.value.trace.value, focus, true, false, correction).action == Keep)
    then Put(s, w, Claiming(s.reply.value))
    else s
  }

  function DoClaim(s: Sys, w: nat): Sys {
    if w !in s.workers || !s.workers[w].Claiming? then s
    else if s.status == Generated && s.reply.Some? && SameJson(s.reply.value, s.workers[w].reply)
    then Gone(s.(status := Claimed), w)
    else Gone(s, w)
  }

  /** A generated reply nobody has claimed is withdrawn, and its operation with it. */
  function DoCancel(s: Sys): Sys {
    if s.status == Generated then s.(status := Failed, reply := None, operation := Abandoned) else s
  }

  function DoInterrupt(s: Sys): Sys {
    s.(operation := Unresolved, status := if s.status == Generating then Uncertain else s.status)
  }

  function Unless(done: Operation, now: Operation, to: Operation): Operation {
    if now == done then now else to
  }

  /** Everything in flight dies with the process; what it had reserved is never restored as sendable. */
  function DoRestart(s: Sys, characterTurn: bool): Sys {
    var t := s.(workers := map[], generator := false);
    match s.status
    case Generating =>
      if characterTurn then t.(status := Uncertain, operation := Unless(Completed, s.operation, Unresolved))
      else t.(status := Failed)
    case Refreshing => t.(status := Failed, reply := None, operation := Unless(Completed, s.operation, Abandoned))
    case Claimed => t.(status := Uncertain, operation := Unless(Completed, s.operation, Unresolved))
    case _ => t
  }

  /** What happens to the operation elsewhere: it may be closed, and once closed it is not opened again. */
  function DoOperationMoves(s: Sys, o: Operation): Sys {
    if Publishable(s.operation) || !Publishable(o) then s.(operation := o) else s
  }

  function Effect(s: Sys, e: Event, correction: string -> bool): Sys {
    match e
    case Generate(r, pendingLeft) => DoGenerate(s, r, pendingLeft)
    case GenerationFails => DoGenerationFails(s)
    case GeneratorDies => s.(generator := false)
    case Retry => DoRetry(s)
    case Load(w) => DoLoad(s, w)
    case Reserve(w) => DoReserve(s, w)
    case Assessed(w, focus, writable, expired) => DoAssessed(s, w, focus, writable, expired, correction)
    case Call(w) => DoCall(s, w)
    case Answer(w, text, ignore) => DoAnswer(s, w, text, ignore)
    case Reassessed(w, focus, writable) => DoReassessed(s, w, focus, writable, correction)
    case Fail(w) => DoFail(s, w)
    case Save(w, pendingLeft) => DoSave(s, w, pendingLeft)
    case ClaimRead(w, focus) => DoClaimRead(s, w, focus, correction)
    case Claim(w) => DoClaim(s, w)
    case Deliver(visible, pendingLeft) =>
      if s.status == Claimed
      then s.(status := if visible then Delivered else Silent, operation := Advanced(pendingLeft))
      else s
    case LoseClaim => if s.status == Claimed then s.(status := Uncertain, operation := Unresolved) else s
    case CancelDelivery => DoCancel(s)
    case InterruptJob => DoInterrupt(s)
    case Die(w) => Gone(s, w)
    case Restart(characterTurn) => DoRestart(s, characterTurn)
    case OperationMoves(o) => DoOperationMoves(s, o)
  }

  function Next(s: Sys, e: Event, correction: string -> bool): Sys {
    Effect(s, e, correction).(tick := s.tick + 1)
  }

  const Init: Sys := Sys(Generating, None, Active, true, map[], 0, 0, [])

  function RunFrom(s: Sys, es: seq<Event>, correction: string -> bool): Sys {
    if es == [] then s else Next(RunFrom(s, es[..|es| - 1], correction), es[|es| - 1], correction)
  }

  // ---------------------------------------------------------------- what every run keeps

  /** A worker between its reservation and its save. */
  predicate Holder(w: Worker) {
    w.Reserved? || w.Revising? || w.Calling? || w.Revised? || w.Saving?
  }

  /** Only one preflight at a time holds the draft, never beside a generation, and the row says so. */
  ghost predicate Exclusive(s: Sys) {
    && (s.generator ==> s.status == Generating || s.status == Uncertain)
    && (forall w :: w in s.workers && Holder(s.workers[w]) ==> s.status == Refreshing)
    && forall v, w :: v in s.workers && w in s.workers && Holder(s.workers[v]) && Holder(s.workers[w]) ==> v == w
  }

  predicate RefreshedOnce(r: Reply) {
    r.trace.Some? && r.trace.value.refreshCount > 0
  }

  /** Once the step's model was called for a refresh, what may be saved as sendable says that it was refreshed. */
  predicate Frugal(calls: nat, w: Worker) {
    match w
    case Loaded(_) => true
    case Claiming(_) => true
    case Reserved(r) => calls == 0 || RefreshedOnce(r)
    case Revising(r, _) => calls == 0 && r.trace.Some?
    case Calling(r, _) => r.trace.Some?
    case Revised(r, _) => RefreshedOnce(r)
    case Saving(r, _) => r.silent || (r.trace.Some? && (calls == 0 || RefreshedOnce(r)))
  }

  ghost predicate Budget(s: Sys) {
    && s.calls <= 1
    && (s.generator || s.status == Generating || (s.status == Failed && Publishable(s.operation)) ==> s.calls == 0)
    && (s.status == Generated ==> s.reply.Some? && (s.calls == 0 || RefreshedOnce(s.reply.value)))
    && forall w :: w in s.workers ==> Frugal(s.calls, s.workers[w])
  }

  /** The text of `r` was kept against a room read after it was produced. */
  ghost predicate Vouched(checks: seq<Check>, r: Reply) {
    r.trace.Some? && exists i :: 0 <= i < |checks| && Vouches(checks[i], r)
  }

  predicate Vouches(c: Check, r: Reply) {
    r.trace.Some? && c.trace == r.trace.value && c.written == r.written < c.readAt
  }

  ghost predicate Honest(s: Sys, correction: string -> bool) {
    forall i :: 0 <= i < |s.checks| ==>
      && s.checks[i].readAt < s.tick
      && Assess(s.checks[i].trace, s.checks[i].focus, true, false, correction).action == Keep
  }

  ghost predicate Sound(checks: seq<Check>, tick: nat, w: Worker) {
    && w.reply.written < tick
    && (w.Revised? ==> w.before.written < tick)
    && (w.Saving? && w.original.Some? ==> w.original.value.written < tick)
    && (w.Saving? && !w.reply.silent ==> Vouched(checks, w.reply))
  }

  ghost predicate Evidence(s: Sys) {
    && (s.reply.Some? ==> s.reply.value.written < s.tick)
    && (s.reply.Some? && s.reply.value.checkedAt.Some? && !s.reply.value.silent
        && s.status in {Generated, Claimed, Delivered} ==>
          Vouched(s.checks, s.reply.value))
    && (s.status in {Claimed, Delivered} ==>
          s.reply.Some? && !s.reply.value.silent && (Unbound(s.reply.value) || s.reply.value.checkedAt.Some?))
    && (s.status == Generated ==> s.reply.Some? && !s.reply.value.silent)
    && (forall w :: w in s.workers ==> Sound(s.checks, s.tick, s.workers[w]))
    && forall w :: w in s.workers && s.workers[w].Claiming? ==>
         Unbound(s.workers[w].reply) || s.workers[w].reply.checkedAt.Some?
  }

  ghost predicate Inv(s: Sys, correction: string -> bool) {
    Exclusive(s) && Budget(s) && Honest(s, correction) && Evidence(s)
  }

  /** A preflight's own progress between its reservation and its save. */
  predicate HolderStep(e: Event) {
    e.Assessed? || e.Call? || e.Answer? || e.Reassessed? || e.Fail?
  }

  /** The other steps of a preflight or a claim. */
  predicate EdgeStep(e: Event) {
    e.Load? || e.Reserve? || e.Save? || e.ClaimRead? || e.Claim? || e.Die?
  }

  lemma ExclusiveKept(s: Sys, e: Event, correction: string -> bool)
    requires Exclusive(s)
    ensures Exclusive(Next(s, e, correction))
  {
    hide Exclusive, Next;
    if HolderStep(e) {
      ExclusiveOfHolder(s, e, correction);
    } else if EdgeStep(e) {
      ExclusiveAtEdges(s, e, correction);
    } else {
      ExclusiveElsewhere(s, e, correction);
    }
  }

  lemma ExclusiveOfHolder(s: Sys, e: Event, correction: string -> bool)
    requires Exclusive(s) && HolderStep(e)
    ensures Exclusive(Next(s, e, correction))
  {
    hide Assess, Rebuilt, Revision, Silenced;
  }

  lemma ExclusiveAtEdges(s: Sys, e: Event, correction: string -> bool)
    requires Exclusive(s) && EdgeStep(e)
    ensures Exclusive(Next(s, e, correction))
  {
    hide Assess, SameJson, Silenced, Unbound, Publishable, Advanced;
  }

  lemma ExclusiveElsewhere(s: Sys, e: Event, correction: string -> bool)
    requires Exclusive(s) && !HolderStep(e) && !EdgeStep(e)
    ensures Exclusive(Next(s, e, correction))
  {
    hide Publishable, Advanced, Unless;
  }

  /** What the decision of worker `w` in event `e` implies. */
  lemma DecisionIsRight(s: Sys, e: Event, w: nat, correction: string -> bool)
    requires w in s.workers && s.workers[w].reply.trace.Some?
    ensures e.Assessed? && e.focus.Some? ==>
              var d := Assess(s.workers[w].reply.trace.value, e.focus.value, e.writable, e.expired, correction);
              && (d.action == Refresh ==> s.workers[w].reply.trace.value.refreshCount == 0)
              && (d.action == Keep ==> e.writable && !e.expired)
    ensures e.Reassessed? && e.focus.Some? ==>
              var d := Assess(s.workers[w].reply.trace.value, e.focus.value, e.writable, false, correction);
              d.action == Keep ==> e.writable
  {
    if e.Assessed? && e.focus.Some? {
      StopsAreRight(s.workers[w].reply.trace.value, e.focus.value, e.writable, e.expired, correction);
    } else if e.Reassessed? && e.focus.Some? {
      StopsAreRight(s.workers[w].reply.trace.value, e.focus.value, e.writable, false, correction);
    }
  }

  predicate Decides(s: Sys, e: Event) {
    (e.Assessed? || e.Reassessed?) && e.w in s.workers && s.workers[e.w].reply.trace.Some?
  }

  lemma BudgetKept(s: Sys, e: Event, correction: string -> bool)
    requires Exclusive(s) && Budget(s)
    ensures Budget(Next(s, e, correction))
  {
    hide Exclusive, Budget, Next;
    if HolderStep(e) {
      BudgetOfHolder(s, e, correction);
    } else if EdgeStep(e) {
      BudgetAtEdges(s, e, correction);
    } else {
      BudgetElsewhere(s, e, correction);
    }
  }

  lemma BudgetOfHolder(s: Sys, e: Event, correction: string -> bool)
    requires Exclusive(s) && Budget(s) && HolderStep(e)
    ensures Budget(Next(s, e, correction))
  {
    hide Assess, Visible;
    if Decides(s, e) {
      DecisionIsRight(s, e, e.w, correction);
    }
  }

  lemma BudgetAtEdges(s: Sys, e: Event, correction: string -> bool)
    requires Exclusive(s) && Budget(s) && EdgeStep(e)
    ensures Budget(Next(s, e, correction))
  {
    hide Assess, Unbound, Advanced;
  }

  lemma BudgetElsewhere(s: Sys, e: Event, correction: string -> bool)
    requires Exclusive(s) && Budget(s) && !HolderStep(e) && !EdgeStep(e)
    ensures Budget(Next(s, e, correction))
  {
    hide Frugal;
  }

  lemma HonestKept(s: Sys, e: Event, correction: string -> bool)
    requires Honest(s, correction)
    ensures Honest(Next(s, e, correction), correction)
  {
    hide Assess, Rebuilt, SameJson;
    if Decides(s, e) {
      DecisionIsRight(s, e, e.w, correction);
    }
  }

  lemma VouchedStays(checks: seq<Check>, c: Check, r: Reply)
    requires Vouched(checks, r)
    ensures Vouched(checks + [c], r)
  {
    var i :| 0 <= i < |checks| && Vouches(checks[i], r);
    assert Vouches((checks + [c])[i], r);
  }

  lemma VouchedNow(checks: seq<Check>, c: Check, r: Reply)
    requires Vouches(c, r)
    ensures Vouched(checks + [c], r)
  {
    assert Vouches((checks + [c])[|checks|], r);
  }

  lemma SoundStays(checks: seq<Check>, c: Check, tick: nat, later: nat, w: Worker)
    requires Sound(checks, tick, w) && tick <= later
    ensures Sound(checks, later, w) && Sound(checks + [c], later, w)
  {
    if w.Saving? && !w.reply.silent {
      VouchedStays(checks, c, w.reply);
    }
  }

  lemma EvidenceKept(s: Sys, e: Event, correction: string -> bool)
    requires Evidence(s) && Exclusive(s)
    ensures Evidence(Next(s, e, correction))
  {
    match e {
      case Assessed(w, focus, _, _) => EvidenceOfAssessment(s, e, correction);
      case Reassessed(w, focus, _) => EvidenceOfAssessment(s, e, correction);
      case Save(_, _) => EvidenceOfSave(s, e, correction);
      case ClaimRead(_, _) => EvidenceOfClaim(s, e, correction);
      case Claim(_) => EvidenceOfClaim(s, e, correction);
      case _ =>
        if WorkerStep(e) {
          EvidenceOfWorker(s, e, correction);
        } else {
          EvidenceElsewhere(s, e, correction);
        }
    }
  }

  predicate WorkerStep(e: Event) {
    e.Load? || e.Reserve? || e.Call? || e.Answer? || e.Fail?
  }

  lemma EvidenceOfWorker(s: Sys, e: Event, correction: string -> bool)
    requires Evidence(s) && WorkerStep(e)
    ensures Evidence(Next(s, e, correction))
  {
    hide Assess, Rebuilt, Vouched, SameJson, Evidence;
    var t := Next(s, e, correction);
    if e.w in s.workers {
      WorkerSound(s, e.w);
    } else if s.reply.Some? {
      ReplyWritten(s);
    }
    WorkerMoves(s, t, e.w);
  }

  lemma WorkerSound(s: Sys, w: nat)
    requires Evidence(s) && w in s.workers
    ensures Sound(s.checks, s.tick, s.workers[w])
  {
  }

  lemma ReplyWritten(s: Sys)
    requires Evidence(s) && s.reply.Some?
    ensures s.reply.value.written < s.tick
  {
  }

  /** Moving one worker, without a save, leaves the evidence as it was. */
  lemma WorkerMoves(s: Sys, t: Sys, w: nat)
    requires Evidence(s) && t.reply == s.reply && t.checks == s.checks && t.tick == s.tick + 1
    requires t.status == s.status || t.status == Refreshing
    requires forall v :: v in t.workers && v != w ==> v in s.workers && t.workers[v] == s.workers[v]
    requires w in t.workers ==>
               (w in s.workers && t.workers[w] == s.workers[w])
                   || (!t.workers[w].Claiming? && Sound(t.checks, t.tick, t.workers[w]))
    ensures Evidence(t)
  {
    hide Vouched;
  }

  lemma EvidenceElsewhere(s: Sys, e: Event, correction: string -> bool)
    requires Evidence(s) && !e.Assessed? && !e.Reassessed? && !e.Save? && !e.ClaimRead? && !e.Claim? && !WorkerStep(e)
    ensures Evidence(Next(s, e, correction))
  {
    hide Assess, Rebuilt, Vouched;
  }

  lemma EvidenceOfClaim(s: Sys, e: Event, correction: string -> bool)
    requires Evidence(s) && (e.ClaimRead? || e.Claim?)
    ensures Evidence(Next(s, e, correction))
  {
    hide Evidence, DoClaim, DoClaimRead;
    if e.ClaimRead? {
      ClaimReadRow(s, e, correction);
    } else {
      ClaimRow(s, e, correction);
    }
  }

  lemma ClaimReadRow(s: Sys, e: Event, correction: string -> bool)
    requires Evidence(s) && e.ClaimRead?
    ensures Evidence(DoClaimRead(s, e.w, e.shown, correction).(tick := s.tick + 1))
  {
    hide Assess, Vouched;
  }

  lemma ClaimRow(s: Sys, e: Event, correction: string -> bool)
    requires Evidence(s) && e.Claim?
    ensures Evidence(DoClaim(s, e.w).(tick := s.tick + 1))
  {
    hide Vouched;
  }

  lemma VouchedChecked(checks: seq<Check>, r: Reply, at: nat)
    requires Vouched(checks, r)
    ensures Vouched(checks, r.(checkedAt := Some(at)))
  {
    var i :| 0 <= i < |checks| && Vouches(checks[i], r);
    assert Vouches(checks[i], r.(checkedAt := Some(at)));
  }

  lemma VouchedTraced(checks: seq<Check>, r: Reply)
    requires Vouched(checks, r)
    ensures r.trace.Some?
  {
  }

  lemma EvidenceOfSave(s: Sys, e: Event, correction: string -> bool)
    requires Evidence(s) && e.Save?
    ensures Evidence(Next(s, e, correction))
  {
    hide Vouched, Evidence, Advanced;
    var t := Next(s, e, correction);
    if e.w in s.workers && s.workers[e.w].Saving? {
      WorkerSound(s, e.w);
      var r := s.workers[e.w].reply;
      if s.status == Refreshing && Publishable(s.operation) {
        if !r.silent {
          VouchedChecked(s.checks, r, s.tick);
          VouchedTraced(s.checks, r);
        }
        SavedRow(s, t, e.w);
      } else {
        WorkerMoves(s, t, e.w);
      }
    } else {
      WorkerMoves(s, t, e.w);
    }
  }

  /** A save that takes leaves a silent row, or a sendable one whose text is vouched for. */
  lemma SavedRow(s: Sys, t: Sys, w: nat)
    requires Evidence(s) && t.checks == s.checks && t.tick == s.tick + 1 && t.workers == s.workers - {w}
    requires t.reply.Some? && t.reply.value.written < s.tick
    requires t.status == Silent || (t.status == Generated && !t.reply.value.silent && Vouched(t.checks, t.reply.value))
    ensures Evidence(t)
  {
    hide Vouched;
  }

  lemma EvidenceOfAssessment(s: Sys, e: Event, correction: string -> bool)
    requires Evidence(s) && Exclusive(s) && (e.Assessed? || e.Reassessed?)
    ensures Evidence(Next(s, e, correction))
  {
    hide Evidence, Exclusive;
    var t := Next(s, e, correction);
    if e.w in s.workers {
      WorkerSound(s, e.w);
      HolderRefreshing(s, e.w);
    }
    if t.checks == s.checks {
      AssessedUnnoted(s, e, correction);
    } else {
      AssessedNoted(s, e, correction);
    }
  }

  lemma HolderRefreshing(s: Sys, w: nat)
    requires Exclusive(s) && w in s.workers
    ensures Holder(s.workers[w]) ==> s.status == Refreshing
  {
  }

  /** An assessment that keeps nothing moves its own worker only. */
  lemma AssessedUnnoted(s: Sys, e: Event, correction: string -> bool)
    requires Evidence(s) && (e.Assessed? || e.Reassessed?) && Next(s, e, correction).checks == s.checks
    requires e.w in s.workers ==> Sound(s.checks, s.tick, s.workers[e.w])
    requires e.w in s.workers && Holder(s.workers[e.w]) ==> s.status == Refreshing
    ensures Evidence(Next(s, e, correction))
  {
    hide Assess, Rebuilt, Evidence, Vouched;
    WorkerMoves(s, Next(s, e, correction), e.w);
  }

  /** One that keeps the draft notes the check that vouches for it. */
  lemma AssessedNoted(s: Sys, e: Event, correction: string -> bool)
    requires Evidence(s) && (e.Assessed? || e.Reassessed?) && Next(s, e, correction).checks != s.checks
    requires e.w in s.workers ==> Sound(s.checks, s.tick, s.workers[e.w])
    requires e.w in s.workers && Holder(s.workers[e.w]) ==> s.status == Refreshing
    ensures Evidence(Next(s, e, correction))
  {
    hide Assess, Rebuilt, Evidence, Vouched;
    var t := Next(s, e, correction);
    var r := s.workers[e.w].reply;
    var c := Check(r.trace.value, r.written, e.focus.value, s.tick);
    VouchedNow(s.checks, c, r);
    NotedKeeps(s, c);
    WorkerMoves(s.(checks := s.checks + [c]), t, e.w);
  }

  lemma NotedKeeps(s: Sys, c: Check)
    requires Evidence(s)
    ensures Evidence(s.(checks := s.checks + [c]))
  {
    hide Vouched;
    if s.reply.Some? && Vouched(s.checks, s.reply.value) {
      VouchedStays(s.checks, c, s.reply.value);
    }
    forall w | w in s.workers ensures Sound(s.checks + [c], s.tick, s.workers[w]) {
      SoundStays(s.checks, c, s.tick, s.tick, s.workers[w]);
    }
  }

  /** Every event keeps the invariant, whatever the room, the model and the other workers do. */
  lemma NextKeeps(s: Sys, e: Event, correction: string -> bool)
    requires Inv(s, correction)
    ensures Inv(Next(s, e, correction), correction)
  {
    hide Next, Exclusive, Budget, Honest, Evidence;
    ExclusiveKept(s, e, correction);
    BudgetKept(s, e, correction);
    HonestKept(s, e, correction);
    EvidenceKept(s, e, correction);
  }

  lemma {:induction false} RunKeeps(es: seq<Event>, correction: string -> bool)
    ensures Inv(RunFrom(Init, es, correction), correction)
  {
    hide Next;
    if es != [] {
      RunKeeps(es[..|es| - 1], correction);
      NextKeeps(RunFrom(Init, es[..|es| - 1], correction), es[|es| - 1], correction);
    }
  }

  // ---------------------------------------------------------------- over all runs

  /** In every run the model is asked to refresh the draft of one step at most once, through all its generations. */
  lemma RefreshedAtMostOnce(es: seq<Event>, correction: string -> bool)
    ensures RunFrom(Init, es, correction).calls <= 1
  {
    RunKeeps(es, correction);
  }

  /** The text of a reply that may be sent was kept against a room read after it was produced. */
  ghost predicate Checked(s: Sys, correction: string -> bool) {
    s.status in {Generated, Claimed, Delivered} && s.reply.Some?
    && (s.reply.value.checkedAt.Some? || (s.status != Generated && !Unbound(s.reply.value)))
    ==> exists i :: 0 <= i < |s.checks| && Vouches(s.checks[i], s.reply.value)
                    && Assess(s.checks[i].trace, s.checks[i].focus, true, false, correction).action == Keep
  }

  lemma KeptIsChecked(s: Sys, correction: string -> bool)
    requires Inv(s, correction)
    ensures Checked(s, correction)
  {
    hide Assess, Exclusive, Budget;
    if s.status in {Generated, Claimed, Delivered} && s.reply.Some?
       && (s.reply.value.checkedAt.Some? || (s.status != Generated && !Unbound(s.reply.value))) {
      assert Vouched(s.checks, s.reply.value);
    }
  }

  /** So it is for every reply a preflight let through, and for every claimed or delivered one. */
  lemma PublishedWasChecked(es: seq<Event>, correction: string -> bool)
    ensures Checked(RunFrom(Init, es, correction), correction)
  {
    hide Checked;
    RunKeeps(es, correction);
    KeptIsChecked(RunFrom(Init, es, correction), correction);
  }

  /**
   A preflight that holds the draft can always save while the operation is publishable: it never loses it to another.
  */
  lemma HolderCanSave(es: seq<Event>, w: nat, pendingLeft: bool, correction: string -> bool)
    requires var s := RunFrom(Init, es, correction);
             w in s.workers && s.workers[w].Saving? && Publishable(s.operation)
    ensures var s := RunFrom(Init, es, correction);
            var t := Next(s, Save(w, pendingLeft), correction);
            && t.status == (if s.workers[w].reply.silent then Silent else Generated)
            && t.reply.Some? && t.reply.value.text == s.workers[w].reply.text
            && t.reply.value.trace == s.workers[w].reply.trace
            && w !in t.workers
  {
    RunKeeps(es, correction);
  }

  /** How the row of one step may move. */
  predicate MayFollow(before: Status, after: Status) {
    before == after
    || match before
       case Generating => after in {Generated, Silent, Failed, Uncertain}
       case Generated => after in {Refreshing, Claimed, Failed}
       case Refreshing => after in {Generated, Silent, Failed}
       case Claimed => after in {Delivered, Silent, Uncertain}
       case Uncertain => after in {Generated, Silent, Failed}
       case Failed => after == Generating
       case Silent => false
       case Delivered => false
  }

  predicate Settled(s: Status) {
    s == Silent || s == Delivered
  }

  /**
   What moves a reachable row, and what it can no longer do: a reservation ends only in its holder's save or a restart,
   an uncertain step only in its own unfinished generation, and a refreshed draft is never generated again.
  */
  lemma StatusMoves(es: seq<Event>, e: Event, correction: string -> bool)
    ensures var s := RunFrom(Init, es, correction); var t := Next(s, e, correction);
            && MayFollow(s.status, t.status)
            && (s.status == Refreshing && t.status != Refreshing ==>
                e.Restart? || (e.Save? && e.w in s.workers && s.workers[e.w].Saving?))
            && (s.status == Refreshing && e.Restart? ==>
                t.status == Failed && t.reply == None && !Publishable(t.operation))
            && (s.status == Uncertain && t.status != Uncertain ==> s.generator && s.calls == 0)
            && (s.status == Generated && t.status == Failed ==>
                e.CancelDelivery? && t.reply == None && t.operation == Abandoned)
            && (s.status == Failed && t.status == Generating ==> e.Retry? && s.calls == 0)
            && (s.reply != t.reply && t.reply.Some? ==> e.Generate? || e.Save?)
            && (s.calls < t.calls ==> e.Call? && s.status == Refreshing)
  {
    hide Assess, Rebuilt, SameJson, RunFrom, Honest, Evidence, Revision, Silenced, Unbound;
    RunKeeps(es, correction);
  }

  /**
   Over any further stretch of a run: nothing unsends a delivery, and a step refreshed once is not generated again.
  */
  lemma {:induction false} SettledForGood(es: seq<Event>, more: seq<Event>, correction: string -> bool)
    ensures var s, t := RunFrom(Init, es, correction), RunFrom(Init, es + more, correction);
            && (Settled(s.status) ==> t.status == s.status && t.calls == s.calls)
            && (s.calls > 0 ==> t.calls == s.calls && t.status != Generating && !t.generator)
    decreases |more|
  {
    hide Next, MayFollow;
    RunKeeps(es + more, correction);
    if more == [] {
      assert es + more == es;
    } else {
      var k := |more| - 1;
      assert (es + more)[..|es + more| - 1] == es + more[..k];
      SettledForGood(es, more[..k], correction);
      RunKeeps(es + more[..k], correction);
      StatusMoves(es + more[..k], more[k], correction);
      SettledStays(RunFrom(Init, es + more[..k], correction).status, RunFrom(Init, es + more, correction).status);
      CallsGrow(RunFrom(Init, es + more[..k], correction), more[k], correction);
    }
  }

  lemma SettledStays(before: Status, after: Status)
    requires MayFollow(before, after)
    ensures Settled(before) ==> after == before
  {
  }

  lemma CallsGrow(s: Sys, e: Event, correction: string -> bool)
    ensures s.calls <= Next(s, e, correction).calls
  {
    hide Assess, Rebuilt, SameJson;
  }

  // ---------------------------------------------------------------- every move happens

  lemma RunSnoc(es: seq<Event>, e: Event, correction: string -> bool)
    ensures RunFrom(Init, es + [e], correction) == Next(RunFrom(Init, es, correction), e, correction)
  {
    assert (es + [e])[..|es|] == es;
  }

  const NOWHERE: Focus := Focus("t", [], [], 0)

  /** A first reply, bound to message "t" or to none. */
  function First(bound: bool, silent: bool): Reply {
    Reply("", silent, if bound then Some(Trace("t", 0, map[], map[], [], "", Direct, 0)) else None, None, 0)
  }

  lemma GeneratedRun(bound: bool, correction: string -> bool) returns (es: seq<Event>)
    ensures var s := RunFrom(Init, es, correction);
            s.status == Generated && s.operation == AwaitingDelivery && s.workers == map[] && s.reply.Some?
            && s.reply.value.trace == First(bound, false).trace && !s.reply.value.silent
  {
    es := [] + [Generate(First(bound, false), true)];
    RunSnoc([], Generate(First(bound, false), true), correction);
  }

  lemma ReservedRun(bound: bool, correction: string -> bool) returns (es: seq<Event>)
    ensures var s := RunFrom(Init, es, correction);
            s.status == Refreshing && s.operation == AwaitingDelivery && 0 in s.workers && s.workers[0].Reserved?
            && s.workers[0].reply.trace == First(bound, false).trace && !s.workers[0].reply.silent
  {
    var before := GeneratedRun(bound, correction);
    hide RunFrom;
    RunSnoc(before, Load(0), correction);
    RunSnoc(before + [Load(0)], Reserve(0), correction);
    es := before + [Load(0)] + [Reserve(0)];
  }

  lemma AssessedRun(bound: bool, correction: string -> bool) returns (es: seq<Event>)
    ensures var s := RunFrom(Init, es, correction);
            s.status == Refreshing && s.operation == AwaitingDelivery && 0 in s.workers && s.workers[0].Saving?
            && s.workers[0].reply.silent == !bound
  {
    var before := ReservedRun(bound, correction);
    var e := Assessed(0, if bound then Some(NOWHERE) else None, true, false);
    EmptyRoomKeeps(correction);
    hide RunFrom, Assess;
    RunSnoc(before, e, correction);
    es := before + [e];
  }

  lemma EmptyRoomKeeps(correction: string -> bool)
    ensures Assess(First(true, false).trace.value, NOWHERE, true, false, correction).action == Keep
  {
  }

  lemma ClaimedRun(correction: string -> bool) returns (es: seq<Event>)
    ensures RunFrom(Init, es, correction).status == Claimed
  {
    var before := GeneratedRun(false, correction);
    hide RunFrom, Assess;
    RunSnoc(before, ClaimRead(0, NOWHERE), correction);
    RunSnoc(before + [ClaimRead(0, NOWHERE)], Claim(0), correction);
    es := before + [ClaimRead(0, NOWHERE)] + [Claim(0)];
  }

  /** Every move that `MayFollow` allows is made in some run, so it allows exactly what the code does. */
  lemma EveryMoveHappens(before: Status, after: Status, correction: string -> bool) returns (es: seq<Event>, e: Event)
    requires MayFollow(before, after) && before != after
    ensures RunFrom(Init, es, correction).status == before
              && Next(RunFrom(Init, es, correction), e, correction).status == after
  {
    hide RunFrom, Next;
    match before
    case Generating => es, e := FromGenerating(after, correction);
    case Generated => es, e := FromGenerated(after, correction);
    case Refreshing => es, e := FromRefreshing(after, correction);
    case Claimed => es, e := FromClaimed(after, correction);
    case Uncertain => es, e := FromUncertain(after, correction);
    case Failed => es, e := FromFailed(correction);
  }

  lemma FromGenerating(after: Status, correction: string -> bool) returns (es: seq<Event>, e: Event)
    requires MayFollow(Generating, after) && after != Generating
    ensures RunFrom(Init, es, correction).status == Generating
              && Next(RunFrom(Init, es, correction), e, correction).status == after
  {
    es := [];
    e := if after == Failed then GenerationFails else if after == Uncertain then InterruptJob
         else Generate(First(false, after == Silent), true);
  }

  lemma FromClaimed(after: Status, correction: string -> bool) returns (es: seq<Event>, e: Event)
    requires MayFollow(Claimed, after) && after != Claimed
    ensures RunFrom(Init, es, correction).status == Claimed
              && Next(RunFrom(Init, es, correction), e, correction).status == after
  {
    es := ClaimedRun(correction);
    hide RunFrom;
    e := if after == Uncertain then LoseClaim else Deliver(after == Delivered, true);
  }

  lemma FromUncertain(after: Status, correction: string -> bool) returns (es: seq<Event>, e: Event)
    requires MayFollow(Uncertain, after) && after != Uncertain
    ensures RunFrom(Init, es, correction).status == Uncertain
              && Next(RunFrom(Init, es, correction), e, correction).status == after
  {
    RunSnoc([], InterruptJob, correction);
    es := [] + [InterruptJob];
    e := if after == Failed then GenerationFails else Generate(First(false, after == Silent), true);
  }

  lemma FromFailed(correction: string -> bool) returns (es: seq<Event>, e: Event)
    ensures RunFrom(Init, es, correction).status == Failed
              && Next(RunFrom(Init, es, correction), e, correction).status == Generating
  {
    RunSnoc([], GenerationFails, correction);
    es, e := [] + [GenerationFails], Retry;
  }

  lemma FromGenerated(after: Status, correction: string -> bool) returns (es: seq<Event>, e: Event)
    requires MayFollow(Generated, after) && after != Generated
    ensures RunFrom(Init, es, correction).status == Generated
              && Next(RunFrom(Init, es, correction), e, correction).status == after
  {
    var made := GeneratedRun(false, correction);
    hide RunFrom, Assess;
    if after == Failed {
      es, e := made, CancelDelivery;
    } else if after == Refreshing {
      RunSnoc(made, Load(0), correction);
      es, e := made + [Load(0)], Reserve(0);
    } else {
      RunSnoc(made, ClaimRead(0, NOWHERE), correction);
      es, e := made + [ClaimRead(0, NOWHERE)], Claim(0);
    }
  }

  lemma FromRefreshing(after: Status, correction: string -> bool) returns (es: seq<Event>, e: Event)
    requires MayFollow(Refreshing, after) && after != Refreshing
    ensures RunFrom(Init, es, correction).status == Refreshing
              && Next(RunFrom(Init, es, correction), e, correction).status == after
  {
    es := AssessedRun(after == Generated, correction);
    hide RunFrom;
    e := if after == Failed then Restart(false) else Save(0, true);
  }
}
