/** The report broken down by one metadata column, and what the parts account for together. */
module Breakdown {
  import opened Wrappers
  import opened Metrics
  import opened JudgeEvaluation

  function Group(field: string): string {
    if field == "" then "unclassified" else field
  }

  predicate InGroup(metadata: map<string, string>, value: string, p: Prediction) {
    p.caseId in metadata && Group(metadata[p.caseId]) == value
  }

  /** The predictions of one mode whose case has the given value of the metadata column. */
  function Part(ps: seq<Prediction>, metadata: map<string, string>, value: string, mode: Mode): seq<Prediction> {
    if ps == [] then []
    else
      var p := ps[|ps| - 1];
      Part(ps[..|ps| - 1], metadata, value, mode) + if p.mode == mode && InGroup(metadata, value, p) then [p] else []
  }

  /** The case of `p` has this value of the column; an empty one counts as unclassified. */
  predicate Belongs(metadata: map<string, string>, value: string, p: Prediction) {
    p.caseId in metadata
    && (metadata[p.caseId] == value != "" || (metadata[p.caseId] == "" && value == "unclassified"))
  }

  /** A part holds exactly the predictions of its mode and value, each as often as it was made. */
  lemma {:induction false} PartIsExact(ps: seq<Prediction>, metadata: map<string, string>, value: string, mode: Mode,
                                       p: Prediction)
    ensures multiset(Part(ps, metadata, value, mode))[p]
         == if p.mode == mode && Belongs(metadata, value, p) then multiset(ps)[p] else 0
  {
    if ps != [] {
      var before, last := ps[..|ps| - 1], ps[|ps| - 1];
      PartIsExact(before, metadata, value, mode, p);
      assert ps == before + [last];
      var part := Part(before, metadata, value, mode);
      assert part + [] == part;
    }
  }

  ghost predicate Values(metadata: map<string, string>, values: set<string>) {
    forall v :: v in values <==> exists id :: id in metadata && Group(metadata[id]) == v
  }

  method SelectPart(ps: seq<Prediction>, metadata: map<string, string>, value: string, mode: Mode)
    returns (part: seq<Prediction>)
    ensures part == Part(ps, metadata, value, mode)
  {
    part := [];
    for n := 0 to |ps|
      invariant part == Part(ps[..n], metadata, value, mode)
    {
      assert ps[..n + 1][..n] == ps[..n];
      if ps[n].mode == mode && InGroup(metadata, value, ps[n]) {
        part := part + [ps[n]];
      }
    }
    assert ps[..|ps|] == ps;
  }

  /** One report per value of the column and mode. */
  ghost predicate BrokenDown(ps: seq<Prediction>, metadata: map<string, string>, r: map<(string, Mode), Report>,
                             values: set<string>)
  {
    forall v, m: Mode :: v in values ==> (v, m) in r && Reports(Part(ps, metadata, v, m), r[(v, m)])
  }

  lemma ThreeReports(ps: seq<Prediction>, metadata: map<string, string>, r: map<(string, Mode), Report>,
                     done: set<string>, value: string, a: Report, b: Report, c: Report)
    requires BrokenDown(ps, metadata, r, done)
    requires Reports(Part(ps, metadata, value, Rules), a) && Reports(Part(ps, metadata, value, Semantic), b)
    requires Reports(Part(ps, metadata, value, Hybrid), c)
    ensures BrokenDown(ps, metadata, r[(value, Rules) := a][(value, Semantic) := b][(value, Hybrid) := c],
                       done + {value})
  {
    hide Reports, Part;
    var after := r[(value, Rules) := a][(value, Semantic) := b][(value, Hybrid) := c];
    forall v, m: Mode | v in done + {value}
      ensures (v, m) in after && Reports(Part(ps, metadata, v, m), after[(v, m)])
    {
      if v == value {
        assert m == Rules || m == Semantic || m == Hybrid;
      }
    }
  }

  method Breakdown(ps: seq<Prediction>, metadata: map<string, string>)
    returns (values: set<string>, r: map<(string, Mode), Report>)
    ensures Values(metadata, values) && BrokenDown(ps, metadata, r, values)
  {
    hide Reports;
    values := set id | id in metadata :: Group(metadata[id]);
    r := map[];
    var left := values;
    while left != {}
      invariant left <= values && BrokenDown(ps, metadata, r, values - left)
      decreases |left|
    {
      var value: string :| value in left;
      var rules := SelectPart(ps, metadata, value, Rules);
      var semantic := SelectPart(ps, metadata, value, Semantic);
      var hybrid := SelectPart(ps, metadata, value, Hybrid);
      var a := ClassificationMetrics(rules);
      var b := ClassificationMetrics(semantic);
      var c := ClassificationMetrics(hybrid);
      ThreeReports(ps, metadata, r, values - left, value, a, b, c);
      r := r[(value, Rules) := a][(value, Semantic) := b][(value, Hybrid) := c];
      assert values - left + {value} == values - (left - {value});
      left := left - {value};
    }
  }

  // ---------------------------------------------------------------- what the breakdown accounts for

  ghost function SumCells(values: set<string>, ps: seq<Prediction>, metadata: map<string, string>, mode: Mode,
                          expected: Verdict, predicted: Verdict): nat
  {
    if values == {} then 0
    else
      var v :| v in values;
      Cell(Part(ps, metadata, v, mode), expected, predicted)
          + SumCells(values - {v}, ps, metadata, mode, expected, predicted)
  }

  function Here(p: Prediction, mode: Mode, expected: Verdict, predicted: Verdict): nat {
    if p.mode == mode && Eligible(p) && p.expected == expected && p.predicted == Some(predicted) then 1 else 0
  }

  lemma CellSnoc(ps: seq<Prediction>, p: Prediction, e: Verdict, q: Verdict)
    ensures Cell(ps + [p], e, q) == Cell(ps, e, q) + Here(p, p.mode, e, q)
  {
    assert (ps + [p])[..|ps|] == ps;
  }

  lemma PartSnoc(ps: seq<Prediction>, p: Prediction, metadata: map<string, string>, v: string, mode: Mode, e: Verdict,
                 q: Verdict)
    ensures Cell(Part(ps + [p], metadata, v, mode), e, q)
         == Cell(Part(ps, metadata, v, mode), e, q) + if InGroup(metadata, v, p) then Here(p, mode, e, q) else 0
  {
    hide Cell;
    assert (ps + [p])[..|ps|] == ps;
    var before := Part(ps, metadata, v, mode);
    assert before + [] == before;
    CellSnoc(before, p, e, q);
  }

  lemma {:induction false} SumSnoc(values: set<string>, ps: seq<Prediction>, p: Prediction,
                                   metadata: map<string, string>,
                                   mode: Mode, e: Verdict, q: Verdict)
    ensures SumCells(values, ps + [p], metadata, mode, e, q)
         == SumCells(values, ps, metadata, mode, e, q)
            + if p.caseId in metadata && Group(metadata[p.caseId]) in values then Here(p, mode, e, q) else 0
    decreases |values|
  {
    hide Part, Cell;
    if values != {} {
      var v :| v in values && SumCells(values, ps + [p], metadata, mode, e, q)
                              == Cell(Part(ps + [p], metadata, v, mode), e, q)
                                  + SumCells(values - {v}, ps + [p], metadata, mode, e, q);
      SumAny(values, v, ps, metadata, mode, e, q);
      PartSnoc(ps, p, metadata, v, mode, e, q);
      SumSnoc(values - {v}, ps, p, metadata, mode, e, q);
    }
  }

  /** The sum does not depend on the order in which the values are taken. */
  lemma {:induction false} SumAny(values: set<string>, v: string, ps: seq<Prediction>, metadata: map<string, string>,
                                  mode: Mode, e: Verdict, q: Verdict)
    requires v in values
    ensures SumCells(values, ps, metadata, mode, e, q)
         == Cell(Part(ps, metadata, v, mode), e, q) + SumCells(values - {v}, ps, metadata, mode, e, q)
    decreases |values|
  {
    hide Part, Cell;
    var w :| w in values && SumCells(values, ps, metadata, mode, e, q)
                            == Cell(Part(ps, metadata, w, mode), e, q)
                                + SumCells(values - {w}, ps, metadata, mode, e, q);
    if w != v {
      SumAny(values - {w}, v, ps, metadata, mode, e, q);
      SumAny(values - {v}, w, ps, metadata, mode, e, q);
      assert values - {w} - {v} == values - {v} - {w};
    }
  }

  /** The predictions of a mode that fall in a cell although their case has no metadata. */
  function Lost(ps: seq<Prediction>, metadata: map<string, string>, mode: Mode, expected: Verdict,
                predicted: Verdict): nat
  {
    if ps == [] then 0
    else
      var p := ps[|ps| - 1];
      Lost(ps[..|ps| - 1], metadata, mode, expected, predicted)
      + if p.caseId in metadata then 0 else Here(p, mode, expected, predicted)
  }

  /** Every cell of a breakdown adds up to the cell of its mode, short of exactly the predictions without metadata. */
  lemma {:induction false} BreakdownAddsUp(ps: seq<Prediction>, metadata: map<string, string>, values: set<string>,
                                           mode: Mode, e: Verdict, q: Verdict)
    requires Values(metadata, values)
    ensures SumCells(values, ps, metadata, mode, e, q) + Lost(ps, metadata, mode, e, q) == Cell(OfMode(ps, mode), e, q)
  {
    hide SumCells;
    if ps == [] {
      SumNothing(values, metadata, mode, e, q);
    } else {
      var before, p := ps[..|ps| - 1], ps[|ps| - 1];
      assert ps == before + [p];
      BreakdownAddsUp(before, metadata, values, mode, e, q);
      SumSnoc(values, before, p, metadata, mode, e, q);
      if p.caseId in metadata {
        assert Group(metadata[p.caseId]) in values;
      }
      OfModeCell(before, p, mode, e, q);
    }
  }

  lemma OfModeCell(ps: seq<Prediction>, p: Prediction, mode: Mode, e: Verdict, q: Verdict)
    ensures Cell(OfMode(ps + [p], mode), e, q) == Cell(OfMode(ps, mode), e, q) + Here(p, mode, e, q)
  {
    hide Cell;
    assert (ps + [p])[..|ps|] == ps;
    var before := OfMode(ps, mode);
    assert before + [] == before;
    CellSnoc(before, p, e, q);
  }

  lemma {:induction false} SumNothing(values: set<string>, metadata: map<string, string>, mode: Mode, e: Verdict,
                                      q: Verdict)
    ensures SumCells(values, [], metadata, mode, e, q) == 0
    decreases |values|
  {
    if values != {} {
      assert forall v :: Cell(Part([], metadata, v, mode), e, q) == 0;
      var v :| v in values && SumCells(values, [], metadata, mode, e, q)
                              == Cell(Part([], metadata, v, mode), e, q)
                                  + SumCells(values - {v}, [], metadata, mode, e, q);
      SumNothing(values - {v}, metadata, mode, e, q);
    }
  }

  ghost predicate Known(ps: seq<Prediction>, metadata: map<string, string>, mode: Mode) {
    forall i :: 0 <= i < |ps| && ps[i].mode == mode && Eligible(ps[i]) ==> ps[i].caseId in metadata
  }

  lemma {:induction false} KnownLosesNothing(ps: seq<Prediction>, metadata: map<string, string>, mode: Mode, e: Verdict,
                                             q: Verdict)
    requires Known(ps, metadata, mode)
    ensures Lost(ps, metadata, mode, e, q) == 0
  {
    if ps != [] {
      var before := ps[..|ps| - 1];
      assert forall i :: 0 <= i < |before| ==> before[i] == ps[i];
      KnownLosesNothing(before, metadata, mode, e, q);
    }
  }

  lemma {:induction false} UnknownIsLost(ps: seq<Prediction>, metadata: map<string, string>, mode: Mode, i: nat)
    requires i < |ps| && ps[i].mode == mode && Eligible(ps[i]) && ps[i].caseId !in metadata
    ensures Lost(ps, metadata, mode, ps[i].expected, ps[i].predicted.value) > 0
    decreases |ps|
  {
    if i < |ps| - 1 {
      UnknownIsLost(ps[..|ps| - 1], metadata, mode, i);
    }
  }

  /** What a breakdown that conserves every cell of a mode is. */
  ghost predicate Conserved(ps: seq<Prediction>, metadata: map<string, string>, values: set<string>, mode: Mode) {
    forall e: Verdict, q: Verdict :: SumCells(values, ps, metadata, mode, e, q) == Cell(OfMode(ps, mode), e, q)
  }

  /** It does so exactly when every eligible prediction of that mode has metadata. */
  lemma BreakdownConserves(ps: seq<Prediction>, metadata: map<string, string>, values: set<string>, mode: Mode)
    requires Values(metadata, values)
    ensures Conserved(ps, metadata, values, mode) <==> Known(ps, metadata, mode)
  {
    hide SumCells, Cell, OfMode, Lost, Values;
    if Known(ps, metadata, mode) {
      forall e: Verdict, q: Verdict ensures SumCells(values, ps, metadata, mode, e, q) == Cell(OfMode(ps, mode), e, q) {
        KnownLosesNothing(ps, metadata, mode, e, q);
        BreakdownAddsUp(ps, metadata, values, mode, e, q);
      }
    } else {
      var i :| 0 <= i < |ps| && ps[i].mode == mode && Eligible(ps[i]) && ps[i].caseId !in metadata;
      UnknownIsLost(ps, metadata, mode, i);
      BreakdownAddsUp(ps, metadata, values, mode, ps[i].expected, ps[i].predicted.value);
    }
  }

  lemma CaseOfPrediction(c: Case, modes: set<Mode>, p: Prediction)
    requires p in CasePredictions(c, modes)
    ensures p.caseId == c.id
  {
  }

  lemma {:induction false} EveryCaseHasMetadata(cases: seq<Case>, modes: set<Mode>, p: Prediction)
    requires p in AllPredictions(cases, modes)
    ensures p.caseId in FieldsOf(cases)
  {
    hide CasePredictions;
    if cases != [] {
      var before, c := cases[..|cases| - 1], cases[|cases| - 1];
      if p in AllPredictions(before, modes) {
        EveryCaseHasMetadata(before, modes, p);
      } else {
        CaseOfPrediction(c, modes, p);
      }
    }
  }

  /** An evaluation always has that metadata, so its breakdowns conserve every cell. */
  lemma EvaluationConserves(cases: seq<Case>, modes: set<Mode>, values: set<string>, mode: Mode)
    requires Values(FieldsOf(cases), values)
    ensures Conserved(AllPredictions(cases, modes), FieldsOf(cases), values, mode)
  {
    hide Conserved, Values;
    var ps := AllPredictions(cases, modes);
    forall i | 0 <= i < |ps| ensures ps[i].caseId in FieldsOf(cases) {
      EveryCaseHasMetadata(cases, modes, ps[i]);
    }
    BreakdownConserves(ps, FieldsOf(cases), values, mode);
  }
}
