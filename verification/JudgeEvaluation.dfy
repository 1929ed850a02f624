/** Judging the frozen cases of a dataset, and how the parts of the report account for one another. */
module JudgeEvaluation {
  import opened Wrappers
  import opened Metrics

  /** What the semantic judge did with a case; `Raised` carries the text of the exception. */
  datatype SemanticOutcome = NotConfigured | Raised(message: string) | Judged(passed: bool)

  datatype Case = Case(id: string, expected: Verdict, field: string, rulesPassed: bool, semantic: SemanticOutcome)

  function VerdictOf(passed: bool): Verdict {
    if passed then Pass else Fail
  }

  function RulesPrediction(c: Case): Prediction {
    Prediction(c.id, Rules, c.expected, Some(VerdictOf(c.rulesPassed)), None)
  }

  function SemanticPrediction(c: Case): Prediction {
    match c.semantic
    case NotConfigured => Prediction(c.id, Semantic, c.expected, None,
                                     Some("Semantic Judge Runtime is not configured."))
    case Raised(message) => Prediction(c.id, Semantic, c.expected, None, Some(message))
    case Judged(passed) => Prediction(c.id, Semantic, c.expected, Some(VerdictOf(passed)), None)
  }

  /** An error counts as one only if its text is not empty. */
  predicate Truthy(error: Option<string>) {
    error.Some? && error.value != ""
  }

  function HybridPrediction(id: string, expected: Verdict, rules: Option<Prediction>,
                            semantic: Option<Prediction>): Prediction
  {
    if rules == None || semantic == None
    then Prediction(id, Hybrid, expected, None, Some("Hybrid dependencies were unavailable."))
    else if Truthy(rules.value.error) || Truthy(semantic.value.error)
    then Prediction(id, Hybrid, expected, None,
                    if Truthy(rules.value.error) then rules.value.error else semantic.value.error)
    else
      var agreed := rules.value.predicted == semantic.value.predicted && rules.value.predicted.Some?;
      Prediction(id, Hybrid, expected, if agreed then rules.value.predicted else Some(Review), None)
  }

  // ---------------------------------------------------------------- modes

  /** The requested modes and the dependencies of the hybrid judge. */
  ghost predicate Effective(requested: seq<Mode>, modes: seq<Mode>) {
    && requested <= modes
    && (Hybrid in requested ==> Rules in modes && Semantic in modes)
    && (forall m :: m in modes ==> m in requested || Hybrid in requested)
    && (NoDup(requested) ==> NoDup(modes))
  }

  method EffectiveModes(requested: seq<Mode>) returns (modes: seq<Mode>)
    ensures Effective(requested, modes)
    ensures modes == if Hybrid !in requested then requested
                     else requested + (if Rules in requested then [] else [Rules])
                          + (if Semantic in requested then [] else [Semantic])
  {
    modes := requested;
    if Hybrid in modes {
      var dependencies := [Rules, Semantic];
      for i := 0 to |dependencies|
        invariant requested <= modes && (NoDup(requested) ==> NoDup(modes))
        invariant forall j :: 0 <= j < i ==> dependencies[j] in modes
        invariant forall m :: m in modes ==> m in requested || Hybrid in requested
        invariant modes == requested + (if i < 1 || Rules in requested then [] else [Rules])
                           + (if i < 2 || Semantic in requested then [] else [Semantic])
      {
        if dependencies[i] !in modes {
          modes := modes + [dependencies[i]];
        }
      }
      assert dependencies[0] in modes && dependencies[1] in modes;
    }
  }

  // ---------------------------------------------------------------- predictions

  function CasePredictions(c: Case, modes: set<Mode>): seq<Prediction> {
    var rules := if Rules in modes then Some(RulesPrediction(c)) else None;
    var semantic := if Semantic in modes then Some(SemanticPrediction(c)) else None;
    (if rules.Some? then [rules.value] else [])
    + (if semantic.Some? then [semantic.value] else [])
    + if Hybrid in modes then [HybridPrediction(c.id, c.expected, rules, semantic)] else []
  }

  function AllPredictions(cases: seq<Case>, modes: set<Mode>): seq<Prediction> {
    if cases == [] then []
    else AllPredictions(cases[..|cases| - 1], modes) + CasePredictions(cases[|cases| - 1], modes)
  }

  function FieldsOf(cases: seq<Case>): (m: map<string, string>)
    ensures forall i :: 0 <= i < |cases| ==> cases[i].id in m
  {
    if cases == [] then map[]
    else
      var c := cases[|cases| - 1];
      FieldsOf(cases[..|cases| - 1])[c.id := c.field]
  }

  /** The metadata of a case is its own: the last one recorded under its id. */
  lemma {:induction false} FieldsRemember(cases: seq<Case>, i: nat)
    requires i < |cases| && forall j :: i < j < |cases| ==> cases[j].id != cases[i].id
    ensures FieldsOf(cases)[cases[i].id] == cases[i].field
    decreases |cases|
  {
    var k := |cases| - 1;
    if i < k {
      FieldsRemember(cases[..k], i);
    }
  }

  datatype RunStatus = Completed | Partial | AllFailed

  function Errors(ps: seq<Prediction>): nat {
    if ps == [] then 0 else Errors(ps[..|ps| - 1]) + if ps[|ps| - 1].error.Some? then 1 else 0
  }

  function StatusOf(ps: seq<Prediction>): RunStatus {
    if Errors(ps) == 0 then Completed else if Errors(ps) == |ps| then AllFailed else Partial
  }

  method JudgeCase(c: Case, modes: seq<Mode>) returns (byMode: seq<Prediction>)
    ensures byMode == CasePredictions(c, set m | m in modes)
  {
    var rules: Option<Prediction>, semantic: Option<Prediction> := None, None;
    byMode := [];
    if Rules in modes {
      rules := Some(RulesPrediction(c));
      byMode := byMode + [rules.value];
    }
    if Semantic in modes {
      semantic := Some(SemanticPrediction(c));
      byMode := byMode + [semantic.value];
    }
    if Hybrid in modes {
      byMode := byMode + [HybridPrediction(c.id, c.expected, rules, semantic)];
    }
  }

  method CountErrors(ps: seq<Prediction>) returns (errors: nat)
    ensures errors == Errors(ps)
  {
    errors := 0;
    for n := 0 to |ps|
      invariant errors == Errors(ps[..n])
    {
      assert ps[..n + 1][..n] == ps[..n];
      if ps[n].error.Some? {
        errors := errors + 1;
      }
    }
    assert ps[..|ps|] == ps;
  }

  /** The case loop. `field` stands for any of the metadata columns. */
  method Evaluate(cases: seq<Case>, requested: seq<Mode>)
    returns (modes: seq<Mode>, predictions: seq<Prediction>, metadata: map<string, string>, status: RunStatus)
    ensures Effective(requested, modes)
    ensures predictions == AllPredictions(cases, set m | m in modes) && metadata == FieldsOf(cases)
    ensures status == StatusOf(predictions)
  {
    hide CasePredictions, Effective;
    modes := EffectiveModes(requested);
    predictions, metadata := [], map[];
    for n := 0 to |cases|
      invariant predictions == AllPredictions(cases[..n], set m | m in modes) && metadata == FieldsOf(cases[..n])
    {
      assert cases[..n + 1][..n] == cases[..n];
      metadata := metadata[cases[n].id := cases[n].field];
      var byMode := JudgeCase(cases[n], modes);
      predictions := predictions + byMode;
    }
    assert cases[..|cases|] == cases;
    var errors := CountErrors(predictions);
    status := if errors == 0 then Completed else if errors == |predictions| then AllFailed else Partial;
  }

  // ---------------------------------------------------------------- agreement of the two judges

  function OfMode(ps: seq<Prediction>, mode: Mode): seq<Prediction> {
    if ps == [] then []
    else OfMode(ps[..|ps| - 1], mode) + if ps[|ps| - 1].mode == mode then [ps[|ps| - 1]] else []
  }

  /** The eligible predictions of a mode by case, a later one replacing an earlier one. */
  function ByCase(ps: seq<Prediction>, mode: Mode): map<string, Verdict> {
    if ps == [] then map[]
    else
      var p := ps[|ps| - 1];
      var before := ByCase(ps[..|ps| - 1], mode);
      if p.mode == mode && Eligible(p) then before[p.caseId := p.predicted.value] else before
  }

  datatype Agreement = Agreement(eligible: nat, agreements: nat, disagreements: nat, rate: nat)

  ghost function Shared(ps: seq<Prediction>): set<string> {
    ByCase(ps, Rules).Keys * ByCase(ps, Semantic).Keys
  }

  ghost function Agreed(ps: seq<Prediction>): set<string> {
    Matching(ByCase(ps, Rules), ByCase(ps, Semantic))
  }

  method RulesSemanticAgreement(ps: seq<Prediction>) returns (a: Agreement)
    ensures a.eligible == |Shared(ps)| && a.agreements == |Agreed(ps)| && a.agreements + a.disagreements == a.eligible
    ensures RateOf(a.rate, a.agreements, a.eligible) && a.rate <= ONE
  {
    var rules: map<string, Verdict>, semantic: map<string, Verdict> := map[], map[];
    for n := 0 to |ps|
      invariant rules == ByCase(ps[..n], Rules) && semantic == ByCase(ps[..n], Semantic)
    {
      var p := ps[n];
      assert ps[..n + 1][..n] == ps[..n];
      if Eligible(p) {
        if p.mode == Rules {
          rules := rules[p.caseId := p.predicted.value];
        } else if p.mode == Semantic {
          semantic := semantic[p.caseId := p.predicted.value];
        }
      }
    }
    assert ps[..|ps|] == ps;
    var eligible := |rules.Keys * semantic.Keys|;
    var shared := rules.Keys * semantic.Keys;
    var agreed := set c | c in shared && rules[c] == semantic[c];
    assert agreed == Agreed(ps);
    SubsetSize(agreed, shared);
    RatioWithinOne(|agreed|, eligible);
    RatioIsNearest(|agreed|, eligible);
    a := Agreement(eligible, |agreed|, eligible - |agreed|, Ratio(|agreed|, eligible));
  }

  lemma SubsetSize<T>(a: set<T>, b: set<T>)
    requires a <= b
    ensures |a| <= |b|
  {
    assert b == a + (b - a);
  }

  ghost predicate DistinctCases(cases: seq<Case>) {
    forall i, j :: 0 <= i < j < |cases| ==> cases[i].id != cases[j].id
  }

  const EVERY_MODE: set<Mode> := {Rules, Semantic, Hybrid}

  predicate JudgesAgree(c: Case) {
    c.semantic == Judged(c.rulesPassed)
  }

  /** Cases whose semantic judge failed with an exception that prints as nothing. */
  function SilentFailures(cases: seq<Case>): nat {
    if cases == [] then 0
    else SilentFailures(cases[..|cases| - 1]) + if cases[|cases| - 1].semantic == Raised("") then 1 else 0
  }

  function JudgedCount(cases: seq<Case>): nat {
    if cases == [] then 0
    else JudgedCount(cases[..|cases| - 1]) + if cases[|cases| - 1].semantic.Judged? then 1 else 0
  }

  function AgreedCount(cases: seq<Case>): nat {
    if cases == [] then 0
    else AgreedCount(cases[..|cases| - 1]) + if JudgesAgree(cases[|cases| - 1]) then 1 else 0
  }

  lemma NobodyByCase()
    ensures ByCase([], Rules) == ByCase([], Semantic) == map[]
  {
  }

  lemma NobodyReviewed()
    ensures Column([], Review) == 0
  {
  }

  lemma NoErrors()
    ensures Errors([]) == 0
  {
  }

  lemma ThreePredictions(c: Case)
    ensures CasePredictions(c, EVERY_MODE)
         == [RulesPrediction(c), SemanticPrediction(c)]
            + [HybridPrediction(c.id, c.expected, Some(RulesPrediction(c)), Some(SemanticPrediction(c)))]
  {
  }

  lemma ByCaseSnoc(ps: seq<Prediction>, p: Prediction, mode: Mode)
    ensures ByCase(ps + [p], mode)
         == if p.mode == mode && Eligible(p) then ByCase(ps, mode)[p.caseId := p.predicted.value] else ByCase(ps, mode)
  {
    assert (ps + [p])[..|ps|] == ps;
  }

  lemma ByCaseOfCase(ps: seq<Prediction>, c: Case)
    ensures ByCase(ps + CasePredictions(c, EVERY_MODE), Rules) == ByCase(ps, Rules)[c.id := VerdictOf(c.rulesPassed)]
    ensures ByCase(ps + CasePredictions(c, EVERY_MODE), Semantic)
         == if c.semantic.Judged? then ByCase(ps, Semantic)[c.id := VerdictOf(c.semantic.passed)]
             else ByCase(ps, Semantic)
  {
    hide ByCase, CasePredictions;
    ThreePredictions(c);
    var r, s, h := RulesPrediction(c), SemanticPrediction(c),
                   HybridPrediction(c.id, c.expected, Some(RulesPrediction(c)), Some(SemanticPrediction(c)));
    assert ps + CasePredictions(c, EVERY_MODE) == ps + [r] + [s] + [h];
    ByCaseSnoc(ps, r, Rules);
    ByCaseSnoc(ps + [r], s, Rules);
    ByCaseSnoc(ps + [r] + [s], h, Rules);
    ByCaseSnoc(ps, r, Semantic);
    ByCaseSnoc(ps + [r], s, Semantic);
    ByCaseSnoc(ps + [r] + [s], h, Semantic);
  }

  lemma {:induction false} ByCaseKeys(cases: seq<Case>, id: string)
    requires forall i :: 0 <= i < |cases| ==> cases[i].id != id
    ensures var ps := AllPredictions(cases, EVERY_MODE); id !in ByCase(ps, Rules) && id !in ByCase(ps, Semantic)
  {
    hide ByCase, CasePredictions;
    if cases == [] {
      NobodyByCase();
    } else {
      ByCaseKeys(cases[..|cases| - 1], id);
      ByCaseOfCase(AllPredictions(cases[..|cases| - 1], EVERY_MODE), cases[|cases| - 1]);
    }
  }

  /** The dictionaries of the agreement report count the judged cases and the agreeing ones. */
  lemma {:induction false} AgreementCounts(cases: seq<Case>)
    requires DistinctCases(cases)
    ensures var ps := AllPredictions(cases, EVERY_MODE);
            |Shared(ps)| == JudgedCount(cases) && |Agreed(ps)| == AgreedCount(cases)
  {
    hide ByCase, CasePredictions;
    if cases == [] {
      NobodyByCase();
    } else {
      var before, c := cases[..|cases| - 1], cases[|cases| - 1];
      AgreementCounts(before);
      AgreementGrows(before, c);
      assert cases == before + [c];
    }
  }

  lemma AgreementGrows(before: seq<Case>, c: Case)
    requires forall i :: 0 <= i < |before| ==> before[i].id != c.id
    ensures var ps := AllPredictions(before, EVERY_MODE); var qs := ps + CasePredictions(c, EVERY_MODE);
            && |Shared(qs)| == |Shared(ps)| + (if c.semantic.Judged? then 1 else 0)
            && |Agreed(qs)| == |Agreed(ps)| + if JudgesAgree(c) then 1 else 0
  {
    hide ByCase, CasePredictions, AllPredictions;
    var ps := AllPredictions(before, EVERY_MODE);
    ByCaseKeys(before, c.id);
    ByCaseOfCase(ps, c);
    if c.semantic.Judged? {
      BothGrow(ByCase(ps, Rules), ByCase(ps, Semantic), c.id, VerdictOf(c.rulesPassed), VerdictOf(c.semantic.passed));
    } else {
      OneGrows(ByCase(ps, Rules), ByCase(ps, Semantic), c.id, VerdictOf(c.rulesPassed));
    }
  }

  ghost function Matching(rules: map<string, Verdict>, semantic: map<string, Verdict>): set<string> {
    set c | c in rules && c in semantic && rules[c] == semantic[c]
  }

  lemma KeysGrow(m: map<string, Verdict>, id: string, v: Verdict)
    ensures m[id := v].Keys == m.Keys + {id}
  {
  }

  lemma SetGrows<T>(a: set<T>, x: T)
    requires x !in a
    ensures |a + {x}| == |a| + 1
  {
  }

  lemma BothGrow(rules: map<string, Verdict>, semantic: map<string, Verdict>, id: string, r: Verdict, s: Verdict)
    requires id !in rules && id !in semantic
    ensures |rules[id := r].Keys * semantic[id := s].Keys| == |rules.Keys * semantic.Keys| + 1
    ensures |Matching(rules[id := r], semantic[id := s])| == |Matching(rules, semantic)| + if r == s then 1 else 0
  {
    KeysGrow(rules, id, r);
    KeysGrow(semantic, id, s);
    assert rules[id := r].Keys * semantic[id := s].Keys == rules.Keys * semantic.Keys + {id};
    SetGrows(rules.Keys * semantic.Keys, id);
    BothMatch(rules, semantic, id, r, s);
  }

  lemma BothMatch(rules: map<string, Verdict>, semantic: map<string, Verdict>, id: string, r: Verdict, s: Verdict)
    requires id !in rules && id !in semantic
    ensures |Matching(rules[id := r], semantic[id := s])| == |Matching(rules, semantic)| + if r == s then 1 else 0
  {
    var before := Matching(rules, semantic);
    assert Matching(rules[id := r], semantic[id := s]) == if r == s then before + {id} else before;
    SetGrows(before, id);
  }

  lemma OneGrows(rules: map<string, Verdict>, semantic: map<string, Verdict>, id: string, r: Verdict)
    requires id !in rules && id !in semantic
    ensures |rules[id := r].Keys * semantic.Keys| == |rules.Keys * semantic.Keys|
    ensures |Matching(rules[id := r], semantic)| == |Matching(rules, semantic)|
  {
    KeysGrow(rules, id, r);
    assert rules[id := r].Keys * semantic.Keys == rules.Keys * semantic.Keys;
    assert Matching(rules[id := r], semantic) == Matching(rules, semantic);
  }

  // ---------------------------------------------------------------- the hybrid judge

  lemma OfModeSnoc(ps: seq<Prediction>, p: Prediction, mode: Mode)
    ensures OfMode(ps + [p], mode) == OfMode(ps, mode) + if p.mode == mode then [p] else []
  {
    assert (ps + [p])[..|ps|] == ps;
  }

  lemma HybridOfCase(ps: seq<Prediction>, c: Case)
    ensures OfMode(ps + CasePredictions(c, EVERY_MODE), Hybrid)
         == OfMode(ps, Hybrid)
            + [HybridPrediction(c.id, c.expected, Some(RulesPrediction(c)), Some(SemanticPrediction(c)))]
  {
    hide OfMode, CasePredictions;
    ThreePredictions(c);
    var r, s, h := RulesPrediction(c), SemanticPrediction(c),
                   HybridPrediction(c.id, c.expected, Some(RulesPrediction(c)), Some(SemanticPrediction(c)));
    assert ps + CasePredictions(c, EVERY_MODE) == ps + [r] + [s] + [h];
    OfModeSnoc(ps, r, Hybrid);
    OfModeSnoc(ps + [r], s, Hybrid);
    OfModeSnoc(ps + [r] + [s], h, Hybrid);
  }

  /** What the hybrid judge says of one case. */
  lemma HybridVerdict(c: Case)
    ensures var h := HybridPrediction(c.id, c.expected, Some(RulesPrediction(c)), Some(SemanticPrediction(c)));
            && (Eligible(h) <==> c.semantic.Judged? || c.semantic == Raised(""))
            && (Eligible(h) ==> (h.predicted == Some(Review) <==> !JudgesAgree(c)))
            && (Eligible(h) && JudgesAgree(c) ==> h.predicted == Some(VerdictOf(c.rulesPassed)))
  {
  }

  lemma ColumnSnoc(ps: seq<Prediction>, p: Prediction)
    ensures Column(ps + [p], Review) == Column(ps, Review) + if Eligible(p) && p.predicted == Some(Review) then 1 else 0
    ensures EligibleCount(ps + [p]) == EligibleCount(ps) + if Eligible(p) then 1 else 0
  {
    assert (ps + [p])[..|ps|] == ps;
    Cases(p.expected);
  }

  lemma {:induction false} HybridCounts(cases: seq<Case>)
    ensures var h := OfMode(AllPredictions(cases, EVERY_MODE), Hybrid);
            && EligibleCount(h) == JudgedCount(cases) + SilentFailures(cases)
            && Column(h, Review) + AgreedCount(cases) == JudgedCount(cases) + SilentFailures(cases)
  {
    hide CasePredictions, HybridPrediction, Column;
    if cases == [] {
      NobodyReviewed();
    } else {
      var before, c := cases[..|cases| - 1], cases[|cases| - 1];
      HybridCounts(before);
      HybridOfCase(AllPredictions(before, EVERY_MODE), c);
      HybridVerdict(c);
      ColumnSnoc(OfMode(AllPredictions(before, EVERY_MODE), Hybrid),
                 HybridPrediction(c.id, c.expected, Some(RulesPrediction(c)), Some(SemanticPrediction(c))));
    }
  }

  /**
   The hybrid judge asks for review exactly as often as the two judges disagree, and judges exactly the cases both
   judged, if and only if no semantic failure prints as nothing.
  */
  lemma HybridAccounting(cases: seq<Case>, a: Agreement, hybrid: Report)
    requires DistinctCases(cases)
    requires var ps := AllPredictions(cases, EVERY_MODE);
             && a.eligible == |Shared(ps)| && a.agreements == |Agreed(ps)|
             && a.agreements + a.disagreements == a.eligible
             && Reports(OfMode(ps, Hybrid), hybrid)
    ensures hybrid.eligible == a.eligible + SilentFailures(cases)
    ensures Column(OfMode(AllPredictions(cases, EVERY_MODE), Hybrid), Review) == a.disagreements + SilentFailures(cases)
    ensures hybrid.eligible == a.eligible
            && Column(OfMode(AllPredictions(cases, EVERY_MODE), Hybrid), Review) == a.disagreements
       <==> forall i :: 0 <= i < |cases| ==> cases[i].semantic != Raised("")
  {
    hide AllPredictions, OfMode, Shared, Agreed, Column;
    AgreementCounts(cases);
    HybridCounts(cases);
    SilentFailuresExact(cases);
  }

  lemma {:induction false} SilentFailuresExact(cases: seq<Case>)
    ensures SilentFailures(cases) == 0 <==> forall i :: 0 <= i < |cases| ==> cases[i].semantic != Raised("")
  {
    if cases != [] {
      var before := cases[..|cases| - 1];
      SilentFailuresExact(before);
      assert forall i :: 0 <= i < |before| ==> before[i] == cases[i];
    }
  }

  /** One such failure, and the report counts a review that no disagreement explains. */
  lemma SilentFailureMiscounts()
    ensures var cases := [Case("case-1", Pass, "", true, Raised(""))]; var ps := AllPredictions(cases, EVERY_MODE);
            Column(OfMode(ps, Hybrid), Review) == 1 && Shared(ps) == {}
  {
    var c := Case("case-1", Pass, "", true, Raised(""));
    hide AllPredictions, OfMode, Column;
    HybridCounts([c]);
    AgreementCounts([c]);
    assert [c][..0] == [];
  }

  // ---------------------------------------------------------------- one case

  /** What each mode says of one case: one prediction for each, about this case and its own expected verdict. */
  lemma CaseIsJudged(c: Case, modes: set<Mode>, i: nat)
    requires (Hybrid in modes ==> Rules in modes && Semantic in modes) && i < |CasePredictions(c, modes)|
    ensures var p := CasePredictions(c, modes)[i];
            && p.caseId == c.id && p.expected == c.expected && p.mode in modes
            && (forall j :: 0 <= j < |CasePredictions(c, modes)| && CasePredictions(c, modes)[j].mode == p.mode
                            ==> j == i)
            && (p.mode == Rules ==> p.error == None && p.predicted == Some(if c.rulesPassed then Pass else Fail))
            && (p.mode == Semantic ==>
                  match c.semantic
                  case Judged(passed) => p.error == None && p.predicted == Some(if passed then Pass else Fail)
                  case Raised(message) => p.error == Some(message) && p.predicted == None
                  case NotConfigured => p.error.Some? && p.error.value != "" && p.predicted == None)
            && (p.mode == Hybrid ==>
                  match c.semantic
                  case Judged(passed) =>
                    && p.error == None
                    && p.predicted == Some(if passed != c.rulesPassed then Review else if passed then Pass else Fail)
                  case Raised(message) =>
                    if message == "" then p.error == None && p.predicted == Some(Review)
                    else p.error == Some(message) && p.predicted == None
                  case NotConfigured => p.error.Some? && p.error.value != "" && p.predicted == None)
  {
  }

  /** No mode that was asked for is left out. */
  lemma EveryModeJudges(c: Case, modes: set<Mode>, mode: Mode)
    requires mode in modes
    ensures exists i :: 0 <= i < |CasePredictions(c, modes)| && CasePredictions(c, modes)[i].mode == mode
  {
    var ps := CasePredictions(c, modes);
    var at := if mode == Rules then 0 else if mode == Hybrid then |ps| - 1 else if Rules in modes then 1 else 0;
    assert ps[at].mode == mode;
  }

  // ---------------------------------------------------------------- status

  /** The status in terms of the predictions: without an error, with some errors, with nothing but errors. */
  lemma {:induction false} StatusMeans(ps: seq<Prediction>)
    ensures StatusOf(ps) == Completed <==> forall i :: 0 <= i < |ps| ==> ps[i].error == None
    ensures StatusOf(ps) == AllFailed <==> ps != [] && forall i :: 0 <= i < |ps| ==> ps[i].error.Some?
    ensures StatusOf(ps) == Partial
       <==> && (exists i :: 0 <= i < |ps| && ps[i].error.Some?)
            && (exists i :: 0 <= i < |ps| && ps[i].error == None)
  {
    ErrorsMean(ps);
  }

  lemma {:induction false} ErrorsMean(ps: seq<Prediction>)
    ensures Errors(ps) <= |ps|
    ensures Errors(ps) == 0 <==> forall i :: 0 <= i < |ps| ==> ps[i].error == None
    ensures Errors(ps) == |ps| <==> forall i :: 0 <= i < |ps| ==> ps[i].error.Some?
  {
    if ps != [] {
      var before := ps[..|ps| - 1];
      ErrorsMean(before);
      assert forall i :: 0 <= i < |before| ==> before[i] == ps[i];
    }
  }

  /**
   With at least one case a run fails as a whole exactly when only the semantic judge was asked and failed throughout,
   and it is complete exactly when the semantic judge was not asked or judged every case.
  */
  lemma AllFailedExactly(cases: seq<Case>, requested: seq<Mode>, modes: seq<Mode>)
    requires Effective(requested, modes) && cases != [] && requested != []
    ensures StatusOf(AllPredictions(cases, set m | m in modes)) == AllFailed
       <==> Rules !in modes && forall i :: 0 <= i < |cases| ==> !cases[i].semantic.Judged?
    ensures StatusOf(AllPredictions(cases, set m | m in modes)) == Completed
       <==> Semantic !in modes || forall i :: 0 <= i < |cases| ==> cases[i].semantic.Judged?
  {
    var wanted := set m | m in modes;
    assert modes[0] in wanted;
    ErrorCounts(cases, wanted);
  }

  /**
   Every case contributes at least one prediction; its errors are all of them exactly when nothing judged it, and there
   are none exactly when the semantic judge, if asked, judged it.
  */
  lemma {:induction false} ErrorCounts(cases: seq<Case>, modes: set<Mode>)
    requires modes != {} && (Hybrid in modes ==> Rules in modes && Semantic in modes)
    ensures var ps := AllPredictions(cases, modes);
            && |ps| >= |cases| && Errors(ps) <= |ps|
            && (Errors(ps) == |ps| <==>
                cases == [] || (Rules !in modes && forall i :: 0 <= i < |cases| ==> !cases[i].semantic.Judged?))
            && (Errors(ps) == 0 <==>
                Semantic !in modes || forall i :: 0 <= i < |cases| ==> cases[i].semantic.Judged?)
  {
    hide CasePredictions, Errors;
    if cases == [] {
      NoErrors();
    } else {
      var before, c := cases[..|cases| - 1], cases[|cases| - 1];
      ErrorCounts(before, modes);
      CaseErrors(AllPredictions(before, modes), c, modes);
      assert forall i :: 0 <= i < |before| ==> before[i] == cases[i];
    }
  }

  lemma {:induction false} ErrorsAppend(ps: seq<Prediction>, qs: seq<Prediction>)
    ensures Errors(ps + qs) == Errors(ps) + Errors(qs)
    decreases |qs|
  {
    if qs == [] {
      assert ps + qs == ps;
    } else {
      assert (ps + qs)[..|ps + qs| - 1] == ps + qs[..|qs| - 1];
      ErrorsAppend(ps, qs[..|qs| - 1]);
    }
  }

  lemma CaseAnswers(c: Case, modes: set<Mode>)
    requires modes != {} && (Hybrid in modes ==> Rules in modes && Semantic in modes)
    ensures var qs := CasePredictions(c, modes);
            && |qs| >= 1
            && ((forall i :: 0 <= i < |qs| ==> qs[i].error.Some?) <==> Rules !in modes && !c.semantic.Judged?)
            && ((forall i :: 0 <= i < |qs| ==> qs[i].error == None) <==> Semantic !in modes || c.semantic.Judged?)
  {
    var m :| m in modes;
    assert m == Rules || m == Semantic || m == Hybrid;
    var r, s := RulesPrediction(c), SemanticPrediction(c);
    var qs := CasePredictions(c, modes);
    if Rules !in modes {
      assert qs == [s] && qs[0] == s;
    } else if Semantic !in modes {
      assert qs == [r] && qs[0] == r;
    } else {
      assert qs[0] == r && qs[1] == s;
    }
  }

  lemma CaseErrors(ps: seq<Prediction>, c: Case, modes: set<Mode>)
    requires modes != {} && (Hybrid in modes ==> Rules in modes && Semantic in modes)
    ensures var qs := CasePredictions(c, modes);
            && |qs| >= 1 && Errors(ps) <= Errors(ps + qs) <= Errors(ps) + |qs|
            && (Errors(ps + qs) == Errors(ps) + |qs| <==> Rules !in modes && !c.semantic.Judged?)
            && (Errors(ps + qs) == Errors(ps) <==> Semantic !in modes || c.semantic.Judged?)
  {
    hide Errors, CasePredictions;
    ErrorsAppend(ps, CasePredictions(c, modes));
    ErrorsMean(CasePredictions(c, modes));
    CaseAnswers(c, modes);
  }
}
