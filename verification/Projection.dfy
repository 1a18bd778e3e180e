/**
  The compatibility projection of a multimodal evaluation. One function produces it, another one,
  written independently, checks it before it is stored beside the authoritative sidecar. Here the
  two are compared with each other and with what the projection is supposed to say.
*/
module Projection {
  import opened Text
  import StableJson

  /** Identifiers and hashes are only ever compared for equality; numbers stand for them. */
  type Id = nat

  datatype Verdict = Met | NotMet | NotEvaluable
  datatype Outcome = AllMet | Partial | NoneMet | Unevaluable
  datatype Recommendation = Pass | ReviewRequired | Retry

  datatype Criterion = Criterion(id: Id, verdict: Verdict, anchors: seq<Text>)
  datatype Question = Question(id: Id, criteria: seq<Criterion>)
  datatype Authoritative = Authoritative(
    attemptId: Id, revisionId: Id, headSha: Id, workflowReview: bool, manualReview: bool, questions: seq<Question>)

  datatype StoredQuestion = StoredQuestion(id: Id, rubric: seq<Id>, anchors: seq<Text>)
  datatype Input = Input(attemptId: Id, revisionId: Id, headSha: Id, questions: seq<StoredQuestion>)

  /** The fixed reason texts of a projection, told apart from any other text. */
  datatype Reason = BoundedSupport | NoBoundedSupport | SentinelOnly | OtherReason(text: string)

  datatype Finding = Finding(criterionId: Id, met: bool, reason: Reason)
  datatype Projected = Projected(questionId: Id, outcome: Outcome, findings: seq<Finding>, anchors: seq<Text>)
  /** Provider, model, prompt and schema version: those of the manual-review projection, or others. */
  datatype Labels =
    | ManualReviewProjection | OtherLabels(provider: string, model: string, prompt: string, version: string)
  datatype Compatibility = Compatibility(
    attemptId: Id, revisionId: Id, headSha: Id, labels: Labels, recommendation: Recommendation,
    questions: seq<Projected>)
  datatype Bundle = Bundle(labels: Labels, recommendation: Recommendation)

  datatype Error = InvalidInput | NotBound | UnknownQuestion | RubricMismatch | SchemaInvalid
  datatype Result<+T> = Ok(value: T) | Err(error: Error)

  // ---------------------------------------------------------------------------------------------
  // Lists without repetition
  // ---------------------------------------------------------------------------------------------

  predicate Distinct<T(==)>(xs: seq<T>) { forall i, j :: 0 <= i < j < |xs| ==> xs[i] != xs[j] }

  function Elements<T>(xs: seq<T>): set<T> { set x | x in xs }

  function Map<T, U>(f: T -> U, xs: seq<T>): (ys: seq<U>)
    ensures |ys| == |xs| && forall i :: 0 <= i < |xs| ==> ys[i] == f(xs[i])
  {
    seq(|xs|, i requires 0 <= i < |xs| => f(xs[i]))
  }

  lemma MapSnoc<T, U>(f: T -> U, xs: seq<T>, i: nat)
    requires i < |xs|
    ensures Map(f, xs[..i + 1]) == Map(f, xs[..i]) + [f(xs[i])]
  {
  }

  /** [...new Set(xs)]: first occurrences, in order. */
  function Dedup<T(==)>(xs: seq<T>): (r: seq<T>)
    ensures Distinct(r) && Elements(r) == Elements(xs)
  {
    if xs == [] then []
    else
      var earlier, x := Dedup(xs[..|xs| - 1]), xs[|xs| - 1];
      assert xs == xs[..|xs| - 1] + [x];
      assert Elements(xs) == Elements(earlier) + {x};
      if x in earlier then earlier else earlier + [x]
  }

  lemma {:induction false} DistinctCount<T>(xs: seq<T>)
    requires Distinct(xs)
    ensures |Elements(xs)| == |xs|
  {
    if xs != [] {
      var init, x := xs[..|xs| - 1], xs[|xs| - 1];
      DistinctCount(init);
      assert xs == init + [x];
      assert Elements(xs) == Elements(init) + {x};
    }
  }

  /** Of two lists with the same contents, counted, one is free of repetition iff the other is. */
  lemma {:induction false} DistinctMultiset<T>(xs: seq<T>)
    ensures Distinct(xs) <==> forall x :: multiset(xs)[x] <= 1
  {
    if xs != [] {
      var init, x := xs[..|xs| - 1], xs[|xs| - 1];
      DistinctMultiset(init);
      assert xs == init + [x];
      assert multiset(xs) == multiset(init) + multiset{x};
      if Distinct(xs) {
        assert x !in init;
        assert forall y :: multiset(xs)[y] == multiset(init)[y] + (if y == x then 1 else 0);
      }
      if forall y :: multiset(xs)[y] <= 1 {
        assert forall y :: multiset(init)[y] <= multiset(xs)[y];
        assert multiset(xs)[x] <= 1;
        assert x !in multiset(init);
      }
    }
  }

  lemma DistinctContents<T>(xs: seq<T>, ys: seq<T>)
    requires Distinct(ys)
    ensures multiset(xs) == multiset(ys) <==> Distinct(xs) && Elements(xs) == Elements(ys)
  {
    DistinctMultiset(xs);
    DistinctMultiset(ys);
    assert forall x :: x in Elements(xs) <==> x in multiset(xs);
    assert forall x :: x in Elements(ys) <==> x in multiset(ys);
    if Distinct(xs) && Elements(xs) == Elements(ys) {
      forall x
        ensures multiset(xs)[x] == multiset(ys)[x]
      {
        assert x in multiset(xs) <==> x in multiset(ys);
      }
    }
  }

  // ---------------------------------------------------------------------------------------------
  // What a question says
  // ---------------------------------------------------------------------------------------------

  function Evaluable(cs: seq<Criterion>): (r: seq<Criterion>)
    ensures forall c :: c in r <==> c in cs && c.verdict != NotEvaluable
    ensures |r| <= |cs|
  {
    if cs == [] then []
    else
      var init, c := cs[..|cs| - 1], cs[|cs| - 1];
      assert cs == init + [c];
      if c.verdict == NotEvaluable then Evaluable(init) else Evaluable(init) + [c]
  }

  function FlatAnchors(cs: seq<Criterion>): seq<Text> {
    if cs == [] then [] else FlatAnchors(cs[..|cs| - 1]) + cs[|cs| - 1].anchors
  }

  function CriterionIds(cs: seq<Criterion>): (ids: seq<Id>)
    ensures |ids| == |cs| && forall i :: 0 <= i < |cs| ==> ids[i] == cs[i].id
  {
    seq(|cs|, i requires 0 <= i < |cs| => cs[i].id)
  }

  function FindingIds(fs: seq<Finding>): (ids: seq<Id>)
    ensures |ids| == |fs| && forall i :: 0 <= i < |fs| ==> ids[i] == fs[i].criterionId
  {
    seq(|fs|, i requires 0 <= i < |fs| => fs[i].criterionId)
  }

  predicate AllAre(cs: seq<Criterion>, v: Verdict) { forall c :: c in cs ==> c.verdict == v }

  /** compatibilityQuestionOutcome */
  function QuestionOutcome(cs: seq<Criterion>): Outcome {
    if exists c :: c in cs && c.verdict == NotEvaluable then Unevaluable
    else if AllAre(cs, Met) then AllMet
    else if AllAre(cs, NotMet) then NoneMet
    else Partial
  }

  // ---------------------------------------------------------------------------------------------
  // The checker
  // ---------------------------------------------------------------------------------------------

  /** new Map(criteria by id): the last criterion of an id wins. */
  function ByCriterion(cs: seq<Criterion>): (m: map<Id, Criterion>)
    ensures m.Keys == Elements(CriterionIds(cs))
    ensures forall id :: id in m ==> m[id] in cs && m[id].id == id
  {
    if cs == [] then map[]
    else
      var init, c := cs[..|cs| - 1], cs[|cs| - 1];
      assert cs == init + [c] && CriterionIds(cs) == CriterionIds(init) + [c.id];
      ByCriterion(init)[c.id := c]
  }

  function Known(fs: seq<Finding>, cs: seq<Criterion>): (r: seq<Finding>)
    ensures forall f :: f in r <==> f in fs && f.criterionId in ByCriterion(cs)
  {
    if fs == [] then []
    else
      var init, f := fs[..|fs| - 1], fs[|fs| - 1];
      assert fs == init + [f];
      if f.criterionId in ByCriterion(cs) then Known(init, cs) + [f] else Known(init, cs)
  }

  function Sentinels(fs: seq<Finding>, cs: seq<Criterion>): (r: seq<Finding>)
    ensures forall f :: f in r <==> f in fs && f.criterionId !in ByCriterion(cs)
  {
    if fs == [] then []
    else
      var init, f := fs[..|fs| - 1], fs[|fs| - 1];
      assert fs == init + [f];
      if f.criterionId in ByCriterion(cs) then Sentinels(init, cs) else Sentinels(init, cs) + [f]
  }

  function AnchorsJson(anchors: seq<Text>): StableJson.Json {
    StableJson.Arr(seq(|anchors|, i requires 0 <= i < |anchors| => StableJson.Str(anchors[i])))
  }

  predicate MatchesSource(f: Finding, cs: seq<Criterion>) {
    && f.criterionId in ByCriterion(cs)
    && ByCriterion(cs)[f.criterionId].verdict == if f.met then Met else NotMet
  }

  /** The anchor lists are compared as sorted, printed strings. */
  predicate AnchorsMatch(q: Question, p: Projected) {
    StableJson.JsonEqual(AnchorsJson(Sort(p.anchors)), AnchorsJson(Sort(Dedup(FlatAnchors(q.criteria)))))
  }

  predicate FindingsMatch(cs: seq<Criterion>, fs: seq<Finding>) {
    var evaluable, known, sentinels := Evaluable(cs), Known(fs, cs), Sentinels(fs, cs);
    && |known| == |evaluable|
    && (forall f :: f in known ==> MatchesSource(f, cs))
    && (forall f, c :: f in fs && c in cs && c.verdict == NotEvaluable ==> f.criterionId != c.id)
    && (|evaluable| > 0 ==> |sentinels| == 0)
    && (|evaluable| == 0 ==> |sentinels| == 1 && sentinels[0].met && sentinels[0].reason == SentinelOnly)
  }

  /** The checks of one question. */
  predicate AcceptsQuestion(q: Question, p: Projected) {
    && p.outcome == QuestionOutcome(q.criteria)
    && AnchorsMatch(q, p)
    && FindingsMatch(q.criteria, p.findings)
  }

  predicate HeadersAgree(a: Authoritative, b: Bundle, c: Compatibility) {
    && b.recommendation == ReviewRequired && c.recommendation == ReviewRequired
    && c.attemptId == a.attemptId && c.revisionId == a.revisionId && c.headSha == a.headSha
    && c.labels == b.labels
  }

  /** new Map(projected questions by id). */
  function ByQuestion(ps: seq<Projected>): (m: map<Id, Projected>)
    ensures forall id :: id in m ==> m[id] in ps && m[id].questionId == id
  {
    if ps == [] then map[]
    else
      var init, p := ps[..|ps| - 1], ps[|ps| - 1];
      assert ps == init + [p];
      ByQuestion(init)[p.questionId := p]
  }

  predicate Accepts(a: Authoritative, b: Bundle, c: Compatibility) {
    var byQuestion := ByQuestion(c.questions);
    && HeadersAgree(a, b, c)
    && |byQuestion.Keys| == |a.questions|
    && forall q :: q in a.questions ==> AcceptsIn(q, byQuestion)
  }

  predicate AcceptsIn(q: Question, byQuestion: map<Id, Projected>) {
    q.id in byQuestion && AcceptsQuestion(q, byQuestion[q.id])
  }

  // ---------------------------------------------------------------------------------------------
  // What an accepted projection says
  // ---------------------------------------------------------------------------------------------

  function EvaluableVerdicts(cs: seq<Criterion>): set<(Id, Verdict)> {
    set c | c in cs && c.verdict != NotEvaluable :: (c.id, c.verdict)
  }

  function FindingVerdicts(fs: seq<Finding>): set<(Id, Verdict)> {
    set f | f in fs :: (f.criterionId, if f.met then Met else NotMet)
  }

  /**
    The meaning of a projected question: its findings are exactly the evaluable criteria with their
    authoritative verdicts, or one marked sentinel when there is none; its anchors are exactly the
    question's, each once.
  */
  ghost predicate Represents(q: Question, p: Projected) {
    && p.outcome == QuestionOutcome(q.criteria)
    && Distinct(p.anchors) && Elements(p.anchors) == Elements(FlatAnchors(q.criteria))
    && if EvaluableVerdicts(q.criteria) != {} then FindingVerdicts(p.findings) == EvaluableVerdicts(q.criteria)
       else
         && |p.findings| == 1 && p.findings[0].criterionId !in CriterionIds(q.criteria)
         && p.findings[0].met && p.findings[0].reason == SentinelOnly
  }

  lemma AnchorsDecide(xs: seq<Text>, ys: seq<Text>)
    ensures StableJson.JsonEqual(AnchorsJson(xs), AnchorsJson(ys)) <==> xs == ys
  {
    var a, b := AnchorsJson(xs), AnchorsJson(ys);
    StableJson.JsonEqualDecidesEquality(a, b);
    if StableJson.Same(a, b, false) {
      forall i | 0 <= i < |xs|
        ensures xs[i] == ys[i]
      {
        assert StableJson.Same(a.items[i], b.items[i], false);
      }
    }
  }

  /** Sorting, de-duplicating and printing the anchors compares them as sets, each named once. */
  lemma AnchorCheckMeansSameSet(xs: seq<Text>, ys: seq<Text>)
    ensures StableJson.JsonEqual(AnchorsJson(Sort(xs)), AnchorsJson(Sort(Dedup(ys)))) <==>
            Distinct(xs) && Elements(xs) == Elements(ys)
  {
    AnchorsDecide(Sort(xs), Sort(Dedup(ys)));
    SortDecidesContents(xs, Dedup(ys));
    DistinctContents(xs, Dedup(ys));
  }

  lemma {:induction false} EvaluableIdsDistinct(cs: seq<Criterion>)
    requires Distinct(CriterionIds(cs))
    ensures Distinct(CriterionIds(Evaluable(cs)))
  {
    if cs != [] {
      var init, c := cs[..|cs| - 1], cs[|cs| - 1];
      assert CriterionIds(cs) == CriterionIds(init) + [c.id];
      EvaluableIdsDistinct(init);
      var e := Evaluable(init);
      forall i | 0 <= i < |e|
        ensures e[i].id != c.id
      {
        assert e[i] in init;
        var k :| 0 <= k < |init| && init[k] == e[i];
        assert CriterionIds(cs)[k] != CriterionIds(cs)[|cs| - 1];
      }
    }
  }

  lemma {:induction false} KnownAndSentinels(fs: seq<Finding>, cs: seq<Criterion>)
    ensures |Known(fs, cs)| + |Sentinels(fs, cs)| == |fs|
    ensures Sentinels(fs, cs) == [] ==> Known(fs, cs) == fs
    ensures Known(fs, cs) == [] ==> Sentinels(fs, cs) == fs
  {
    if fs != [] {
      assert fs == fs[..|fs| - 1] + [fs[|fs| - 1]];
      KnownAndSentinels(fs[..|fs| - 1], cs);
    }
  }

  lemma FindingIdIn(fs: seq<Finding>, id: Id)
    ensures id in Elements(FindingIds(fs)) <==> exists f :: f in fs && f.criterionId == id
  {
  }

  lemma CriterionIdIn(cs: seq<Criterion>, id: Id)
    ensures id in Elements(CriterionIds(cs)) <==> exists c :: c in cs && c.id == id
  {
  }

  lemma {:induction false} KnownIdsDistinct(fs: seq<Finding>, cs: seq<Criterion>)
    requires Distinct(FindingIds(fs))
    ensures Distinct(FindingIds(Known(fs, cs)))
  {
    if fs != [] {
      var init, f := fs[..|fs| - 1], fs[|fs| - 1];
      assert FindingIds(fs) == FindingIds(init) + [f.criterionId];
      KnownIdsDistinct(init, cs);
      var k := Known(init, cs);
      FindingIdIn(k, f.criterionId);
      FindingIdIn(init, f.criterionId);
      assert f.criterionId !in FindingIds(init);
      assert f.criterionId !in Elements(FindingIds(k));
      assert FindingIds(k + [f]) == FindingIds(k) + [f.criterionId];
    }
  }

  lemma {:induction false} OneCriterionPerId(cs: seq<Criterion>, c: Criterion)
    requires Distinct(CriterionIds(cs)) && c in cs
    ensures c.id in ByCriterion(cs) && ByCriterion(cs)[c.id] == c
  {
    var init, last := cs[..|cs| - 1], cs[|cs| - 1];
    assert cs == init + [last];
    if c != last {
      assert CriterionIds(cs) == CriterionIds(init) + [last.id];
      OneCriterionPerId(init, c);
      CriterionIdIn(init, c.id);
      assert c.id in CriterionIds(init) && last.id !in CriterionIds(init);
    }
  }

  lemma EvaluableVerdictsEmpty(cs: seq<Criterion>)
    ensures EvaluableVerdicts(cs) == {} <==> |Evaluable(cs)| == 0
  {
    if |Evaluable(cs)| > 0 {
      var c := Evaluable(cs)[0];
      assert c in Evaluable(cs);
      assert (c.id, c.verdict) in EvaluableVerdicts(cs);
    }
    if EvaluableVerdicts(cs) != {} {
      var v :| v in EvaluableVerdicts(cs);
      var c :| c in cs && c.verdict != NotEvaluable && v == (c.id, c.verdict);
      assert c in Evaluable(cs);
    }
  }

  /** Counting alone makes the known findings exactly the evaluable criteria, when no id repeats. */
  lemma KnownAreEvaluable(fs: seq<Finding>, cs: seq<Criterion>)
    requires Distinct(CriterionIds(cs)) && Distinct(FindingIds(fs))
    requires forall f :: f in fs ==> MatchesSource(f, cs)
    ensures |fs| == |Evaluable(cs)| <==> FindingVerdicts(fs) == EvaluableVerdicts(cs)
  {
    var e := Evaluable(cs);
    var have, want := Elements(FindingIds(fs)), Elements(CriterionIds(e));
    EvaluableIdsDistinct(cs);
    DistinctCount(FindingIds(fs));
    DistinctCount(CriterionIds(e));
    forall id | id in have
      ensures id in want
    {
      FindingIdIn(fs, id);
      var f :| f in fs && f.criterionId == id;
      MatchedFinding(f, cs);
    }
    VerdictsFollowIds(fs, cs);
    SubsetCount(have, want);
  }

  lemma SubsetCount<T>(a: set<T>, b: set<T>)
    requires a <= b
    ensures |a| == |b| <==> a == b
  {
    assert b == a + (b - a);
  }

  lemma MatchedFinding(f: Finding, cs: seq<Criterion>)
    requires MatchesSource(f, cs)
    ensures (f.criterionId, if f.met then Met else NotMet) in EvaluableVerdicts(cs)
    ensures f.criterionId in Elements(CriterionIds(Evaluable(cs)))
  {
  }

  lemma MatchedCriterion(fs: seq<Finding>, cs: seq<Criterion>, c: Criterion)
    requires Distinct(CriterionIds(cs)) && c in cs && c.verdict != NotEvaluable
    requires forall f :: f in fs ==> MatchesSource(f, cs)
    ensures c.id in Elements(FindingIds(fs)) <==> (c.id, c.verdict) in FindingVerdicts(fs)
  {
    OneCriterionPerId(cs, c);
    FindingIdIn(fs, c.id);
    if c.id in Elements(FindingIds(fs)) {
      var f :| f in fs && f.criterionId == c.id;
      assert MatchesSource(f, cs);
    }
  }

  lemma VerdictsFollowIds(fs: seq<Finding>, cs: seq<Criterion>)
    requires Distinct(CriterionIds(cs))
    requires forall f :: f in fs ==> MatchesSource(f, cs)
    ensures Elements(FindingIds(fs)) == Elements(CriterionIds(Evaluable(cs))) <==>
            FindingVerdicts(fs) == EvaluableVerdicts(cs)
  {
    var have, want := Elements(FindingIds(fs)), Elements(CriterionIds(Evaluable(cs)));
    if have == want {
      forall v | v in EvaluableVerdicts(cs)
        ensures v in FindingVerdicts(fs)
      {
        var c :| c in cs && c.verdict != NotEvaluable && v == (c.id, c.verdict);
        CriterionIdIn(Evaluable(cs), c.id);
        assert c in Evaluable(cs);
        MatchedCriterion(fs, cs, c);
      }
      forall v | v in FindingVerdicts(fs)
        ensures v in EvaluableVerdicts(cs)
      {
        var f :| f in fs && v == (f.criterionId, if f.met then Met else NotMet);
        MatchedFinding(f, cs);
      }
    }
    if FindingVerdicts(fs) == EvaluableVerdicts(cs) {
      forall id | id in have
        ensures id in want
      {
        FindingIdIn(fs, id);
        var f :| f in fs && f.criterionId == id;
        MatchedFinding(f, cs);
      }
      forall id | id in want
        ensures id in have
      {
        CriterionIdIn(Evaluable(cs), id);
        var c :| c in Evaluable(cs) && c.id == id;
        assert (c.id, c.verdict) in EvaluableVerdicts(cs);
        MatchedCriterion(fs, cs, c);
      }
    }
  }

  lemma FirstIsMember<T>(xs: seq<T>)
    ensures xs == [] || xs[0] in xs
  {
  }

  lemma OutsideCriteria(cs: seq<Criterion>, id: Id)
    ensures id in ByCriterion(cs) <==> id in CriterionIds(cs)
  {
  }

  lemma RepresentedFindingsMatch(q: Question, p: Projected, f: Finding)
    requires Distinct(CriterionIds(q.criteria)) && f in p.findings
    requires FindingVerdicts(p.findings) == EvaluableVerdicts(q.criteria)
    ensures MatchesSource(f, q.criteria)
  {
    var v := (f.criterionId, if f.met then Met else NotMet);
    assert v in FindingVerdicts(p.findings);
    var c :| c in q.criteria && c.verdict != NotEvaluable && v == (c.id, c.verdict);
    OneCriterionPerId(q.criteria, c);
  }

  lemma AcceptedQuestionRepresents(q: Question, p: Projected)
    requires Distinct(CriterionIds(q.criteria)) && Distinct(FindingIds(p.findings))
    requires AcceptsQuestion(q, p)
    ensures Represents(q, p)
  {
    var cs, fs := q.criteria, p.findings;
    AnchorCheckMeansSameSet(p.anchors, FlatAnchors(cs));
    KnownAndSentinels(fs, cs);
    EvaluableVerdictsEmpty(cs);
    if |Evaluable(cs)| > 0 {
      assert Known(fs, cs) == fs;
      KnownAreEvaluable(fs, cs);
    } else {
      assert Sentinels(fs, cs) == fs && fs[0] in fs;
      OutsideCriteria(cs, fs[0].criterionId);
    }
  }

  lemma RepresentingQuestionAccepted(q: Question, p: Projected)
    requires Distinct(CriterionIds(q.criteria)) && Distinct(FindingIds(p.findings))
    requires Represents(q, p)
    ensures AcceptsQuestion(q, p)
  {
    var cs, fs := q.criteria, p.findings;
    AnchorCheckMeansSameSet(p.anchors, FlatAnchors(cs));
    KnownAndSentinels(fs, cs);
    EvaluableVerdictsEmpty(cs);
    if |Evaluable(cs)| > 0 {
      forall f | f in fs
        ensures MatchesSource(f, cs)
      {
        RepresentedFindingsMatch(q, p, f);
      }
      var sentinels := Sentinels(fs, cs);
      FirstIsMember(sentinels);
      KnownAreEvaluable(fs, cs);
      forall f, c | f in fs && c in cs && c.verdict == NotEvaluable
        ensures f.criterionId != c.id
      {
        OneCriterionPerId(cs, c);
        assert MatchesSource(f, cs);
      }
    } else {
      OutsideCriteria(cs, fs[0].criterionId);
      var known := Known(fs, cs);
      FirstIsMember(known);
      forall f, c | f in fs && c in cs && c.verdict == NotEvaluable
        ensures f.criterionId != c.id
      {
        CriterionIdIn(cs, c.id);
      }
    }
  }

  /**
    With distinct ids, the checker accepts a question exactly when it represents the authoritative
    one: counting, filtering and string comparison together say just that.
  */
  lemma CheckerDecidesRepresentation(q: Question, p: Projected)
    requires Distinct(CriterionIds(q.criteria)) && Distinct(FindingIds(p.findings))
    ensures AcceptsQuestion(q, p) <==> Represents(q, p)
  {
    if AcceptsQuestion(q, p) {
      AcceptedQuestionRepresents(q, p);
    }
    if Represents(q, p) {
      RepresentingQuestionAccepted(q, p);
    }
  }

  /** The known findings of an accepted question are its evaluable criteria; the others do not appear. */
  lemma AcceptedFindingsAreEvaluable(a: Authoritative, b: Bundle, c: Compatibility, q: Question)
    requires Accepts(a, b, c) && q in a.questions && Distinct(CriterionIds(q.criteria))
    requires AcceptsIn(q, ByQuestion(c.questions)) ==> Distinct(FindingIds(ByQuestion(c.questions)[q.id].findings))
    ensures var p := ByQuestion(c.questions)[q.id];
            && FindingVerdicts(Known(p.findings, q.criteria)) == EvaluableVerdicts(q.criteria)
            && forall criterion, f ::
                 criterion in q.criteria && criterion.verdict == NotEvaluable && f in p.findings ==>
                   f.criterionId != criterion.id
  {
    assert AcceptsIn(q, ByQuestion(c.questions));
    var p := ByQuestion(c.questions)[q.id];
    KnownIdsDistinct(p.findings, q.criteria);
    KnownAreEvaluable(Known(p.findings, q.criteria), q.criteria);
  }

  lemma CriteriaSnoc(init: seq<Criterion>, c: Criterion)
    ensures var cs := init + [c];
            && ByCriterion(cs) == ByCriterion(init)[c.id := c]
            && Evaluable(cs) == (if c.verdict == NotEvaluable then Evaluable(init) else Evaluable(init) + [c])
            && FlatAnchors(cs) == FlatAnchors(init) + c.anchors
  {
  }

  lemma FindingsSnoc(init: seq<Finding>, f: Finding, cs: seq<Criterion>)
    requires f.criterionId in ByCriterion(cs)
    ensures Known(init + [f], cs) == Known(init, cs) + [f] && Sentinels(init + [f], cs) == Sentinels(init, cs)
  {
  }

  function TwoMet(x: Id, y: Id): Question { Question(0, [Criterion(x, Met, [])] + [Criterion(y, Met, [])]) }

  function Repeated(x: Id): Projected {
    Projected(0, AllMet, [Finding(x, true, BoundedSupport)] + [Finding(x, true, BoundedSupport)], [])
  }

  lemma TwoMetChecks(x: Id, y: Id)
    requires x != y
    ensures var cs, fs := TwoMet(x, y).criteria, Repeated(x).findings;
            && Evaluable(cs) == cs && Known(fs, cs) == fs && Sentinels(fs, cs) == [] && FlatAnchors(cs) == []
            && MatchesSource(Finding(x, true, BoundedSupport), cs)
  {
    var c, d, f := Criterion(x, Met, []), Criterion(y, Met, []), Finding(x, true, BoundedSupport);
    var cs := [c] + [d];
    CriteriaSnoc([], c);
    CriteriaSnoc([c], d);
    assert [] + [c] == [c];
    TwiceKnown(f, cs);
  }

  lemma TwiceKnown(f: Finding, cs: seq<Criterion>)
    requires f.criterionId in ByCriterion(cs)
    ensures Known([f] + [f], cs) == [f] + [f] && Sentinels([f] + [f], cs) == []
  {
    FindingsSnoc([], f, cs);
    FindingsSnoc([f], f, cs);
    assert [] + [f] == [f];
  }

  lemma TwoMetOutcome(x: Id, y: Id)
    ensures QuestionOutcome(TwoMet(x, y).criteria) == AllMet
  {
  }

  lemma RepeatedFindingsMatch(x: Id, y: Id)
    requires x != y
    ensures FindingsMatch(TwoMet(x, y).criteria, Repeated(x).findings)
  {
    TwoMetChecks(x, y);
    assert forall f :: f in Repeated(x).findings ==> f == Finding(x, true, BoundedSupport);
  }

  /** If finding ids could repeat, a projection naming one criterion twice and the other never would pass. */
  lemma RepeatedFindingFoolsChecker(x: Id, y: Id)
    requires x != y
    ensures AcceptsQuestion(TwoMet(x, y), Repeated(x)) && !Represents(TwoMet(x, y), Repeated(x))
  {
    TwoMetChecks(x, y);
    assert AnchorsMatch(TwoMet(x, y), Repeated(x)) by {
      AnchorCheckMeansSameSet([], FlatAnchors(TwoMet(x, y).criteria));
    }
    TwoMetOutcome(x, y);
    RepeatedFindingsMatch(x, y);
    RepeatedMisrepresents(x, y);
  }

  lemma RepeatedMisrepresents(x: Id, y: Id)
    requires x != y
    ensures !Represents(TwoMet(x, y), Repeated(x))
  {
    var d, cs := Criterion(y, Met, []), TwoMet(x, y).criteria;
    assert cs[1] == d && d in cs;
    assert (d.id, d.verdict) in EvaluableVerdicts(cs);
    assert forall f :: f in Repeated(x).findings ==> f.criterionId == x;
    assert (y, Met) !in FindingVerdicts(Repeated(x).findings);
  }

  // ---------------------------------------------------------------------------------------------
  // The producer
  // ---------------------------------------------------------------------------------------------

  predicate IsBound(input: Input, a: Authoritative) {
    && a.attemptId == input.attemptId && a.revisionId == input.revisionId && a.headSha == input.headSha
    && a.workflowReview && a.manualReview
  }

  function StoredById(qs: seq<StoredQuestion>): (m: map<Id, StoredQuestion>) {
    if qs == [] then map[] else StoredById(qs[..|qs| - 1])[qs[|qs| - 1].id := qs[|qs| - 1]]
  }

  function QuestionIds(qs: seq<Question>): seq<Id> { Map((q: Question) => q.id, qs) }

  /** Each criterion of the stored rubric once and no other. */
  predicate CoversRubric(q: Question, rubric: seq<Id>) {
    Distinct(CriterionIds(q.criteria)) && Elements(CriterionIds(q.criteria)) == Elements(rubric)
  }

  /** Each stored question once and no other, each with its exact rubric. */
  predicate Covers(input: Input, a: Authoritative) {
    var stored := StoredById(input.questions);
    && Distinct(QuestionIds(a.questions)) && Elements(QuestionIds(a.questions)) == stored.Keys
    && forall q :: q in a.questions && q.id in stored ==> CoversRubric(q, stored[q.id].rubric)
  }

  function FindingOf(c: Criterion): Finding {
    Finding(c.id, c.verdict == Met, if c.verdict == Met then BoundedSupport else NoBoundedSupport)
  }

  function FindingsOf(cs: seq<Criterion>): seq<Finding> {
    seq(|cs|, i requires 0 <= i < |cs| => FindingOf(cs[i]))
  }

  function Project(sentinelId: (Id, Id) -> Id, attemptId: Id, q: Question): Projected {
    var evaluable := Evaluable(q.criteria);
    Projected(
      q.id,
      if exists c :: c in q.criteria && c.verdict == NotEvaluable then Unevaluable
      else if AllAre(evaluable, Met) then AllMet
      else if AllAre(evaluable, NotMet) then NoneMet
      else Partial,
      if evaluable == [] then [Finding(sentinelId(attemptId, q.id), true, SentinelOnly)]
      else FindingsOf(evaluable),
      Dedup(FlatAnchors(evaluable)))
  }

  function ProjectAll(sentinelId: (Id, Id) -> Id, attemptId: Id, qs: seq<Question>): seq<Projected> {
    Map(q => Project(sentinelId, attemptId, q), qs)
  }

  /** ProofEvaluationV1Schema, as far as a projection can violate it. */
  predicate FitsSchema(ps: seq<Projected>) {
    && 1 <= |ps| <= 5
    && (forall i, j :: 0 <= i < j < |ps| ==> ps[i].questionId != ps[j].questionId)
    && forall p :: p in ps ==> ProjectedFits(p)
  }

  predicate ProjectedFits(p: Projected) {
    1 <= |p.findings| <= 8 && |p.anchors| <= 5 && Distinct(FindingIds(p.findings)) && Distinct(p.anchors)
  }

  /** AuthoritativeMultimodalEvaluationV1Schema, on what is modelled of an evaluation. */
  predicate AuthoritativeFits(a: Authoritative) {
    && 1 <= |a.questions| <= 5 && Distinct(QuestionIds(a.questions))
    && forall q :: q in a.questions ==> QuestionFits(q)
  }

  predicate QuestionFits(q: Question) {
    && 1 <= |q.criteria| <= 8 && Distinct(CriterionIds(q.criteria))
    && forall c :: c in q.criteria ==> |c.anchors| <= 5 && (c.anchors == [] <==> c.verdict == NotEvaluable)
  }

  function CompatibilityOf(input: Input, ps: seq<Projected>): Compatibility {
    Compatibility(input.attemptId, input.revisionId, input.headSha, ManualReviewProjection, ReviewRequired, ps)
  }

  function Produced(sentinelId: (Id, Id) -> Id, input: Input, a: Authoritative): Compatibility {
    CompatibilityOf(input, ProjectAll(sentinelId, input.attemptId, a.questions))
  }

  /** The exact rubric check of one question: membership and repetition as it goes, then the count. */
  method CheckRubric(q: Question, rubric: seq<Id>) returns (ok: bool)
    ensures ok <==> CoversRubric(q, rubric)
  {
    var storedIds := Elements(rubric);
    var seen: set<Id> := {};
    var ids := CriterionIds(q.criteria);
    for i := 0 to |ids|
      invariant seen == Elements(ids[..i]) && Distinct(ids[..i]) && seen <= storedIds
    {
      assert ids[..i + 1] == ids[..i] + [ids[i]];
      if ids[i] !in storedIds || ids[i] in seen {
        assert ids[i] in seen ==> ids[i] in ids[..i];
        assert ids[i] in Elements(ids);
        return false;
      }
      seen := seen + {ids[i]};
    }
    assert ids[..|ids|] == ids;
    SubsetCount(seen, storedIds);
    ok := |seen| == |storedIds|;
  }

  /** The first `n` questions are different stored questions, each with its exact rubric. */
  predicate CoversFirst(input: Input, a: Authoritative, n: nat)
    requires n <= |a.questions|
  {
    && Distinct(QuestionIds(a.questions)[..n])
    && forall k :: 0 <= k < n ==> CoversQuestion(StoredById(input.questions), a.questions[k])
  }

  predicate CoversQuestion(stored: map<Id, StoredQuestion>, q: Question) {
    q.id in stored && CoversRubric(q, stored[q.id].rubric)
  }

  lemma CoversExactly(input: Input, a: Authoritative, n: nat)
    requires n <= |a.questions|
    ensures Covers(input, a) ==> CoversFirst(input, a, n)
    ensures Covers(input, a) <==>
            && CoversFirst(input, a, |a.questions|)
            && Elements(QuestionIds(a.questions)) == StoredById(input.questions).Keys
  {
    var ids, stored := QuestionIds(a.questions), StoredById(input.questions);
    assert ids[..|a.questions|] == ids;
    forall q | q in a.questions && Covers(input, a)
      ensures CoversQuestion(stored, q)
    {
      var i :| 0 <= i < |a.questions| && a.questions[i] == q;
      assert ids[i] in Elements(ids);
    }
  }

  lemma CoversOneMore(input: Input, a: Authoritative, n: nat)
    requires n < |a.questions| && CoversFirst(input, a, n)
    ensures var q := a.questions[n];
            CoversFirst(input, a, n + 1) <==>
            CoversQuestion(StoredById(input.questions), q) && q.id !in Elements(QuestionIds(a.questions)[..n])
    ensures Elements(QuestionIds(a.questions)[..n + 1]) == Elements(QuestionIds(a.questions)[..n]) + {a.questions[n].id}
  {
    var ids := QuestionIds(a.questions);
    assert ids[..n + 1] == ids[..n] + [a.questions[n].id];
    if a.questions[n].id in ids[..n] {
      var i :| 0 <= i < n && ids[..n][i] == a.questions[n].id;
      assert ids[..n + 1][i] == ids[..n + 1][n];
    }
  }

  /** The loop over the evaluated questions, and the count of those seen. */
  method ProjectQuestions(sentinelId: (Id, Id) -> Id, input: Input, a: Authoritative)
    returns (r: Result<seq<Projected>>)
    ensures r.Ok? <==> Covers(input, a)
    ensures r.Ok? ==> r.value == ProjectAll(sentinelId, input.attemptId, a.questions)
    ensures r.Err? ==> r.error == UnknownQuestion || r.error == RubricMismatch
  {
    var inputQuestions := StoredById(input.questions);
    var seenQuestions: set<Id> := {};
    var projected: seq<Projected> := [];
    for i := 0 to |a.questions|
      invariant projected == ProjectAll(sentinelId, input.attemptId, a.questions[..i])
      invariant CoversFirst(input, a, i) && seenQuestions == Elements(QuestionIds(a.questions)[..i])
      invariant seenQuestions <= inputQuestions.Keys
    {
      var q := a.questions[i];
      CoversExactly(input, a, i + 1);
      CoversOneMore(input, a, i);
      if q.id !in inputQuestions || q.id in seenQuestions {
        return Err(UnknownQuestion);
      }
      seenQuestions := seenQuestions + {q.id};
      var covered := CheckRubric(q, inputQuestions[q.id].rubric);
      if !covered {
        return Err(RubricMismatch);
      }
      MapSnoc(q => Project(sentinelId, input.attemptId, q), a.questions, i);
      projected := projected + [Project(sentinelId, input.attemptId, q)];
    }
    assert QuestionIds(a.questions)[..|a.questions|] == QuestionIds(a.questions);
    assert a.questions[..|a.questions|] == a.questions;
    CoversExactly(input, a, |a.questions|);
    SubsetCount(seenQuestions, inputQuestions.Keys);
    if |seenQuestions| != |inputQuestions.Keys| {
      return Err(UnknownQuestion);
    }
    r := Ok(projected);
  }

  /** createConservativeCompatibilityEvaluationBundle, up to encryption. */
  method Produce(sentinelId: (Id, Id) -> Id, input: Input, a: Authoritative)
    returns (r: Result<(Compatibility, Bundle)>)
    ensures r.Ok? <==>
            && IsBound(input, a) && Covers(input, a)
            && FitsSchema(ProjectAll(sentinelId, input.attemptId, a.questions))
    ensures r.Ok? ==> r.value == (Produced(sentinelId, input, a), Bundle(ManualReviewProjection, ReviewRequired))
    ensures r.Err? && r.error == NotBound <==>
            !(&& (a.attemptId, a.revisionId, a.headSha) == (input.attemptId, input.revisionId, input.headSha)
              && a.workflowReview && a.manualReview)
  {
    if !IsBound(input, a) {
      return Err(NotBound);
    }
    var projected := ProjectQuestions(sentinelId, input, a);
    if projected.Err? {
      return Err(projected.error);
    }
    if !FitsSchema(projected.value) {
      return Err(SchemaInvalid);
    }
    r := Ok((CompatibilityOf(input, projected.value), Bundle(ManualReviewProjection, ReviewRequired)));
  }

  // ---------------------------------------------------------------------------------------------
  // When the projection of an evaluation that meets its own schema meets the projected one
  // ---------------------------------------------------------------------------------------------

  /** A question names at most five different anchors, all its criteria together. */
  predicate FewAnchors(q: Question) { |Elements(FlatAnchors(q.criteria))| <= 5 }

  lemma ProjectedQuestionFits(sentinelId: (Id, Id) -> Id, attemptId: Id, q: Question)
    requires QuestionFits(q)
    ensures ProjectedFits(Project(sentinelId, attemptId, q)) <==> FewAnchors(q)
  {
    var e := Evaluable(q.criteria);
    AnchorsAgree(q.criteria);
    ProjectedIdsDistinct(q.criteria);
    DistinctCount(Dedup(FlatAnchors(e)));
  }

  lemma ProjectedQuestionsFit(sentinelId: (Id, Id) -> Id, attemptId: Id, qs: seq<Question>)
    requires forall q :: q in qs ==> QuestionFits(q)
    ensures (forall p :: p in ProjectAll(sentinelId, attemptId, qs) ==> ProjectedFits(p)) <==>
            (forall q :: q in qs ==> FewAnchors(q))
  {
    var ps := ProjectAll(sentinelId, attemptId, qs);
    forall i | 0 <= i < |ps|
      ensures ps[i] in ps && qs[i] in qs && (ProjectedFits(ps[i]) <==> FewAnchors(qs[i]))
    {
      ProjectedQuestionFits(sentinelId, attemptId, qs[i]);
    }
  }

  /**
    Of an evaluation that meets its own schema, the projection meets the projected one if and only if
    no question names more than five different anchors; otherwise the producer throws.
  */
  lemma ProjectionFitsExactly(sentinelId: (Id, Id) -> Id, attemptId: Id, a: Authoritative)
    requires AuthoritativeFits(a)
    ensures FitsSchema(ProjectAll(sentinelId, attemptId, a.questions)) <==>
            forall q :: q in a.questions ==> FewAnchors(q)
  {
    ProjectedAreDistinct(sentinelId, attemptId, a.questions);
    ProjectedQuestionsFit(sentinelId, attemptId, a.questions);
  }

  // ---------------------------------------------------------------------------------------------
  // What a produced projection says, finding by finding
  // ---------------------------------------------------------------------------------------------

  /** The places of the judged criteria, in order. */
  function Judged(cs: seq<Criterion>): (r: seq<nat>)
    ensures forall j :: 0 <= j < |r| ==> r[j] < |cs|
  {
    if cs == [] then []
    else if cs[|cs| - 1].verdict == NotEvaluable then Judged(cs[..|cs| - 1])
    else Judged(cs[..|cs| - 1]) + [|cs| - 1]
  }

  /** The finding of a judged criterion: its identifier, its verdict, and the reason that goes with it. */
  predicate Reports(f: Finding, c: Criterion) {
    && f.criterionId == c.id && (f.met <==> c.verdict == Met)
    && f.reason == match c.verdict
                   case Met => BoundedSupport
                   case _ => NoBoundedSupport
  }

  ghost predicate ReportsQuestion(p: Projected, q: Question, sentinel: Id) {
    var places := Judged(q.criteria);
    && p.questionId == q.id
    && Distinct(p.anchors)
    && (forall x :: x in p.anchors <==> exists j :: 0 <= j < |places| && x in q.criteria[places[j]].anchors)
    && (if places == [] then p.findings == [Finding(sentinel, true, SentinelOnly)]
        else
          && |p.findings| == |places|
          && forall j :: 0 <= j < |places| ==> Reports(p.findings[j], q.criteria[places[j]]))
    && p.outcome == OutcomeOf(q.criteria)
  }

  /** They are in order, and exactly the places of the criteria that are judged. */
  lemma {:induction false} JudgedArePlaces(cs: seq<Criterion>)
    ensures forall i, j :: 0 <= i < j < |Judged(cs)| ==> Judged(cs)[i] < Judged(cs)[j]
    ensures forall k :: 0 <= k < |cs| ==> (k in Judged(cs) <==> cs[k].verdict != NotEvaluable)
  {
    if cs != [] {
      var init, k := cs[..|cs| - 1], |cs| - 1;
      JudgedArePlaces(init);
      assert k !in Judged(init);
      assert forall i :: 0 <= i < |init| ==> init[i] == cs[i];
    }
  }

  lemma EvaluableSnoc(init: seq<Criterion>, c: Criterion)
    ensures Evaluable(init + [c]) == (if c.verdict == NotEvaluable then Evaluable(init) else Evaluable(init) + [c])
    ensures Judged(init + [c]) == (if c.verdict == NotEvaluable then Judged(init) else Judged(init) + [|init|])
  {
    assert (init + [c])[..|init|] == init;
  }

  lemma {:induction false} EvaluableIsJudged(cs: seq<Criterion>)
    ensures |Evaluable(cs)| == |Judged(cs)|
    ensures forall j :: 0 <= j < |Judged(cs)| ==> Evaluable(cs)[j] == cs[Judged(cs)[j]]
  {
    if cs != [] {
      var init, c := cs[..|cs| - 1], cs[|cs| - 1];
      assert cs == init + [c];
      EvaluableSnoc(init, c);
      EvaluableIsJudged(init);
      forall j | 0 <= j < |Judged(cs)|
        ensures Evaluable(cs)[j] == cs[Judged(cs)[j]]
      {
        if j < |Judged(init)| {
          assert Evaluable(cs)[j] == Evaluable(init)[j] == init[Judged(init)[j]] == cs[Judged(init)[j]];
        }
      }
    }
  }

  lemma FindingsReport(cs: seq<Criterion>)
    ensures |FindingsOf(Evaluable(cs))| == |Judged(cs)|
    ensures forall j :: 0 <= j < |Judged(cs)| ==> Reports(FindingsOf(Evaluable(cs))[j], cs[Judged(cs)[j]])
  {
    EvaluableIsJudged(cs);
  }

  /** The outcome by the verdicts: unevaluable if one is missing, else met, not met, or partial. */
  function OutcomeOf(cs: seq<Criterion>): Outcome {
    if exists k :: 0 <= k < |cs| && cs[k].verdict == NotEvaluable then Unevaluable
    else if forall k :: 0 <= k < |cs| ==> cs[k].verdict == Met then AllMet
    else if forall k :: 0 <= k < |cs| ==> cs[k].verdict == NotMet then NoneMet
    else Partial
  }

  lemma OutcomeReports(sentinelId: (Id, Id) -> Id, attemptId: Id, q: Question)
    ensures Project(sentinelId, attemptId, q).outcome == OutcomeOf(q.criteria)
  {
    var cs := q.criteria;
    if c :| c in cs && c.verdict == NotEvaluable {
      var k :| 0 <= k < |cs| && cs[k] == c;
    } else {
      OutcomeOfJudged(cs);
      assert forall k :: 0 <= k < |cs| ==> cs[k] in cs;
    }
  }

  lemma ProjectReports(sentinelId: (Id, Id) -> Id, attemptId: Id, q: Question)
    ensures ReportsQuestion(Project(sentinelId, attemptId, q), q, sentinelId(attemptId, q.id))
  {
    var p := Project(sentinelId, attemptId, q);
    FindingsReport(q.criteria);
    AnchorsOfJudged(q.criteria);
    OutcomeReports(sentinelId, attemptId, q);
    assert forall x :: x in p.anchors <==> x in Elements(p.anchors);
  }

  lemma AnchorsOfJudged(cs: seq<Criterion>)
    ensures forall x :: x in Elements(FlatAnchors(Evaluable(cs))) <==>
                        exists j :: 0 <= j < |Judged(cs)| && x in cs[Judged(cs)[j]].anchors
  {
    EvaluableIsJudged(cs);
    forall x
      ensures x in FlatAnchors(Evaluable(cs)) <==> exists j :: 0 <= j < |Judged(cs)| && x in cs[Judged(cs)[j]].anchors
    {
      FlatAnchorsIn(Evaluable(cs), x);
      if c :| c in Evaluable(cs) && x in c.anchors {
        var j :| 0 <= j < |Evaluable(cs)| && Evaluable(cs)[j] == c;
        assert x in cs[Judged(cs)[j]].anchors;
      }
      if j :| 0 <= j < |Judged(cs)| && x in cs[Judged(cs)[j]].anchors {
        assert Evaluable(cs)[j] in Evaluable(cs);
      }
    }
  }

  lemma OutcomeOfJudged(cs: seq<Criterion>)
    requires forall c :: c in cs ==> c.verdict != NotEvaluable
    ensures AllAre(Evaluable(cs), Met) <==> forall k :: 0 <= k < |cs| ==> cs[k].verdict == Met
    ensures AllAre(Evaluable(cs), NotMet) <==> forall k :: 0 <= k < |cs| ==> cs[k].verdict == NotMet
  {
    assert forall k :: 0 <= k < |cs| ==> cs[k] in cs;
  }

  /**
    What the producer writes: bound to the evaluation and recommending review, with one question for
    each of the evaluation's, in order, that reports its judged criteria, in order, or the sentinel.
  */
  lemma ProducedReports(sentinelId: (Id, Id) -> Id, input: Input, a: Authoritative)
    ensures var c := Produced(sentinelId, input, a);
            && c.attemptId == input.attemptId && c.revisionId == input.revisionId && c.headSha == input.headSha
            && c.labels == ManualReviewProjection && c.recommendation == ReviewRequired
            && |c.questions| == |a.questions|
            && forall i :: 0 <= i < |a.questions| ==>
                 ReportsQuestion(c.questions[i], a.questions[i], sentinelId(input.attemptId, a.questions[i].id))
  {
    forall i | 0 <= i < |a.questions|
      ensures ReportsQuestion(Produced(sentinelId, input, a).questions[i], a.questions[i],
                              sentinelId(input.attemptId, a.questions[i].id))
    {
      ProjectReports(sentinelId, input.attemptId, a.questions[i]);
    }
  }

  // ---------------------------------------------------------------------------------------------
  // Producer and checker agree
  // ---------------------------------------------------------------------------------------------

  /**
    When a question's projection is honest: what cannot be judged brings no anchor of its own, and
    the sentinel's id is not a criterion's.
  */
  predicate Projectable(sentinelId: (Id, Id) -> Id, attemptId: Id, q: Question) {
    && (forall c :: c in q.criteria && c.verdict == NotEvaluable ==>
          forall anchor :: anchor in c.anchors ==> anchor in FlatAnchors(Evaluable(q.criteria)))
    && (Evaluable(q.criteria) == [] ==> sentinelId(attemptId, q.id) !in CriterionIds(q.criteria))
  }

  lemma {:induction false} FlatAnchorsIn(cs: seq<Criterion>, anchor: Text)
    ensures anchor in FlatAnchors(cs) <==> exists c :: c in cs && anchor in c.anchors
  {
    if cs != [] {
      var init, last := cs[..|cs| - 1], cs[|cs| - 1];
      FlatAnchorsIn(init, anchor);
      assert cs == init + [last];
    }
  }

  lemma AnchorsAgree(cs: seq<Criterion>)
    ensures Elements(FlatAnchors(Evaluable(cs))) == Elements(FlatAnchors(cs)) <==>
            (forall c :: c in cs && c.verdict == NotEvaluable ==>
               forall anchor :: anchor in c.anchors ==> anchor in FlatAnchors(Evaluable(cs)))
  {
    var e := Evaluable(cs);
    forall anchor | anchor in FlatAnchors(e)
      ensures anchor in FlatAnchors(cs)
    {
      FlatAnchorsIn(e, anchor);
      FlatAnchorsIn(cs, anchor);
    }
    if Elements(FlatAnchors(e)) == Elements(FlatAnchors(cs)) {
      forall c, anchor | c in cs && anchor in c.anchors
        ensures anchor in FlatAnchors(e)
      {
        FlatAnchorsIn(cs, anchor);
        assert anchor in Elements(FlatAnchors(cs));
      }
    } else {
      var anchor :| anchor in FlatAnchors(cs) && anchor !in FlatAnchors(e);
      FlatAnchorsIn(cs, anchor);
      FlatAnchorsIn(e, anchor);
      var c :| c in cs && anchor in c.anchors;
      assert c.verdict == NotEvaluable;
    }
  }

  lemma FindingOfEvaluable(cs: seq<Criterion>, c: Criterion)
    requires c in cs && c.verdict != NotEvaluable
    ensures (c.id, c.verdict) in FindingVerdicts(FindingsOf(Evaluable(cs)))
  {
    var e := Evaluable(cs);
    assert c in e;
    var i :| 0 <= i < |e| && e[i] == c;
    assert FindingsOf(e)[i] == FindingOf(c);
  }

  lemma EvaluableOfFinding(cs: seq<Criterion>, f: Finding)
    requires f in FindingsOf(Evaluable(cs))
    ensures (f.criterionId, if f.met then Met else NotMet) in EvaluableVerdicts(cs)
  {
    var e := Evaluable(cs);
    var i :| 0 <= i < |e| && FindingsOf(e)[i] == f;
    assert e[i] in e;
    assert (e[i].id, e[i].verdict) in EvaluableVerdicts(cs);
  }

  lemma ProjectedVerdicts(cs: seq<Criterion>)
    ensures FindingVerdicts(FindingsOf(Evaluable(cs))) == EvaluableVerdicts(cs)
  {
    var fs := FindingsOf(Evaluable(cs));
    forall v | v in EvaluableVerdicts(cs)
      ensures v in FindingVerdicts(fs)
    {
      var c :| c in cs && c.verdict != NotEvaluable && v == (c.id, c.verdict);
      FindingOfEvaluable(cs, c);
    }
    forall v | v in FindingVerdicts(fs)
      ensures v in EvaluableVerdicts(cs)
    {
      var f :| f in fs && v == (f.criterionId, if f.met then Met else NotMet);
      EvaluableOfFinding(cs, f);
    }
  }

  lemma ProjectedIdsDistinct(cs: seq<Criterion>)
    requires Distinct(CriterionIds(cs))
    ensures Distinct(FindingIds(FindingsOf(Evaluable(cs))))
  {
    EvaluableIdsDistinct(cs);
    assert FindingIds(FindingsOf(Evaluable(cs))) == CriterionIds(Evaluable(cs));
  }

  lemma ProjectedOutcome(q: Question)
    ensures var e := Evaluable(q.criteria);
            (forall c :: c in q.criteria ==> c.verdict != NotEvaluable) ==>
              (AllAre(e, Met) <==> AllAre(q.criteria, Met)) && (AllAre(e, NotMet) <==> AllAre(q.criteria, NotMet))
  {
  }

  lemma ProjectionRepresents(sentinelId: (Id, Id) -> Id, attemptId: Id, q: Question)
    requires Distinct(CriterionIds(q.criteria))
    ensures Distinct(FindingIds(Project(sentinelId, attemptId, q).findings))
    ensures Represents(q, Project(sentinelId, attemptId, q)) <==> Projectable(sentinelId, attemptId, q)
  {
    ProjectedVerdicts(q.criteria);
    ProjectedIdsDistinct(q.criteria);
    ProjectedOutcome(q);
    AnchorsAgree(q.criteria);
    EvaluableVerdictsEmpty(q.criteria);
  }

  predicate DistinctQuestions(ps: seq<Projected>) {
    forall i, j :: 0 <= i < j < |ps| ==> ps[i].questionId != ps[j].questionId
  }

  lemma {:induction false} FoundById(ps: seq<Projected>, i: nat)
    requires DistinctQuestions(ps) && i < |ps|
    ensures ps[i].questionId in ByQuestion(ps) && ByQuestion(ps)[ps[i].questionId] == ps[i]
  {
    if i < |ps| - 1 {
      FoundById(ps[..|ps| - 1], i);
    }
  }

  lemma {:induction false} CountById(ps: seq<Projected>)
    requires DistinctQuestions(ps)
    ensures |ByQuestion(ps).Keys| == |ps|
  {
    if ps != [] {
      var init, p := ps[..|ps| - 1], ps[|ps| - 1];
      CountById(init);
      assert p.questionId !in ByQuestion(init);
      assert ByQuestion(ps).Keys == ByQuestion(init).Keys + {p.questionId};
    }
  }

  lemma ProjectedAreDistinct(sentinelId: (Id, Id) -> Id, attemptId: Id, qs: seq<Question>)
    requires Distinct(QuestionIds(qs))
    ensures DistinctQuestions(ProjectAll(sentinelId, attemptId, qs))
  {
  }

  lemma ProducedQuestion(sentinelId: (Id, Id) -> Id, input: Input, a: Authoritative, q: Question)
    requires Covers(input, a) && q in a.questions
    ensures AcceptsIn(q, ByQuestion(ProjectAll(sentinelId, input.attemptId, a.questions))) <==>
            Projectable(sentinelId, input.attemptId, q)
  {
    var ps := ProjectAll(sentinelId, input.attemptId, a.questions);
    var i :| 0 <= i < |a.questions| && a.questions[i] == q;
    ProjectedAreDistinct(sentinelId, input.attemptId, a.questions);
    FoundById(ps, i);
    var ids := QuestionIds(a.questions);
    assert ids[i] in Elements(ids);
    assert CoversRubric(q, StoredById(input.questions)[q.id].rubric);
    ProjectionRepresents(sentinelId, input.attemptId, q);
    CheckerDecidesRepresentation(q, ps[i]);
  }

  /** The identifiers an evaluation and its projection cannot repeat. */
  predicate NothingRepeats(a: Authoritative, c: Compatibility) {
    && DistinctQuestions(c.questions)
    && (forall q :: q in a.questions ==> Distinct(CriterionIds(q.criteria)))
    && forall p :: p in c.questions ==> Distinct(FindingIds(p.findings))
  }

  lemma AcceptsOneQuestion(c: Compatibility, q: Question)
    requires DistinctQuestions(c.questions) && Distinct(CriterionIds(q.criteria))
    requires forall p :: p in c.questions ==> Distinct(FindingIds(p.findings))
    ensures AcceptsIn(q, ByQuestion(c.questions)) <==>
            exists p :: p in c.questions && p.questionId == q.id && Represents(q, p)
  {
    if AcceptsIn(q, ByQuestion(c.questions)) {
      CheckerDecidesRepresentation(q, ByQuestion(c.questions)[q.id]);
    }
    if p :| p in c.questions && p.questionId == q.id && Represents(q, p) {
      var i :| 0 <= i < |c.questions| && c.questions[i] == p;
      FoundById(c.questions, i);
      CheckerDecidesRepresentation(q, p);
    }
  }

  /**
    What the whole check decides: the projection and its row recommend review, name the attempt,
    revision and head of the evaluation and the same labels, and the questions are as many, each
    representing the evaluation's question of the same identifier.
  */
  lemma CheckerAcceptsExactly(a: Authoritative, b: Bundle, c: Compatibility)
    requires NothingRepeats(a, c)
    ensures Accepts(a, b, c) <==>
            && b.recommendation == ReviewRequired && c.recommendation == ReviewRequired
            && (c.attemptId, c.revisionId, c.headSha) == (a.attemptId, a.revisionId, a.headSha)
            && c.labels == b.labels && |c.questions| == |a.questions|
            && forall q :: q in a.questions ==>
                 exists p :: p in c.questions && p.questionId == q.id && Represents(q, p)
  {
    CountById(c.questions);
    forall q | q in a.questions
      ensures AcceptsIn(q, ByQuestion(c.questions)) <==>
              exists p :: p in c.questions && p.questionId == q.id && Represents(q, p)
    {
      AcceptsOneQuestion(c, q);
    }
  }

  lemma ProducedIds(sentinelId: (Id, Id) -> Id, input: Input, a: Authoritative)
    requires Covers(input, a)
    ensures |ByQuestion(ProjectAll(sentinelId, input.attemptId, a.questions)).Keys| == |a.questions|
  {
    ProjectedAreDistinct(sentinelId, input.attemptId, a.questions);
    CountById(ProjectAll(sentinelId, input.attemptId, a.questions));
  }

  lemma ProducedQuestions(sentinelId: (Id, Id) -> Id, input: Input, a: Authoritative)
    requires Covers(input, a)
    ensures var byQuestion := ByQuestion(ProjectAll(sentinelId, input.attemptId, a.questions));
            (forall q :: q in a.questions ==> AcceptsIn(q, byQuestion)) <==>
            (forall q :: q in a.questions ==> Projectable(sentinelId, input.attemptId, q))
  {
    forall q | q in a.questions
      ensures AcceptsIn(q, ByQuestion(ProjectAll(sentinelId, input.attemptId, a.questions))) <==>
              Projectable(sentinelId, input.attemptId, q)
    {
      ProducedQuestion(sentinelId, input, a, q);
    }
  }

  lemma AcceptsByQuestion(a: Authoritative, b: Bundle, c: Compatibility)
    requires HeadersAgree(a, b, c) && |ByQuestion(c.questions).Keys| == |a.questions|
    ensures Accepts(a, b, c) <==> forall q :: q in a.questions ==> AcceptsIn(q, ByQuestion(c.questions))
  {
  }

  /** Everything the producer builds passes the checker, exactly when each question is projectable. */
  lemma ProducedIsAccepted(sentinelId: (Id, Id) -> Id, input: Input, a: Authoritative)
    requires IsBound(input, a) && Covers(input, a)
    ensures Accepts(a, Bundle(ManualReviewProjection, ReviewRequired), Produced(sentinelId, input, a)) <==>
            forall q :: q in a.questions ==> Projectable(sentinelId, input.attemptId, q)
  {
    ProducedIds(sentinelId, input, a);
    ProducedQuestions(sentinelId, input, a);
    AcceptsByQuestion(a, Bundle(ManualReviewProjection, ReviewRequired), Produced(sentinelId, input, a));
  }

  /** An evaluation whose unjudged criteria carry no anchors, with fresh sentinel ids, is always accepted. */
  lemma AnchorlessUnjudgedIsAccepted(sentinelId: (Id, Id) -> Id, input: Input, a: Authoritative)
    requires IsBound(input, a) && Covers(input, a)
    requires forall q, c :: q in a.questions && c in q.criteria && c.verdict == NotEvaluable ==> c.anchors == []
    requires forall q :: q in a.questions ==> sentinelId(input.attemptId, q.id) !in CriterionIds(q.criteria)
    ensures Accepts(a, Bundle(ManualReviewProjection, ReviewRequired), Produced(sentinelId, input, a))
  {
    ProducedIsAccepted(sentinelId, input, a);
  }

  // ---------------------------------------------------------------------------------------------
  // The judge's answer, before it reaches the producer
  // ---------------------------------------------------------------------------------------------

  /** ProofEvaluationInputV1Schema, on what is modelled of the stored questions. */
  predicate InputFits(input: Input) {
    && 1 <= |input.questions| <= 5 && Distinct(StoredIds(input.questions))
    && forall stored :: stored in input.questions ==> StoredFits(stored)
  }

  predicate StoredFits(stored: StoredQuestion) {
    && 1 <= |stored.rubric| <= 8 && Distinct(stored.rubric)
    && 1 <= |stored.anchors| <= 5 && Distinct(stored.anchors)
  }

  predicate NoTwoEqual<T(==)>(xs: seq<T>) {
    forall i, j :: 0 <= i < |xs| && 0 <= j < |xs| && xs[i] == xs[j] ==> i == j
  }

  /** The sizes the schemas allow, in numbers, and that nothing may repeat. */
  lemma SchemasInNumbers(ps: seq<Projected>, input: Input)
    ensures FitsSchema(ps) <==>
            && |ps| in {1, 2, 3, 4, 5} && NoTwoEqual(Map((p: Projected) => p.questionId, ps))
            && forall p :: p in ps ==>
                 && |p.findings| in {1, 2, 3, 4, 5, 6, 7, 8} && NoTwoEqual(FindingIds(p.findings))
                 && |p.anchors| < 6 && NoTwoEqual(p.anchors)
    ensures InputFits(input) <==>
            && |input.questions| in {1, 2, 3, 4, 5} && NoTwoEqual(StoredIds(input.questions))
            && forall stored :: stored in input.questions ==>
                 && |stored.rubric| in {1, 2, 3, 4, 5, 6, 7, 8} && NoTwoEqual(stored.rubric)
                 && |stored.anchors| in {1, 2, 3, 4, 5} && NoTwoEqual(stored.anchors)
  {
    DistinctIsNoTwoEqual(Map((p: Projected) => p.questionId, ps));
    DistinctIsNoTwoEqual(StoredIds(input.questions));
    forall p | p in ps
      ensures Distinct(FindingIds(p.findings)) <==> NoTwoEqual(FindingIds(p.findings))
      ensures Distinct(p.anchors) <==> NoTwoEqual(p.anchors)
    {
      DistinctIsNoTwoEqual(FindingIds(p.findings));
      DistinctIsNoTwoEqual(p.anchors);
    }
    forall stored | stored in input.questions
      ensures Distinct(stored.rubric) <==> NoTwoEqual(stored.rubric)
      ensures Distinct(stored.anchors) <==> NoTwoEqual(stored.anchors)
    {
      DistinctIsNoTwoEqual(stored.rubric);
      DistinctIsNoTwoEqual(stored.anchors);
    }
  }

  lemma DistinctIsNoTwoEqual<T>(xs: seq<T>)
    ensures Distinct(xs) <==> NoTwoEqual(xs)
  {
  }

  function StoredIds(qs: seq<StoredQuestion>): seq<Id> { Map((q: StoredQuestion) => q.id, qs) }

  /** MultimodalJudgeCandidateV1Schema: sizes only. */
  predicate CandidateFits(qs: seq<Question>) {
    && 1 <= |qs| <= 5
    && forall q :: q in qs ==> 1 <= |q.criteria| <= 8 && forall c :: c in q.criteria ==> |c.anchors| <= 5
  }

  /** A judged criterion names anchors of its question, an unjudged one none. */
  predicate ResultFits(c: Criterion, anchors: seq<Text>) {
    (forall x :: x in c.anchors ==> x in anchors) && (c.anchors == [] <==> c.verdict == NotEvaluable)
  }

  predicate ResultsFit(q: Question, anchors: seq<Text>) { forall c :: c in q.criteria ==> ResultFits(c, anchors) }

  /** Every stored question and criterion is answered once, no other, and only with the question's anchors. */
  predicate Answers(input: Input, a: Authoritative) {
    var stored := StoredById(input.questions);
    && Covers(input, a)
    && forall q :: q in a.questions && q.id in stored ==> ResultsFit(q, stored[q.id].anchors)
  }

  datatype Issue =
    | ForeignQuestion | RepeatedQuestion | MissingQuestion | ForeignCriterion | RepeatedCriterion | MissingCriterion
    | ForeignAnchor | EvaluableWithoutAnchor | NotEvaluableWithAnchor

  predicate HasIssue(c: Criterion, anchors: seq<Text>, issue: Issue) {
    match issue
    case ForeignAnchor => exists x :: x in c.anchors && x !in anchors
    case EvaluableWithoutAnchor => c.verdict in {Met, NotMet} && c.anchors == []
    case NotEvaluableWithAnchor => c.verdict == NotEvaluable && |c.anchors| > 0
    case _ => false
  }

  /** What the first `n` results of a question have wrong with them. */
  predicate Found(q: Question, stored: StoredQuestion, n: nat, issue: Issue)
    requires n <= |q.criteria|
  {
    match issue
    case ForeignCriterion => exists k :: 0 <= k < n && q.criteria[k].id !in stored.rubric
    case RepeatedCriterion => exists j, k :: 0 <= j < k < n && q.criteria[j].id == q.criteria[k].id
    case _ => exists k :: 0 <= k < n && HasIssue(q.criteria[k], stored.anchors, issue)
  }

  lemma FoundOneMore(q: Question, stored: StoredQuestion, i: nat, issue: Issue)
    requires i < |q.criteria|
    ensures Found(q, stored, i + 1, issue) <==>
            || Found(q, stored, i, issue) || HasIssue(q.criteria[i], stored.anchors, issue)
            || (issue == ForeignCriterion && q.criteria[i].id !in stored.rubric)
            || (issue == RepeatedCriterion && q.criteria[i].id in Elements(CriterionIds(q.criteria)[..i]))
  {
    var ids, id := CriterionIds(q.criteria), q.criteria[i].id;
    if issue == RepeatedCriterion && id in Elements(ids[..i]) {
      var j :| 0 <= j < i && ids[..i][j] == id;
      assert q.criteria[j].id == id;
    }
    if issue == RepeatedCriterion && Found(q, stored, i + 1, issue) && !Found(q, stored, i, issue) {
      var j, k :| 0 <= j < k < i + 1 && q.criteria[j].id == q.criteria[k].id;
      assert k == i && ids[..i][j] == id;
    }
  }

  function ResultIssues(c: Criterion, anchors: seq<Text>): (r: set<Issue>)
    ensures r == {} <==> ResultFits(c, anchors)
    ensures forall issue :: issue in r <==> HasIssue(c, anchors, issue)
  {
    (if exists x :: x in c.anchors && x !in anchors then {ForeignAnchor} else {})
    + (if c.verdict != NotEvaluable && c.anchors == [] then {EvaluableWithoutAnchor} else {})
    + (if c.verdict == NotEvaluable && c.anchors != [] then {NotEvaluableWithAnchor} else {})
  }

  /** What is wrong with a question's results. */
  predicate HasFault(q: Question, stored: StoredQuestion, issue: Issue) {
    || Found(q, stored, |q.criteria|, issue)
    || (issue == MissingCriterion && exists id :: id in stored.rubric && id !in CriterionIds(q.criteria))
  }

  lemma FaultlessFits(q: Question, stored: StoredQuestion)
    requires forall issue :: !HasFault(q, stored, issue)
    ensures CoversRubric(q, stored.rubric) && ResultsFit(q, stored.anchors)
  {
    var ids := CriterionIds(q.criteria);
    assert !HasFault(q, stored, RepeatedCriterion) && !HasFault(q, stored, MissingCriterion);
    assert !HasFault(q, stored, ForeignCriterion);
    forall k | 0 <= k < |q.criteria|
      ensures ResultFits(q.criteria[k], stored.anchors) && ids[k] in stored.rubric
    {
      if issue :| issue in ResultIssues(q.criteria[k], stored.anchors) {
        assert HasIssue(q.criteria[k], stored.anchors, issue);
        assert HasFault(q, stored, issue);
      }
      assert ResultIssues(q.criteria[k], stored.anchors) == {};
    }
  }

  lemma FittingIsFaultless(q: Question, stored: StoredQuestion, issue: Issue)
    requires CoversRubric(q, stored.rubric) && ResultsFit(q, stored.anchors)
    ensures !HasFault(q, stored, issue)
  {
    var ids := CriterionIds(q.criteria);
    forall k | 0 <= k < |q.criteria|
      ensures ids[k] in stored.rubric && !HasIssue(q.criteria[k], stored.anchors, issue)
    {
      assert ids[k] in Elements(ids) && q.criteria[k] in q.criteria;
      assert ResultIssues(q.criteria[k], stored.anchors) == {};
    }
    assert forall id :: id in stored.rubric ==> id in Elements(stored.rubric);
  }

  /** These are the issues of the first `n` results. */
  ghost predicate Collected(q: Question, stored: StoredQuestion, n: nat, issues: set<Issue>)
    requires n <= |q.criteria|
  {
    forall issue :: issue in issues <==> Found(q, stored, n, issue)
  }

  /** One round of the loop: the issues of a result, when these criteria are expected and these were seen. */
  function NewIssues(c: Criterion, expected: set<Id>, seen: set<Id>, anchors: seq<Text>): (r: set<Issue>)
    ensures forall issue :: issue in r <==>
              || (issue == ForeignCriterion && c.id !in expected) || (issue == RepeatedCriterion && c.id in seen)
              || HasIssue(c, anchors, issue)
  {
    (if c.id !in expected then {ForeignCriterion} else {}) + (if c.id in seen then {RepeatedCriterion} else {})
    + ResultIssues(c, anchors)
  }

  lemma CollectOneMore(q: Question, stored: StoredQuestion, i: nat, issues: set<Issue>, seen: set<Id>)
    requires i < |q.criteria| && Collected(q, stored, i, issues) && seen == Elements(CriterionIds(q.criteria)[..i])
    ensures var found := NewIssues(q.criteria[i], Elements(stored.rubric), seen, stored.anchors);
            Collected(q, stored, i + 1, issues + found)
    ensures seen + {q.criteria[i].id} == Elements(CriterionIds(q.criteria)[..i + 1])
  {
    DistinctSnoc(CriterionIds(q.criteria), i);
    var found := NewIssues(q.criteria[i], Elements(stored.rubric), seen, stored.anchors);
    forall issue
      ensures issue in issues + found <==> Found(q, stored, i + 1, issue)
    {
      FoundOneMore(q, stored, i, issue);
    }
  }

  lemma AllCollected(q: Question, stored: StoredQuestion, issues: set<Issue>, all: set<Issue>)
    requires Collected(q, stored, |q.criteria|, issues)
    requires all == if Elements(stored.rubric) <= Elements(CriterionIds(q.criteria)) then issues
                    else issues + {MissingCriterion}
    ensures forall issue :: issue in all <==> HasFault(q, stored, issue)
    ensures all == {} <==> CoversRubric(q, stored.rubric) && ResultsFit(q, stored.anchors)
  {
    Lacking(stored.rubric, CriterionIds(q.criteria));
    if all == {} {
      FaultlessFits(q, stored);
    } else if CoversRubric(q, stored.rubric) && ResultsFit(q, stored.anchors) {
      var issue :| issue in all;
      FittingIsFaultless(q, stored, issue);
    }
  }

  /** The inner loop of the validation: one question's results, all issues collected. */
  method CheckResults(q: Question, stored: StoredQuestion) returns (issues: set<Issue>)
    ensures forall issue :: issue in issues <==> HasFault(q, stored, issue)
    ensures issues == {} <==> CoversRubric(q, stored.rubric) && ResultsFit(q, stored.anchors)
  {
    var expectedCriteria := Elements(stored.rubric);
    var seenCriteria: set<Id> := {};
    issues := {};
    ghost var ids := CriterionIds(q.criteria);
    for i := 0 to |q.criteria|
      invariant seenCriteria == Elements(ids[..i])
      invariant Collected(q, stored, i, issues)
    {
      CollectOneMore(q, stored, i, issues, seenCriteria);
      issues := issues + NewIssues(q.criteria[i], expectedCriteria, seenCriteria, stored.anchors);
      seenCriteria := seenCriteria + {q.criteria[i].id};
    }
    assert ids[..|ids|] == ids;
    ghost var collected := issues;
    if !(expectedCriteria <= seenCriteria) {
      issues := issues + {MissingCriterion};
    }
    AllCollected(q, stored, collected, issues);
  }

  lemma Lacking<T>(wanted: seq<T>, given: seq<T>)
    ensures (exists x :: x in wanted && x !in given) <==> !(Elements(wanted) <= Elements(given))
  {
    if x :| x in wanted && x !in given {
      assert x in Elements(wanted) && x !in Elements(given);
    } else {
      assert forall x :: x in Elements(wanted) ==> x in wanted && x in given;
    }
  }

  lemma DistinctSnoc<T>(xs: seq<T>, i: nat)
    requires i < |xs|
    ensures Elements(xs[..i + 1]) == Elements(xs[..i]) + {xs[i]}
    ensures Distinct(xs[..i + 1]) <==> Distinct(xs[..i]) && xs[i] !in Elements(xs[..i])
  {
    var before, after := xs[..i], xs[..i + 1];
    assert after == before + [xs[i]];
    if xs[i] in before {
      var k :| 0 <= k < i && before[k] == xs[i];
      assert after[k] == after[i];
    }
  }

  /** The first `n` questions are answered as they should. */
  predicate AnswersFirst(input: Input, a: Authoritative, n: nat)
    requires n <= |a.questions|
  {
    var stored := StoredById(input.questions);
    && CoversFirst(input, a, n)
    && forall k :: 0 <= k < n && a.questions[k].id in stored ==>
         ResultsFit(a.questions[k], stored[a.questions[k].id].anchors)
  }

  /**
    validateMultimodalJudgeCandidateV1, on what is modelled of a candidate: reason codes are left out,
    and the recommendation, whose incoherence is corrected and not refused.
  */
  method ValidateCandidate(input: Input, a: Authoritative) returns (valid: bool)
    ensures valid <==> InputFits(input) && CandidateFits(a.questions) && Answers(input, a)
  {
    if !InputFits(input) || !CandidateFits(a.questions) {
      return false;
    }
    var questions := StoredById(input.questions);
    var seenQuestions: set<Id> := {};
    var issues: set<Issue> := {};
    for i := 0 to |a.questions|
      invariant issues == {} <==> AnswersFirst(input, a, i)
      invariant issues == {} ==> seenQuestions == Elements(QuestionIds(a.questions)[..i])
    {
      var q := a.questions[i];
      if issues == {} {
        CoversOneMore(input, a, i);
      }
      if q.id !in questions {
        issues := issues + {ForeignQuestion};
        continue;
      }
      var resultIssues := CheckResults(q, questions[q.id]);
      issues := issues + (if q.id in seenQuestions then {RepeatedQuestion} else {}) + resultIssues;
      seenQuestions := seenQuestions + {q.id};
    }
    if !(questions.Keys <= seenQuestions) {
      issues := issues + {MissingQuestion};
    }
    AnswersExactly(input, a);
    valid := issues == {};
  }

  lemma AnswersExactly(input: Input, a: Authoritative)
    ensures Answers(input, a) ==> AnswersFirst(input, a, |a.questions|)
    ensures var ids, keys := Elements(QuestionIds(a.questions)), StoredById(input.questions).Keys;
            && QuestionIds(a.questions)[..|a.questions|] == QuestionIds(a.questions)
            && (Answers(input, a) <==> AnswersFirst(input, a, |a.questions|) && keys <= ids)
  {
    assert QuestionIds(a.questions)[..|a.questions|] == QuestionIds(a.questions);
    CoversExactly(input, a, |a.questions|);
    if AnswersFirst(input, a, |a.questions|) {
      forall id | id in Elements(QuestionIds(a.questions))
        ensures id in StoredById(input.questions)
      {
        var k :| 0 <= k < |a.questions| && QuestionIds(a.questions)[k] == id;
        assert CoversQuestion(StoredById(input.questions), a.questions[k]);
      }
    }
  }

  /** manualReviewFallbackCandidateV1: nothing is judged. */
  function Fallback(input: Input): seq<Question> {
    Map((stored: StoredQuestion) => Question(stored.id, Unjudged(stored.rubric)), input.questions)
  }

  function Unjudged(rubric: seq<Id>): (cs: seq<Criterion>)
    ensures |cs| == |rubric| && CriterionIds(cs) == rubric
    ensures forall c :: c in cs ==> c.verdict == NotEvaluable && c.anchors == []
  {
    seq(|rubric|, i requires 0 <= i < |rubric| => Criterion(rubric[i], NotEvaluable, []))
  }

  lemma {:induction false} StoredKeys(qs: seq<StoredQuestion>)
    ensures StoredById(qs).Keys == Elements(StoredIds(qs))
    ensures forall id :: id in StoredById(qs) ==> StoredById(qs)[id] in qs && StoredById(qs)[id].id == id
  {
    if qs != [] {
      var init, last := qs[..|qs| - 1], qs[|qs| - 1];
      StoredKeys(init);
      assert qs == init + [last] && StoredIds(qs) == StoredIds(init) + [last.id];
    }
  }

  lemma StoredFound(qs: seq<StoredQuestion>, q: StoredQuestion)
    requires Distinct(StoredIds(qs)) && q in qs
    ensures q.id in StoredById(qs) && StoredById(qs)[q.id] == q
  {
    StoredKeys(qs);
    var i :| 0 <= i < |qs| && qs[i] == q;
    assert StoredIds(qs)[i] in Elements(StoredIds(qs));
    var k :| 0 <= k < |qs| && qs[k] == StoredById(qs)[q.id];
    assert StoredIds(qs)[k] == StoredIds(qs)[i];
  }

  lemma FallbackAnswers(input: Input, a: Authoritative)
    requires InputFits(input) && a.questions == Fallback(input)
    ensures CandidateFits(a.questions) && Answers(input, a)
  {
    StoredKeys(input.questions);
    assert QuestionIds(a.questions) == StoredIds(input.questions);
    forall q | q in a.questions
      ensures 1 <= |q.criteria| <= 8 && forall c :: c in q.criteria ==> |c.anchors| <= 5
      ensures q.id in StoredById(input.questions)
      ensures var stored := StoredById(input.questions)[q.id];
              CoversRubric(q, stored.rubric) && ResultsFit(q, stored.anchors)
    {
      var k :| 0 <= k < |a.questions| && a.questions[k] == q;
      var stored := input.questions[k];
      StoredFound(input.questions, stored);
      assert q == Question(stored.id, Unjudged(stored.rubric));
    }
  }

  lemma AnswerNamesFewAnchors(q: Question, stored: StoredQuestion)
    requires StoredFits(stored) && ResultsFit(q, stored.anchors)
    ensures FewAnchors(q)
  {
    var named, own := Elements(FlatAnchors(q.criteria)), Elements(stored.anchors);
    forall x | x in named
      ensures x in own
    {
      FlatAnchorsIn(q.criteria, x);
    }
    DistinctCount(stored.anchors);
    assert own == named + (own - named);
  }

  /** A validated answer meets the authoritative schema, and its projection the projected one. */
  lemma AnswerFits(input: Input, a: Authoritative)
    requires InputFits(input) && CandidateFits(a.questions) && Answers(input, a)
    ensures AuthoritativeFits(a) && forall q :: q in a.questions ==> FewAnchors(q)
  {
    StoredKeys(input.questions);
    var stored := StoredById(input.questions);
    forall q | q in a.questions
      ensures QuestionFits(q) && FewAnchors(q)
    {
      var k :| 0 <= k < |a.questions| && a.questions[k] == q;
      assert QuestionIds(a.questions)[k] in Elements(QuestionIds(a.questions));
      assert CoversRubric(q, stored[q.id].rubric) && ResultsFit(q, stored[q.id].anchors);
      AnswerNamesFewAnchors(q, stored[q.id]);
    }
  }

  /** A sentinel's derived identifier is no criterion of its question. */
  predicate SentinelsFree(sentinelId: (Id, Id) -> Id, input: Input) {
    forall stored :: stored in input.questions ==> sentinelId(input.attemptId, stored.id) !in stored.rubric
  }

  /**
    Every answer the judge's validation lets through, and the fallback, is projected and accepted:
    nothing on the way from the judge to the stored pair is refused.
  */
  lemma AnswerIsAccepted(sentinelId: (Id, Id) -> Id, input: Input, a: Authoritative)
    requires InputFits(input) && CandidateFits(a.questions) && Answers(input, a) && IsBound(input, a)
    ensures Covers(input, a) && FitsSchema(ProjectAll(sentinelId, input.attemptId, a.questions))
    ensures SentinelsFree(sentinelId, input) ==>
              Accepts(a, Bundle(ManualReviewProjection, ReviewRequired), Produced(sentinelId, input, a))
  {
    AnswerFits(input, a);
    ProjectionFitsExactly(sentinelId, input.attemptId, a);
    if SentinelsFree(sentinelId, input) {
      forall q | q in a.questions
        ensures sentinelId(input.attemptId, q.id) !in CriterionIds(q.criteria)
      {
        SentinelIsFree(sentinelId, input, a, q);
      }
      AnchorlessUnjudgedIsAccepted(sentinelId, input, a);
    }
  }

  lemma SentinelIsFree(sentinelId: (Id, Id) -> Id, input: Input, a: Authoritative, q: Question)
    requires InputFits(input) && Covers(input, a) && SentinelsFree(sentinelId, input) && q in a.questions
    ensures sentinelId(input.attemptId, q.id) !in CriterionIds(q.criteria)
  {
    StoredKeys(input.questions);
    var k :| 0 <= k < |a.questions| && a.questions[k] == q;
    assert QuestionIds(a.questions)[k] in Elements(QuestionIds(a.questions));
    var stored := StoredById(input.questions)[q.id];
    assert CoversRubric(q, stored.rubric);
    assert forall id :: id in CriterionIds(q.criteria) ==> id in Elements(CriterionIds(q.criteria));
  }

  /**
    runMultimodalJudgeEvaluation, then the producer: `answer` is what the provider returned, if it
    did. Whatever it is, the evaluation is bound, answers the stored questions, and is projected.
  */
  method JudgeAndProject(sentinelId: (Id, Id) -> Id, input: Input, answer: Result<seq<Question>>)
    returns (a: Authoritative, r: Result<(Compatibility, Bundle)>)
    ensures r.Ok? <==> InputFits(input)
    ensures r.Ok? ==> IsBound(input, a) && Answers(input, a)
    ensures r.Ok? && SentinelsFree(sentinelId, input) ==> Accepts(a, r.value.1, r.value.0)
    ensures answer.Ok? && CandidateFits(answer.value) && Answers(input, a.(questions := answer.value)) && r.Ok? ==>
              a.questions == answer.value
  {
    a := Authoritative(input.attemptId, input.revisionId, input.headSha, true, true, Fallback(input));
    if !InputFits(input) {
      return a, Err(InvalidInput);
    }
    FallbackAnswers(input, a);
    if answer.Ok? {
      var judged := a.(questions := answer.value);
      var valid := ValidateCandidate(input, judged);
      if valid {
        a := judged;
      }
    }
    AnswerIsAccepted(sentinelId, input, a);
    r := Produce(sentinelId, input, a);
  }

  /** The anchors "a0" to "a9". */
  function Anchor(i: nat): Text
    requires i < 10
  {
    [0x61, 0x30 + i as Unit]
  }

  function Anchors(from: nat, to: nat): (r: seq<Text>)
    requires from <= to <= 10
    ensures |r| == to - from && forall i :: 0 <= i < |r| ==> r[i] == Anchor(from + i)
  {
    seq(to - from, i requires 0 <= i < to - from => Anchor(from + i))
  }

  lemma AnchorsAreDistinct(from: nat, to: nat)
    requires from <= to <= 10
    ensures Distinct(Anchors(from, to))
  {
    var r := Anchors(from, to);
    assert forall i :: 0 <= i < |r| ==> r[i][1] == 0x30 + (from + i) as Unit;
  }

  function Crowded(): Question { Question(0, [Criterion(0, Met, Anchors(0, 3))] + [Criterion(1, Met, Anchors(3, 6))]) }

  lemma FlatAnchorsOfTwo(c: Criterion, d: Criterion)
    ensures FlatAnchors([c] + [d]) == c.anchors + d.anchors
  {
    CriteriaSnoc([c], d);
    assert FlatAnchors([c]) == FlatAnchors([]) + c.anchors;
  }

  lemma CrowdedAnchors()
    ensures FlatAnchors(Crowded().criteria) == Anchors(0, 6)
  {
    FlatAnchorsOfTwo(Criterion(0, Met, Anchors(0, 3)), Criterion(1, Met, Anchors(3, 6)));
    assert Anchors(0, 3) + Anchors(3, 6) == Anchors(0, 6);
  }

  lemma CrowdedFits()
    ensures QuestionFits(Crowded())
  {
  }

  /**
    One question with two supported criteria of three anchors each meets the authoritative schema and
    could not be projected; the judge's validation refuses it, whatever was asked.
  */
  lemma SixAnchorsCannotBeProjected(sentinelId: (Id, Id) -> Id, attemptId: Id)
    ensures var a := Authoritative(0, 0, 0, true, true, [Crowded()]);
            && AuthoritativeFits(a) && !FitsSchema(ProjectAll(sentinelId, attemptId, a.questions))
            && forall input :: InputFits(input) ==> !Answers(input, a)
  {
    var a := Authoritative(0, 0, 0, true, true, [Crowded()]);
    CrowdedFits();
    CrowdedAnchors();
    AnchorsAreDistinct(0, 6);
    DistinctCount(Anchors(0, 6));
    ProjectionFitsExactly(sentinelId, attemptId, a);
    assert Crowded() in a.questions && !FewAnchors(Crowded());
    forall input | InputFits(input)
      ensures !Answers(input, a)
    {
      if Answers(input, a) {
        AnswerFits(input, a);
      }
    }
  }
}
