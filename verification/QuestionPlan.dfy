/** The versioned question plan: generation, recruiter edits, sign-off, and the freeze.

  Each operation is one transaction.  A ConflictError and a violated table constraint both
  roll it back, so an operation either succeeds or leaves the plan as it was.
*/
module QuestionPlan {
  import opened Text
  import Rubric

  datatype Status = DRAFT | APPROVED | FROZEN
  datatype Generation = PENDING | GENERATING | READY | FAILED

  datatype Question = Question(body: string, competency: Option<string>)
  datatype Criterion = Criterion(name: string, weight: int)   // weight in quanta

  datatype Plan = Plan(
    status: Status,
    generation: Generation,
    version: int,
    approvedAt: Option<int>,
    error: Option<string>,
    questions: seq<Question>,
    criteria: seq<Criterion>)

  datatype Conflict =
    | PlanFrozen | VersionConflict | UnknownCriterion | WeightsNotOne | DuplicateNames
    | NotGenerated | EmptyPlan | ConstraintViolated

  datatype Result<T> = Ok(value: T) | Err(conflict: Conflict)

  const INIT: Plan := Plan(DRAFT, PENDING, 1, None, None, [], [])

  predicate Editable(p: Plan) {
    p.status != FROZEN
  }

  function Names(criteria: seq<Criterion>): set<string> {
    set c | c in criteria :: c.name
  }

  function WeightsOf(criteria: seq<Criterion>): seq<int> {
    seq(|criteria|, i requires 0 <= i < |criteria| => criteria[i].weight)
  }

  ghost predicate Distinct<T>(xs: seq<T>) {
    forall i, j :: 0 <= i < j < |xs| ==> xs[i] != xs[j]
  }

  /** `len(set(names)) == len(names)`. */
  predicate NoRepeats(names: seq<string>)
    ensures NoRepeats(names) <==> Distinct(names)
  {
    names == [] || (names[0] !in names[1..] && NoRepeats(names[1..]))
  }

  function NamesOf(criteria: seq<Criterion>): seq<string> {
    seq(|criteria|, i requires 0 <= i < |criteria| => criteria[i].name)
  }

  /** Python's truth of an optional string. */
  predicate Truthy(s: Option<string>) {
    s.Some? && s.value != ""
  }

  /** The table constraints on the child rows. */
  predicate QuestionsStorable(questions: seq<Question>) {
    forall q :: q in questions ==> q.body != ""
  }

  predicate CriteriaStorable(criteria: seq<Criterion>) {
    (forall c :: c in criteria ==> 0 < c.weight <= Rubric.QUANTA) && NoRepeats(NamesOf(criteria))
  }

  // ---------------------------------------------------------------------------
  // What the model returns, once validated
  // ---------------------------------------------------------------------------

  datatype RawCriterion = RawCriterion(name: string, weight: real)
  datatype Generated = Generated(questions: seq<Question>, criteria: seq<Criterion>)

  function StrippedNames(raw: seq<RawCriterion>): seq<string> {
    seq(|raw|, i requires 0 <= i < |raw| => Strip(raw[i].name))
  }

  function RawWeights(raw: seq<RawCriterion>): seq<real> {
    seq(|raw|, i requires 0 <= i < |raw| => raw[i].weight)
  }

  /** A tag that names no criterion is dropped; the question stays. */
  function Untagged(q: Question, names: seq<string>): Question {
    if Truthy(q.competency) && Strip(q.competency.value) !in names then q.(competency := None) else q
  }

  /** `_check_rubric`: names, weights, tags, in that order. */
  function CheckRubric(questions: seq<Question>, raw: seq<RawCriterion>): Option<Generated> {
    var names, ws := StrippedNames(raw), RawWeights(raw);
    if !NoRepeats(names) || !Rubric.Acceptable(ws) then None
    else
      Rubric.NormalisedSumsToOne(ws);
      var qs := Rubric.Normalised(ws);
      Some(Generated(
        seq(|questions|, i requires 0 <= i < |questions| => Untagged(questions[i], names)),
        seq(|raw|, i requires 0 <= i < |raw| => Criterion(raw[i].name, qs[i]))))
  }

  function Row(q: Question): Question {
    Question(Strip(q.body), if Truthy(q.competency) then Some(Strip(q.competency.value)) else None)
  }

  function Rows(questions: seq<Question>): seq<Question> {
    seq(|questions|, i requires 0 <= i < |questions| => Row(questions[i]))
  }

  function CriterionRows(criteria: seq<Criterion>): seq<Criterion> {
    seq(|criteria|, i requires 0 <= i < |criteria| => Criterion(Strip(criteria[i].name), criteria[i].weight))
  }

  function ApplyGenerated(p: Plan, g: Generated): Result<Plan> {
    if !Editable(p) then Err(PlanFrozen)
    else if !QuestionsStorable(Rows(g.questions)) || !CriteriaStorable(CriterionRows(g.criteria)) then Err(ConstraintViolated)
    else Ok(p.(status := DRAFT, generation := READY, version := p.version + 1, error := None,
               questions := Rows(g.questions), criteria := CriterionRows(g.criteria)))
  }

  /** Not guarded by the freeze: it moves only the generation's own columns. */
  function MarkFailed(p: Plan, error: string): Plan {
    p.(generation := FAILED, error := Some(if |error| > 2000 then error[..2000] else error))
  }

  function Guard(p: Plan, expected: Option<int>): Option<Conflict> {
    if !Editable(p) then Some(PlanFrozen)
    else if expected.Some? && expected.value != p.version then Some(VersionConflict)
    else None
  }

  /** A recruiter's question: the tag is stripped, and an empty one is no tag. */
  function EditRow(q: Question): Question {
    var tag := if q.competency.Some? then Strip(q.competency.value) else "";
    Question(Strip(q.body), if tag == "" then None else Some(tag))
  }

  function EditRows(questions: seq<Question>): seq<Question> {
    seq(|questions|, i requires 0 <= i < |questions| => EditRow(questions[i]))
  }

  predicate TagsKnown(questions: seq<Question>, names: set<string>) {
    forall q :: q in questions && q.competency.Some? ==> q.competency.value in names
  }

  function ReplaceQuestions(p: Plan, questions: seq<Question>, expected: Option<int>): Result<Plan> {
    var blocked := Guard(p, expected);
    if blocked.Some? then Err(blocked.value)
    else if !TagsKnown(EditRows(questions), Names(p.criteria)) then Err(UnknownCriterion)
    else if !QuestionsStorable(EditRows(questions)) then Err(ConstraintViolated)
    else Ok(p.(questions := EditRows(questions), version := p.version + 1))
  }

  function QuantisedRows(raw: seq<RawCriterion>): seq<Criterion> {
    seq(|raw|, i requires 0 <= i < |raw| => Criterion(Strip(raw[i].name), Rubric.RoundHalfEven(raw[i].weight * 10_000.0)))
  }

  /** A tag whose criterion is gone is cleared. */
  function Retagged(q: Question, names: set<string>): Question {
    if Truthy(q.competency) && q.competency.value !in names then q.(competency := None) else q
  }

  function RetaggedAll(questions: seq<Question>, names: set<string>): seq<Question> {
    seq(|questions|, i requires 0 <= i < |questions| => Retagged(questions[i], names))
  }

  function ReplaceCriteria(p: Plan, raw: seq<RawCriterion>, expected: Option<int>): Result<Plan> {
    var blocked := Guard(p, expected);
    var rows := QuantisedRows(raw);
    if blocked.Some? then Err(blocked.value)
    else if Rubric.Sum(WeightsOf(rows)) != Rubric.QUANTA then Err(WeightsNotOne)
    else if !NoRepeats(NamesOf(rows)) then Err(DuplicateNames)
    else if !CriteriaStorable(rows) then Err(ConstraintViolated)
    else Ok(p.(questions := RetaggedAll(p.questions, Names(rows)), criteria := rows, version := p.version + 1))
  }

  function Approve(p: Plan, expected: Option<int>, now: int): Result<Plan> {
    var blocked := Guard(p, expected);
    if blocked.Some? then Err(blocked.value)
    else if p.generation != READY then Err(NotGenerated)
    else if p.questions == [] || p.criteria == [] then Err(EmptyPlan)
    else Ok(p.(status := APPROVED, approvedAt := Some(now), version := p.version + 1))
  }

  function Freeze(p: Plan): Result<Plan> {
    if p.status == FROZEN then Ok(p)
    else if p.questions == [] || p.criteria == [] then Err(EmptyPlan)
    else Ok(p.(status := FROZEN, version := p.version + 1))
  }

  // ---------------------------------------------------------------------------
  // The code
  // ---------------------------------------------------------------------------

  class PlanRow {
    var status: Status
    var generation: Generation
    var version: int
    var approvedAt: Option<int>
    var error: Option<string>
    var questions: seq<Question>
    var criteria: seq<Criterion>

    ghost function View(): Plan
      reads this
    {
      Plan(status, generation, version, approvedAt, error, questions, criteria)
    }

    /** What an operation leaves behind: its result, or the plan it found. */
    ghost predicate Left(before: Plan, outcome: Option<Conflict>, r: Result<Plan>)
      reads this
    {
      match r
      case Ok(after) => outcome == None && View() == after
      case Err(conflict) => outcome == Some(conflict) && View() == before
    }

    constructor ()
      ensures View() == INIT
    {
      status, generation, version := DRAFT, PENDING, 1;
      approvedAt, error, questions, criteria := None, None, [], [];
    }

    method ApplyGeneration(g: Generated) returns (outcome: Option<Conflict>)
      modifies this
      ensures Left(old(View()), outcome, ApplyGenerated(old(View()), g))
    {
      if status == FROZEN {
        return Some(PlanFrozen);
      }
      var newCriteria, newQuestions: seq<Question> := [], [];
      for i := 0 to |g.criteria|
        invariant newCriteria == CriterionRows(g.criteria[..i])
      {
        newCriteria := newCriteria + [Criterion(Strip(g.criteria[i].name), g.criteria[i].weight)];
      }
      for i := 0 to |g.questions|
        invariant newQuestions == Rows(g.questions[..i])
      {
        newQuestions := newQuestions + [Row(g.questions[i])];
      }
      assert g.criteria[..|g.criteria|] == g.criteria && g.questions[..|g.questions|] == g.questions;
      if !QuestionsStorable(newQuestions) || !CriteriaStorable(newCriteria) {
        return Some(ConstraintViolated);
      }
      questions, criteria := newQuestions, newCriteria;
      generation, status, error, version := READY, DRAFT, None, version + 1;
      return None;
    }

    static method CheckedRows(edited: seq<Question>, valid: set<string>) returns (rows: seq<Question>, known: bool)
      ensures known <==> TagsKnown(EditRows(edited), valid)
      ensures known ==> rows == EditRows(edited)
    {
      rows := [];
      ghost var all := EditRows(edited);
      for i := 0 to |edited|
        invariant rows == all[..i]
        invariant TagsKnown(rows, valid)
      {
        var row := EditRow(edited[i]);
        assert row == all[i] && all[..i + 1] == all[..i] + [row];
        if row.competency.Some? && row.competency.value !in valid {
          return rows, false;
        }
        rows := rows + [row];
      }
      assert all[..|edited|] == all;
      return rows, true;
    }

    method EditQuestions(edited: seq<Question>, expected: Option<int>) returns (outcome: Option<Conflict>)
      modifies this
      ensures Left(old(View()), outcome, ReplaceQuestions(old(View()), edited, expected))
    {
      if status == FROZEN {
        return Some(PlanFrozen);
      }
      if expected.Some? && expected.value != version {
        return Some(VersionConflict);
      }
      var rows, known := CheckedRows(edited, Names(criteria));
      if !known {
        return Some(UnknownCriterion);
      }
      if !QuestionsStorable(rows) {
        return Some(ConstraintViolated);
      }
      questions, version := rows, version + 1;
      return None;
    }

    /** Questions point at criteria by name; a tag that would dangle is cleared. */
    method ClearOrphans(surviving: set<string>)
      modifies this`questions
      ensures questions == RetaggedAll(old(questions), surviving)
    {
      for i := 0 to |questions|
        invariant |questions| == |old(questions)|
        invariant forall k :: 0 <= k < i ==> questions[k] == Retagged(old(questions)[k], surviving)
        invariant forall k :: i <= k < |questions| ==> questions[k] == old(questions)[k]
      {
        if Truthy(questions[i].competency) && questions[i].competency.value !in surviving {
          questions := questions[i := questions[i].(competency := None)];
        }
      }
    }

    method EditCriteria(raw: seq<RawCriterion>, expected: Option<int>) returns (outcome: Option<Conflict>)
      modifies this
      ensures Left(old(View()), outcome, ReplaceCriteria(old(View()), raw, expected))
    {
      if status == FROZEN {
        return Some(PlanFrozen);
      }
      if expected.Some? && expected.value != version {
        return Some(VersionConflict);
      }
      var rows := QuantisedRows(raw);
      if Rubric.Sum(WeightsOf(rows)) != Rubric.QUANTA {
        return Some(WeightsNotOne);
      }
      if !NoRepeats(NamesOf(rows)) {
        return Some(DuplicateNames);
      }
      if !CriteriaStorable(rows) {
        return Some(ConstraintViolated);
      }
      ClearOrphans(Names(rows));
      criteria, version := rows, version + 1;
      return None;
    }

    method SignOff(expected: Option<int>, now: int) returns (outcome: Option<Conflict>)
      modifies this
      ensures Left(old(View()), outcome, Approve(old(View()), expected, now))
    {
      if status == FROZEN {
        return Some(PlanFrozen);
      }
      if expected.Some? && expected.value != version {
        return Some(VersionConflict);
      }
      if generation != READY {
        return Some(NotGenerated);
      }
      if questions == [] || criteria == [] {
        return Some(EmptyPlan);
      }
      status, approvedAt, version := APPROVED, Some(now), version + 1;
      return None;
    }

    method FreezePlan() returns (outcome: Option<Conflict>)
      modifies this
      ensures Left(old(View()), outcome, Freeze(old(View())))
    {
      if status == FROZEN {
        return None;
      }
      if questions == [] || criteria == [] {
        return Some(EmptyPlan);
      }
      status, version := FROZEN, version + 1;
      return None;
    }
  }

  // ---------------------------------------------------------------------------
  // What every reachable plan satisfies
  // ---------------------------------------------------------------------------

  ghost predicate TagsMatch(questions: seq<Question>, names: set<string>) {
    forall q :: q in questions && Truthy(q.competency) ==> q.competency.value in names
  }

  /** A rubric, once there is one, weighs exactly one in four places, with distinct names;
      and every question's tag is blank or names a current criterion. */
  ghost predicate Consistent(p: Plan) {
    && (p.criteria != [] ==> Rubric.Sum(WeightsOf(p.criteria)) == Rubric.QUANTA)
    && CriteriaStorable(p.criteria)
    && QuestionsStorable(p.questions)
    && TagsMatch(p.questions, Names(p.criteria))
  }

  /** What validation promises about a generation. */
  ghost predicate WellGenerated(g: Generated) {
    && Rubric.Sum(WeightsOf(g.criteria)) == Rubric.QUANTA
    && (forall q :: q in g.questions && Truthy(q.competency) ==>
          Strip(q.competency.value) in Names(CriterionRows(g.criteria)))
  }

  lemma NamesAreNames(criteria: seq<Criterion>, name: string)
    ensures name in Names(criteria) <==> name in NamesOf(criteria)
  {
    if name in Names(criteria) {
      var i :| 0 <= i < |criteria| && criteria[i].name == name;
      assert NamesOf(criteria)[i] == name;
    }
    if name in NamesOf(criteria) {
      var i :| 0 <= i < |criteria| && NamesOf(criteria)[i] == name;
      assert criteria[i] in criteria;
    }
  }

  /** What comes out of a generation: validated, and then without the questions the resume does not ground. */
  function Grounded(questions: seq<Question>, raw: seq<RawCriterion>, keeps: nat -> bool): Option<Generated> {
    var checked := CheckRubric(questions, raw);
    if checked.None? then None else Some(checked.value.(questions := Kept(checked.value.questions, keeps)))
  }

  function Kept(questions: seq<Question>, keeps: nat -> bool): (kept: seq<Question>)
    ensures forall q :: q in kept ==> q in questions
  {
    if questions == [] then []
    else
      var n := |questions| - 1;
      var front := Kept(questions[..n], keeps);
      if keeps(n) then front + [questions[n]] else front
  }

  /** The validator lets nothing through that `ApplyGenerated` could not store consistently. */
  lemma CheckedIsWellGenerated(questions: seq<Question>, raw: seq<RawCriterion>, keeps: nat -> bool)
    requires Grounded(questions, raw, keeps).Some?
    ensures WellGenerated(Grounded(questions, raw, keeps).value)
    ensures Distinct(NamesOf(CriterionRows(Grounded(questions, raw, keeps).value.criteria)))
  {
    var g := CheckRubric(questions, raw).value;
    Rubric.NormalisedSumsToOne(RawWeights(raw));
    assert WeightsOf(g.criteria) == Rubric.Normalised(RawWeights(raw));
    assert NamesOf(CriterionRows(g.criteria)) == StrippedNames(raw);
    forall q | q in g.questions && Truthy(q.competency)
      ensures Strip(q.competency.value) in Names(CriterionRows(g.criteria))
    {
      NamesAreNames(CriterionRows(g.criteria), Strip(q.competency.value));
    }
  }

  lemma RowsMatch(g: Generated)
    requires WellGenerated(g)
    ensures TagsMatch(Rows(g.questions), Names(CriterionRows(g.criteria)))
  {
    forall q | q in Rows(g.questions) && Truthy(q.competency)
      ensures q.competency.value in Names(CriterionRows(g.criteria))
    {
      var i :| 0 <= i < |g.questions| && Rows(g.questions)[i] == q;
      assert g.questions[i] in g.questions;
    }
  }

  lemma ApplyKeepsConsistent(p: Plan, g: Generated)
    requires Consistent(p) && WellGenerated(g)
    ensures ApplyGenerated(p, g).Ok? ==> Consistent(ApplyGenerated(p, g).value)
  {
    RowsMatch(g);
    assert WeightsOf(CriterionRows(g.criteria)) == WeightsOf(g.criteria);
  }

  lemma QuestionEditKeepsConsistent(p: Plan, questions: seq<Question>, expected: Option<int>)
    requires Consistent(p)
    ensures ReplaceQuestions(p, questions, expected).Ok? ==> Consistent(ReplaceQuestions(p, questions, expected).value)
  {
  }

  lemma RetaggedMatch(questions: seq<Question>, names: set<string>)
    requires QuestionsStorable(questions)
    ensures TagsMatch(RetaggedAll(questions, names), names) && QuestionsStorable(RetaggedAll(questions, names))
  {
    forall q | q in RetaggedAll(questions, names)
      ensures q.body != "" && (Truthy(q.competency) ==> q.competency.value in names)
    {
      var i :| 0 <= i < |questions| && RetaggedAll(questions, names)[i] == q;
      assert questions[i] in questions;
    }
  }

  lemma CriteriaEditKeepsConsistent(p: Plan, raw: seq<RawCriterion>, expected: Option<int>)
    requires Consistent(p)
    ensures ReplaceCriteria(p, raw, expected).Ok? ==> Consistent(ReplaceCriteria(p, raw, expected).value)
  {
    RetaggedMatch(p.questions, Names(QuantisedRows(raw)));
  }

  // ---------------------------------------------------------------------------
  // Runs
  // ---------------------------------------------------------------------------

  datatype Event =
    | Starts                                  // a generation is about to run
    | Applies(g: Generated)
    | Fails(error: string)
    | EditsQuestions(questions: seq<Question>, expected: Option<int>)
    | EditsCriteria(raw: seq<RawCriterion>, expected: Option<int>)
    | Approves(expected: Option<int>, now: int)
    | Freezes

  function Attempt(p: Plan, ev: Event): Result<Plan> {
    match ev
    case Starts => if Editable(p) then Ok(p.(generation := GENERATING, error := None)) else Err(PlanFrozen)
    case Applies(g) => ApplyGenerated(p, g)
    case Fails(error) => Ok(MarkFailed(p, error))
    case EditsQuestions(questions, expected) => ReplaceQuestions(p, questions, expected)
    case EditsCriteria(raw, expected) => ReplaceCriteria(p, raw, expected)
    case Approves(expected, now) => Approve(p, expected, now)
    case Freezes => Freeze(p)
  }

  function Next(p: Plan, ev: Event): Plan {
    var r := Attempt(p, ev);
    if r.Ok? then r.value else p
  }

  ghost predicate IsRun(states: seq<Plan>, evs: seq<Event>) {
    && |states| == |evs| + 1
    && states[0] == INIT
    && forall i :: 0 <= i < |evs| ==>
         (evs[i].Applies? ==> WellGenerated(evs[i].g)) && states[i + 1] == Next(states[i], evs[i])
  }

  lemma {:induction false} PlanAlwaysConsistent(states: seq<Plan>, evs: seq<Event>, n: nat)
    requires IsRun(states, evs) && n < |states|
    ensures Consistent(states[n])
  {
    if n > 0 {
      var p := states[n - 1];
      PlanAlwaysConsistent(states, evs, n - 1);
      match evs[n - 1]
      case Applies(g) => ApplyKeepsConsistent(p, g);
      case EditsQuestions(questions, expected) => QuestionEditKeepsConsistent(p, questions, expected);
      case EditsCriteria(raw, expected) => CriteriaEditKeepsConsistent(p, raw, expected);
      case _ =>
    }
  }

  /** The version a client must have read for this edit, if it sent one. */
  function Expects(ev: Event): Option<int> {
    match ev
    case EditsQuestions(_, expected) => expected
    case EditsCriteria(_, expected) => expected
    case Approves(expected, _) => expected
    case _ => None
  }

  lemma VersionSteps(p: Plan, ev: Event)
    ensures p.version <= Next(p, ev).version <= p.version + 1
    ensures Expects(ev).Some? && Attempt(p, ev).Ok? ==>
            p.version == Expects(ev).value && Next(p, ev).version == p.version + 1
    ensures (Next(p, ev).questions, Next(p, ev).criteria) != (p.questions, p.criteria) ==>
            Next(p, ev).version == p.version + 1
  {
  }

  lemma {:induction false} VersionNeverDecreases(states: seq<Plan>, evs: seq<Event>, a: nat, b: nat)
    requires IsRun(states, evs) && a <= b < |states|
    ensures states[a].version <= states[b].version
    decreases b
  {
    if a < b {
      VersionNeverDecreases(states, evs, a, b - 1);
      VersionSteps(states[b - 1], evs[b - 1]);
    }
  }

  /** Of all the edits made against one version, one succeeds at most. */
  lemma OneEditPerVersion(states: seq<Plan>, evs: seq<Event>, a: nat, b: nat)
    requires IsRun(states, evs) && a < b < |evs|
    requires Expects(evs[a]).Some? && Expects(evs[a]) == Expects(evs[b])
    requires Attempt(states[a], evs[a]).Ok?
    ensures !Attempt(states[b], evs[b]).Ok?
  {
    VersionSteps(states[a], evs[a]);
    VersionNeverDecreases(states, evs, a + 1, b);
    VersionSteps(states[b], evs[b]);
  }

  /** The version a reader saw identifies the questions and the rubric it saw. */
  lemma SameVersionSameContents(states: seq<Plan>, evs: seq<Event>, a: nat, b: nat)
    requires IsRun(states, evs) && a <= b < |states| && states[a].version == states[b].version
    ensures states[a].questions == states[b].questions && states[a].criteria == states[b].criteria
    decreases b
  {
    if a < b {
      VersionNeverDecreases(states, evs, a, b - 1);
      VersionSteps(states[b - 1], evs[b - 1]);
      SameVersionSameContents(states, evs, a, b - 1);
    }
  }

  /** Frozen is permanent: status, questions, rubric and version never change again. */
  lemma {:induction false} FrozenForGood(states: seq<Plan>, evs: seq<Event>, a: nat, b: nat)
    requires IsRun(states, evs) && a <= b < |states| && states[a].status == FROZEN
    ensures states[b].status == FROZEN && states[b].version == states[a].version
    ensures states[b].questions == states[a].questions && states[b].criteria == states[a].criteria
    decreases b
  {
    if a < b {
      FrozenForGood(states, evs, a, b - 1);
    }
  }

  // ---------------------------------------------------------------------------
  // What a write stores
  // ---------------------------------------------------------------------------

  /** A tag that is there and not blank, and what it says. */
  predicate Tagged(q: Question) {
    q.competency.Some? && Strip(q.competency.value) != ""
  }

  /** A question edit stores the questions that were sent, all of them, in the order they were sent, trimmed. */
  lemma EditStoresWhatWasSent(p: Plan, sent: seq<Question>, expected: Option<int>)
    requires ReplaceQuestions(p, sent, expected).Ok?
    ensures var p' := ReplaceQuestions(p, sent, expected).value;
      && |p'.questions| == |sent|
      && (forall i :: 0 <= i < |sent| ==> p'.questions[i].body == Strip(sent[i].body))
      && (forall i :: 0 <= i < |sent| ==>
            p'.questions[i].competency == if Tagged(sent[i]) then Some(Strip(sent[i].competency.value)) else None)
      && p' == p.(questions := p'.questions, version := p.version + 1)
  {
  }

  /** Frozen, read at another version, tagged with a criterion the plan does not have, or blank: a question edit is refused
      for the first of these that applies, and accepted when none does. */
  lemma WhenQuestionEditsFail(p: Plan, sent: seq<Question>, expected: Option<int>)
    ensures var refused :=
        if p.status == FROZEN then PlanFrozen
        else if expected.Some? && expected.value != p.version then VersionConflict
        else if exists i :: 0 <= i < |sent| && Tagged(sent[i]) && Strip(sent[i].competency.value) !in Names(p.criteria)
        then UnknownCriterion
        else ConstraintViolated;
      ReplaceQuestions(p, sent, expected).Err? ==> ReplaceQuestions(p, sent, expected) == Err(refused)
    ensures ReplaceQuestions(p, sent, expected).Ok? <==>
      && p.status != FROZEN && (expected.Some? ==> expected.value == p.version)
      && forall i :: 0 <= i < |sent| ==>
           Strip(sent[i].body) != "" && (Tagged(sent[i]) ==> Strip(sent[i].competency.value) in Names(p.criteria))
  {
    var rows := EditRows(sent);
    forall i | 0 <= i < |sent|
      ensures rows[i] in rows && rows[i].body == Strip(sent[i].body)
      ensures rows[i].competency == if Tagged(sent[i]) then Some(Strip(sent[i].competency.value)) else None
    {
    }
    assert TagsKnown(rows, Names(p.criteria)) <==>
      forall i :: 0 <= i < |sent| && Tagged(sent[i]) ==> Strip(sent[i].competency.value) in Names(p.criteria);
    assert QuestionsStorable(rows) <==> forall i :: 0 <= i < |sent| ==> Strip(sent[i].body) != "";
  }

  /** What is stored has been trimmed. */
  ghost predicate Trim(p: Plan) {
    && (forall i :: 0 <= i < |p.questions| ==> Strip(p.questions[i].body) == p.questions[i].body)
    && (forall i :: 0 <= i < |p.questions| && p.questions[i].competency.Some? ==>
          Strip(p.questions[i].competency.value) == p.questions[i].competency.value)
    && (forall i :: 0 <= i < |p.criteria| ==> Strip(p.criteria[i].name) == p.criteria[i].name)
  }

  lemma RowsAreTrim(g: Generated, p: Plan)
    requires p.questions == Rows(g.questions) && p.criteria == CriterionRows(g.criteria)
    ensures Trim(p)
  {
    forall text: string
      ensures Strip(Strip(text)) == Strip(text)
    {
      StripTwice(text);
    }
    hide Strip;
  }

  lemma EditRowsAreTrim(sent: seq<Question>, p: Plan)
    requires p.questions == EditRows(sent)
    requires forall i :: 0 <= i < |p.criteria| ==> Strip(p.criteria[i].name) == p.criteria[i].name
    ensures Trim(p)
  {
    forall text: string
      ensures Strip(Strip(text)) == Strip(text)
    {
      StripTwice(text);
    }
    hide Strip;
  }

  lemma CriteriaEditIsTrim(raw: seq<RawCriterion>, p: Plan, p': Plan)
    requires Trim(p) && p'.criteria == QuantisedRows(raw) && p'.questions == RetaggedAll(p.questions, Names(p'.criteria))
    ensures Trim(p')
  {
    forall text: string
      ensures Strip(Strip(text)) == Strip(text)
    {
      StripTwice(text);
    }
    hide Strip, Names, Rubric.RoundHalfEven;
  }

  lemma StepKeepsTrim(p: Plan, ev: Event)
    requires Trim(p)
    ensures Trim(Next(p, ev))
  {
    hide Rows, CriterionRows, EditRows, QuantisedRows, RetaggedAll, Strip, Trim, Names;
    if Attempt(p, ev).Ok? {
      match ev
      case Applies(g) => RowsAreTrim(g, Next(p, ev));
      case EditsQuestions(sent, _) => CriteriaAreTrim(p); EditRowsAreTrim(sent, Next(p, ev));
      case EditsCriteria(raw, _) => CriteriaEditIsTrim(raw, p, Next(p, ev));
      case _ => SameContentsSameTrim(p, Next(p, ev));
    }
  }

  lemma CriteriaAreTrim(p: Plan)
    requires Trim(p)
    ensures forall i :: 0 <= i < |p.criteria| ==> Strip(p.criteria[i].name) == p.criteria[i].name
  {
  }

  lemma SameContentsSameTrim(p: Plan, p': Plan)
    requires Trim(p) && p'.questions == p.questions && p'.criteria == p.criteria
    ensures Trim(p')
  {
  }

  lemma {:induction false} AlwaysTrim(states: seq<Plan>, evs: seq<Event>, n: nat)
    requires IsRun(states, evs) && n < |states|
    ensures Trim(states[n])
  {
    hide Next, Trim;
    if n == 0 {
      InitIsTrim();
    } else {
      AlwaysTrim(states, evs, n - 1);
      StepKeepsTrim(states[n - 1], evs[n - 1]);
    }
  }

  lemma InitIsTrim()
    ensures Trim(INIT)
  {
  }

  /** Sending a reachable plan's own questions back against its own version is accepted, and changes nothing but the
      version, exactly if no tag is blank. */
  lemma ResendingQuestions(states: seq<Plan>, evs: seq<Event>, n: nat)
    requires IsRun(states, evs) && n < |states| && states[n].status != FROZEN
    ensures var p := states[n];
      var r := ReplaceQuestions(p, p.questions, Some(p.version));
      && r.Ok?
      && (r.value == p.(version := p.version + 1) <==> forall i :: 0 <= i < |p.questions| ==> p.questions[i].competency != Some(""))
  {
    var p := states[n];
    AlwaysTrim(states, evs, n);
    PlanAlwaysConsistent(states, evs, n);
    hide Strip, Names;
    WhenQuestionEditsFail(p, p.questions, Some(p.version));
    EditStoresWhatWasSent(p, p.questions, Some(p.version));
    var p' := ReplaceQuestions(p, p.questions, Some(p.version)).value;
    forall i | 0 <= i < |p.questions|
      ensures p'.questions[i] == p.questions[i] <==> p.questions[i].competency != Some("")
    {
      assert p.questions[i] in p.questions;
    }
    assert p'.questions == p.questions <==> forall i :: 0 <= i < |p.questions| ==> p'.questions[i] == p.questions[i];
  }

  /** A rubric edit stores the criteria that were sent, in order, each name trimmed and each weight to four places, and
      keeps every question with its text; a tag stays exactly if it is blank or names a criterion that is left. */
  lemma CriteriaEditStoresWhatWasSent(p: Plan, raw: seq<RawCriterion>, expected: Option<int>)
    requires ReplaceCriteria(p, raw, expected).Ok?
    ensures var p' := ReplaceCriteria(p, raw, expected).value;
      && |p'.criteria| == |raw| && |p'.questions| == |p.questions|
      && (forall i :: 0 <= i < |raw| ==>
            p'.criteria[i].name == Strip(raw[i].name) && -0.5 <= p'.criteria[i].weight as real - raw[i].weight * 10_000.0 <= 0.5)
      && (forall i :: 0 <= i < |p.questions| ==> p'.questions[i].body == p.questions[i].body)
      && (forall i :: 0 <= i < |p.questions| ==>
            p'.questions[i].competency in {p.questions[i].competency, None} &&
            (p'.questions[i].competency == p.questions[i].competency <==>
               !Truthy(p.questions[i].competency) || p.questions[i].competency.value in Names(p'.criteria)))
      && p' == p.(questions := p'.questions, criteria := p'.criteria, version := p.version + 1)
  {
    hide Names, CriteriaStorable, NoRepeats, Rubric.Sum;
    forall i | 0 <= i < |raw|
      ensures -0.5 <= Rubric.RoundHalfEven(raw[i].weight * 10_000.0) as real - raw[i].weight * 10_000.0 <= 0.5
    {
      Rubric.RoundHalfEvenIsNearest(raw[i].weight * 10_000.0);
    }
  }

  /** A rubric edit is refused for a frozen plan, another version, weights that do not make one in four places, a name sent
      twice, or a weight of nothing, for the first of these that applies, and accepted when none does. */
  lemma WhenCriteriaEditsFail(p: Plan, raw: seq<RawCriterion>, expected: Option<int>)
    ensures var qs := WeightsOf(QuantisedRows(raw));
      var refused :=
        if p.status == FROZEN then Some(PlanFrozen)
        else if expected.Some? && expected.value != p.version then Some(VersionConflict)
        else if Rubric.Sum(qs) != 10_000 then Some(WeightsNotOne)
        else if exists i, j :: 0 <= i < j < |raw| && Strip(raw[i].name) == Strip(raw[j].name) then Some(DuplicateNames)
        else if exists i :: 0 <= i < |raw| && !(0 < qs[i] <= 10_000) then Some(ConstraintViolated)
        else None;
      && (ReplaceCriteria(p, raw, expected).Ok? <==> refused.None?)
      && (ReplaceCriteria(p, raw, expected).Err? ==> Some(ReplaceCriteria(p, raw, expected).conflict) == refused)
  {
    hide Strip, Rubric.Sum, Rubric.RoundHalfEven, Names;
    var rows := QuantisedRows(raw);
    var names := NamesOf(rows);
    assert forall i :: 0 <= i < |raw| ==> names[i] == Strip(raw[i].name);
    assert forall i :: 0 <= i < |raw| ==> rows[i] in rows && WeightsOf(rows)[i] == rows[i].weight;
    assert Distinct(names) <==> forall i, j :: 0 <= i < j < |raw| ==> Strip(raw[i].name) != Strip(raw[j].name);
    hide QuantisedRows, NamesOf, WeightsOf;
  }

  /** A plan's own rubric as a client would send it. */
  function AsSent(criteria: seq<Criterion>): seq<RawCriterion> {
    seq(|criteria|, i requires 0 <= i < |criteria| => RawCriterion(criteria[i].name, Rubric.Weight(criteria[i].weight)))
  }

  lemma QuantisingOwnRubric(p: Plan)
    requires Trim(p)
    ensures QuantisedRows(AsSent(p.criteria)) == p.criteria
  {
    hide Strip;
    forall i | 0 <= i < |p.criteria|
      ensures Rubric.RoundHalfEven(Rubric.Weight(p.criteria[i].weight) * 10_000.0) == p.criteria[i].weight
    {
      Rubric.WholeIsFixed(p.criteria[i].weight);
    }
  }

  lemma RetaggingOwnNames(p: Plan)
    requires TagsMatch(p.questions, Names(p.criteria))
    ensures RetaggedAll(p.questions, Names(p.criteria)) == p.questions
  {
    forall i | 0 <= i < |p.questions|
      ensures Retagged(p.questions[i], Names(p.criteria)) == p.questions[i]
    {
      assert p.questions[i] in p.questions;
    }
  }

  /** Sending a reachable plan's own rubric back is accepted exactly if it has one, and then changes only the version. */
  lemma ResendingCriteria(states: seq<Plan>, evs: seq<Event>, n: nat)
    requires IsRun(states, evs) && n < |states| && states[n].status != FROZEN
    ensures var p := states[n];
      var r := ReplaceCriteria(p, AsSent(p.criteria), Some(p.version));
      && (r.Ok? <==> p.criteria != [])
      && (r.Ok? ==> r.value == p.(version := p.version + 1))
  {
    var p := states[n];
    AlwaysTrim(states, evs, n);
    PlanAlwaysConsistent(states, evs, n);
    QuantisingOwnRubric(p);
    RetaggingOwnNames(p);
    hide QuantisedRows, RetaggedAll, Trim;
  }

  /** A generation is installed exactly if the plan is not frozen and what it gives can be stored. */
  lemma WhenGenerationsLand(p: Plan, g: Generated)
    ensures ApplyGenerated(p, g).Ok? <==>
      && p.status != FROZEN
      && (forall i :: 0 <= i < |g.questions| ==> Strip(g.questions[i].body) != "")
      && (forall i :: 0 <= i < |g.criteria| ==> 0 < g.criteria[i].weight <= 10_000)
      && (forall i, j :: 0 <= i < j < |g.criteria| ==> Strip(g.criteria[i].name) != Strip(g.criteria[j].name))
  {
    hide Strip;
    var rows, criteria, names := Rows(g.questions), CriterionRows(g.criteria), NamesOf(CriterionRows(g.criteria));
    assert forall i :: 0 <= i < |g.questions| ==> rows[i] in rows && rows[i].body == Strip(g.questions[i].body);
    assert forall i :: 0 <= i < |g.criteria| ==> names[i] == Strip(g.criteria[i].name);
    assert forall i :: 0 <= i < |g.criteria| ==> criteria[i] in criteria && criteria[i].weight == g.criteria[i].weight;
    assert Distinct(names) <==>
      forall i, j :: 0 <= i < j < |g.criteria| ==> Strip(g.criteria[i].name) != Strip(g.criteria[j].name);
    hide Rows, CriterionRows, NamesOf;
  }

  /** It stores what the model gave, in order, trimmed, and starts the plan over as a draft. */
  lemma GenerationStoresWhatWasGiven(p: Plan, g: Generated)
    requires ApplyGenerated(p, g).Ok?
    ensures var p' := ApplyGenerated(p, g).value;
      && |p'.questions| == |g.questions| && |p'.criteria| == |g.criteria|
      && (forall i :: 0 <= i < |g.questions| ==> p'.questions[i].body == Strip(g.questions[i].body))
      && (forall i :: 0 <= i < |g.questions| ==>
            p'.questions[i].competency ==
              if g.questions[i].competency in {None, Some("")} then None else Some(Strip(g.questions[i].competency.value)))
      && (forall i :: 0 <= i < |g.criteria| ==> p'.criteria[i] == Criterion(Strip(g.criteria[i].name), g.criteria[i].weight))
      && p' == Plan(DRAFT, READY, p.version + 1, p.approvedAt, None, p'.questions, p'.criteria)
  {
    hide Strip, QuestionsStorable, CriteriaStorable;
  }

  /** Validation keeps every question and every criterion in place: it refuses the whole answer, or only drops tags that
      name no criterion and normalises the weights. */
  lemma ValidationKeepsOrder(questions: seq<Question>, raw: seq<RawCriterion>)
    ensures CheckRubric(questions, raw).Some? <==>
      && (forall i, j :: 0 <= i < j < |raw| ==> Strip(raw[i].name) != Strip(raw[j].name))
      && 0.5 <= Rubric.Total(RawWeights(raw)) <= 1.5
    ensures CheckRubric(questions, raw).Some? ==>
      var g := CheckRubric(questions, raw).value;
      && |g.questions| == |questions| && |g.criteria| == |raw|
      && (forall i :: 0 <= i < |questions| ==> g.questions[i].body == questions[i].body)
      && (forall i :: 0 <= i < |questions| ==>
            g.questions[i].competency in {questions[i].competency, None} &&
            (g.questions[i].competency == questions[i].competency <==>
               !Truthy(questions[i].competency) ||
               exists k :: 0 <= k < |raw| && Strip(raw[k].name) == Strip(questions[i].competency.value)))
      && (forall i :: 0 <= i < |raw| ==> g.criteria[i].name == raw[i].name)
      && WeightsOf(g.criteria) == Rubric.Normalised(RawWeights(raw))
  {
    hide Strip, Rubric.Normalised, Rubric.Total;
    var names := StrippedNames(raw);
    assert forall i :: 0 <= i < |raw| ==> names[i] == Strip(raw[i].name);
    assert Distinct(names) <==> forall i, j :: 0 <= i < j < |raw| ==> Strip(raw[i].name) != Strip(raw[j].name);
    if CheckRubric(questions, raw).Some? {
      Rubric.NormalisedSumsToOne(RawWeights(raw));
      assert forall tag :: tag in names <==> exists k :: 0 <= k < |raw| && Strip(raw[k].name) == tag;
    }
  }

  /** Which of the first `n` are kept. */
  function KeptAt(keeps: nat -> bool, n: nat): (ks: seq<nat>)
    ensures forall i: nat :: i in ks <==> i < n && keeps(i)
    ensures forall a :: 0 <= a < |ks| ==> ks[a] < n
    ensures forall a, b :: 0 <= a < b < |ks| ==> ks[a] < ks[b]
  {
    if n == 0 then []
    else
      var front := KeptAt(keeps, n - 1);
      if keeps(n - 1) then front + [n - 1] else front
  }

  /** The ungrounded questions go, the others stay in order. */
  lemma {:induction false} KeptInOrder(questions: seq<Question>, keeps: nat -> bool)
    ensures var ks := KeptAt(keeps, |questions|);
      |Kept(questions, keeps)| == |ks| && forall a :: 0 <= a < |ks| ==> Kept(questions, keeps)[a] == questions[ks[a]]
  {
    if questions != [] {
      KeptInOrder(questions[..|questions| - 1], keeps);
    }
  }

  // ---------------------------------------------------------------------------
  // What the status columns mean
  // ---------------------------------------------------------------------------

  /** Step `i` is a sign-off that went through. */
  predicate SignsOff(p: Plan, ev: Event) {
    ev.Approves? && Attempt(p, ev).Ok?
  }

  /** Step `i` starts the plan over, or freezes it. */
  predicate Unsigns(p: Plan, ev: Event) {
    (ev.Applies? || ev.Freezes?) && Attempt(p, ev).Ok?
  }

  /** A sign-off is refused for a frozen plan, another version, a generation that has not landed, or nothing to ask or to
      score by, in that order, and for nothing else; a freeze only for the last of these, and on a frozen plan does nothing. */
  lemma WhenSignOffsFail(p: Plan, expected: Option<int>, now: int)
    ensures var refused :=
        if p.status == FROZEN then Some(PlanFrozen)
        else if expected.Some? && expected.value != p.version then Some(VersionConflict)
        else if p.generation != READY then Some(NotGenerated)
        else if |p.questions| == 0 || |p.criteria| == 0 then Some(EmptyPlan)
        else None;
      && (Approve(p, expected, now).Ok? <==> refused.None?)
      && (Approve(p, expected, now).Err? ==> Some(Approve(p, expected, now).conflict) == refused)
    ensures Freeze(p).Err? <==> Freeze(p) == Err(EmptyPlan) && p.status != FROZEN && (|p.questions| == 0 || |p.criteria| == 0)
    ensures Freeze(p).Ok? ==> Freeze(p).value == if p.status == FROZEN then p else p.(status := FROZEN, version := p.version + 1)
  {
  }

  /** Step `i` is the last sign-off, at `now`, and nothing since has started the plan over or frozen it. */
  ghost predicate SignedOffAt(states: seq<Plan>, evs: seq<Event>, i: nat, n: nat, now: int)
    requires IsRun(states, evs) && i < n <= |evs|
  {
    && SignsOff(states[i], evs[i]) && evs[i].now == now && states[i].generation == READY
    && states[i].questions != [] && states[i].criteria != []
    && forall k :: i < k < n ==> !SignsOff(states[k], evs[k]) && !Unsigns(states[k], evs[k])
  }

  lemma StatusSteps(p: Plan, ev: Event, now: int)
    ensures var p' := Next(p, ev);
      (p'.status == APPROVED && p'.approvedAt == Some(now)) <==>
        if SignsOff(p, ev) then ev.now == now else (p.status == APPROVED && p.approvedAt == Some(now)) && !Unsigns(p, ev)
    ensures SignsOff(p, ev) ==> p.generation == READY && p.questions != [] && p.criteria != []
    ensures p.status != FROZEN && ev.Freezes? && Unsigns(p, ev) ==> Next(p, ev).status == FROZEN
  {
  }

  /** Over every run a plan is approved, as of a given moment, exactly if somebody signed off a generated plan with
      questions and a rubric at that moment, and no generation has replaced it and nothing frozen it since. */
  lemma {:induction false} ApprovedMeansSignedOff(states: seq<Plan>, evs: seq<Event>, n: nat, now: int)
    requires IsRun(states, evs) && n < |states|
    ensures (states[n].status == APPROVED && states[n].approvedAt == Some(now)) <==>
      exists i :: 0 <= i < n && SignedOffAt(states, evs, i, n, now)
  {
    hide Next, SignsOff, Unsigns;
    if n > 0 {
      var m := n - 1;
      ApprovedMeansSignedOff(states, evs, m, now);
      StatusSteps(states[m], evs[m], now);
      if SignsOff(states[m], evs[m]) {
        SignOffIsApproval(states[m], evs[m]);
        assert SignedOffAt(states, evs, m, n, evs[m].now);
      } else {
        assert !SignedOffAt(states, evs, m, n, now);
        assert forall i :: 0 <= i < m ==>
          (SignedOffAt(states, evs, i, n, now) <==>
             SignedOffAt(states, evs, i, m, now) && !Unsigns(states[m], evs[m]));
      }
    }
  }

  lemma SignOffIsApproval(p: Plan, ev: Event)
    requires SignsOff(p, ev)
    ensures ev.Approves?
  {
  }

  /** What a generation's step makes of the generation column. */
  function Reports(p: Plan, ev: Event): Option<Generation> {
    match ev
    case Starts => if p.status == FROZEN then None else Some(GENERATING)
    case Applies(_) => if Attempt(p, ev).Ok? then Some(READY) else None
    case Fails(_) => Some(FAILED)
    case _ => None
  }

  lemma GenerationSteps(p: Plan, ev: Event)
    ensures Next(p, ev).generation == if Reports(p, ev).Some? then Reports(p, ev).value else p.generation
  {
  }

  /** Step `i` is the last of the first `n` to report on a generation, and this is what it reports. */
  ghost predicate LastReports(states: seq<Plan>, evs: seq<Event>, i: nat, n: nat, generation: Generation)
    requires IsRun(states, evs) && i < n <= |evs|
  {
    Reports(states[i], evs[i]) == Some(generation) && forall k :: i < k < n ==> Reports(states[k], evs[k]).None?
  }

  /** Over every run the generation column says what the last generation to begin, land or fail said; no edit, sign-off or
      freeze touches it. */
  lemma {:induction false} GenerationIsLastReport(states: seq<Plan>, evs: seq<Event>, n: nat, generation: Generation)
    requires IsRun(states, evs) && n < |states| && generation != PENDING
    ensures states[n].generation == generation <==> exists i :: 0 <= i < n && LastReports(states, evs, i, n, generation)
  {
    hide Next, Reports;
    if n > 0 {
      var m := n - 1;
      GenerationIsLastReport(states, evs, m, generation);
      GenerationSteps(states[m], evs[m]);
      if Reports(states[m], evs[m]).Some? {
        assert LastReports(states, evs, m, n, Reports(states[m], evs[m]).value);
      } else {
        assert !LastReports(states, evs, m, n, generation);
        assert forall i :: 0 <= i < m ==>
          (LastReports(states, evs, i, n, generation) <==> LastReports(states, evs, i, m, generation));
      }
    }
  }

  // ---------------------------------------------------------------------------
  // The blank tag
  // ---------------------------------------------------------------------------

  /** The stricter reading: a tag is null or names a current criterion. */
  ghost predicate StrictTags(p: Plan) {
    forall q :: q in p.questions && q.competency.Some? ==> q.competency.value in Names(p.criteria)
  }

  /** A criteria edit keeps the strict reading exactly when no blank tag loses its blank criterion. */
  lemma CriteriaEditStrictness(p: Plan, raw: seq<RawCriterion>, expected: Option<int>)
    requires ReplaceCriteria(p, raw, expected).Ok?
    ensures var p' := ReplaceCriteria(p, raw, expected).value;
      StrictTags(p') <==> ("" in Names(QuantisedRows(raw)) || forall q :: q in p.questions ==> q.competency != Some(""))
  {
    var names := Names(QuantisedRows(raw));
    var p' := ReplaceCriteria(p, raw, expected).value;
    forall i | 0 <= i < |p.questions|
      ensures p.questions[i] in p.questions && p'.questions[i] in p'.questions
      ensures p'.questions[i] == Retagged(p.questions[i], names)
    {
    }
    if q :| q in p.questions && q.competency == Some("") {
      var i :| 0 <= i < |p.questions| && p.questions[i] == q;
      assert p'.questions[i].competency == Some("");
    }
  }

  /** Every other write restores it. */
  lemma OtherWritesAreStrict(p: Plan, g: Generated, questions: seq<Question>, expected: Option<int>)
    ensures WellGenerated(g) && ApplyGenerated(p, g).Ok? ==> StrictTags(ApplyGenerated(p, g).value)
    ensures ReplaceQuestions(p, questions, expected).Ok? ==> StrictTags(ReplaceQuestions(p, questions, expected).value)
  {
    if WellGenerated(g) && ApplyGenerated(p, g).Ok? {
      forall q | q in Rows(g.questions) && q.competency.Some?
        ensures q.competency.value in Names(CriterionRows(g.criteria))
      {
        var i :| 0 <= i < |g.questions| && Rows(g.questions)[i] == q;
        assert g.questions[i] in g.questions;
      }
    }
  }

  /** A rubric edit that goes through and leaves a blank tag without a blank criterion to name. */
  predicate StrandsBlank(p: Plan, ev: Event) {
    && ev.EditsCriteria? && Attempt(p, ev).Ok?
    && "" !in Names(QuantisedRows(ev.raw))
    && exists q :: q in p.questions && q.competency == Some("")
  }

  lemma StepKeepsStrict(p: Plan, ev: Event)
    requires ev.Applies? ==> WellGenerated(ev.g)
    requires StrictTags(p)
    ensures StrictTags(Next(p, ev)) <==> !StrandsBlank(p, ev)
  {
    hide WellGenerated, ApplyGenerated, ReplaceQuestions, ReplaceCriteria, StrictTags;
    match ev
    case Applies(g) => OtherWritesAreStrict(p, g, [], None);
    case EditsQuestions(questions, expected) => OtherWritesAreStrict(p, BLANK_GENERATION, questions, expected);
    case EditsCriteria(raw, expected) =>
      if ReplaceCriteria(p, raw, expected).Ok? {
        CriteriaEditStrictness(p, raw, expected);
      }
    case _ => OthersLeaveTags(p, ev);
  }

  lemma OthersLeaveTags(p: Plan, ev: Event)
    requires !ev.Applies? && !ev.EditsQuestions? && !ev.EditsCriteria?
    ensures Next(p, ev).questions == p.questions && StrictTags(Next(p, ev)) == StrictTags(p)
  {
  }

  /** Over every run each tag is null or names a criterion throughout exactly when no rubric edit strands a blank one. */
  lemma {:induction false} StrictThroughout(states: seq<Plan>, evs: seq<Event>, n: nat)
    requires IsRun(states, evs) && n < |states|
    ensures (forall k :: 0 <= k <= n ==> StrictTags(states[k]))
       <==> (forall i :: 0 <= i < n ==> !StrandsBlank(states[i], evs[i]))
  {
    hide Next, StrandsBlank;
    if n > 0 {
      StrictThroughout(states, evs, n - 1);
      if StrictTags(states[n - 1]) {
        StepKeepsStrict(states[n - 1], evs[n - 1]);
        assert StrictTags(states[n]) <==> !StrandsBlank(states[n - 1], evs[n - 1]);
      }
    }
  }

  // A generation whose validated rubric has a blank name, and an edit that drops it.

  const RAW_RUBRIC: seq<RawCriterion> :=
    [RawCriterion("  ", 0.5), RawCriterion("Testing", 0.3), RawCriterion("Design", 0.2)]

  const RAW_QUESTIONS: seq<Question> := [Question("Tell me why.", Some("  "))]

  const EDITED_RUBRIC: seq<RawCriterion> := [RawCriterion("Testing", 0.6), RawCriterion("Design", 0.4)]

  lemma StripOfBlanks()
    ensures Strip("  ") == ""
  {
    assert SkipLeft("  ", 2) == 2;
    assert SkipLeft("  ", 1) == 2;
    assert SkipLeft("  ", 0) == 2;
  }

  const BLANK_RUBRIC: seq<Criterion> := [Criterion("", 5_000), Criterion("Testing", 3_000), Criterion("Design", 2_000)]

  lemma BlankNames()
    ensures StrippedNames(RAW_RUBRIC) == ["", "Testing", "Design"] && NoRepeats(StrippedNames(RAW_RUBRIC))
  {
    StripOfBlanks();
    StripOfWord("Testing");
    StripOfWord("Design");
    var names := StrippedNames(RAW_RUBRIC);
    assert names == ["", "Testing", "Design"];
    assert names[1..] == ["Testing", "Design"] && names[1..][1..] == ["Design"] && names[1..][1..][1..] == [];
  }

  lemma BlankWeights()
    ensures Rubric.Acceptable(RawWeights(RAW_RUBRIC)) && Rubric.Normalised(RawWeights(RAW_RUBRIC)) == [5_000, 3_000, 2_000]
  {
    var qs := [5_000, 3_000, 2_000];
    assert qs[1..] == [3_000, 2_000] && qs[1..][1..] == [2_000] && qs[1..][1..][1..] == [];
    assert Rubric.Sum(qs) == 10_000;
    assert RawWeights(RAW_RUBRIC) == Rubric.Weights(qs);
    Rubric.NormalisedTwice(qs);
  }

  const BLANK_GENERATION: Generated := Generated(RAW_QUESTIONS,
    [Criterion("  ", 5_000), Criterion("Testing", 3_000), Criterion("Design", 2_000)])

  lemma BlankRubricPasses()
    ensures CheckRubric(RAW_QUESTIONS, RAW_RUBRIC) == Some(BLANK_GENERATION)
  {
    BlankNames();
    BlankWeights();
    StripOfBlanks();
    hide NoRepeats, Strip, Rubric.Normalised, Rubric.Acceptable, Rubric.Total;
    var g := CheckRubric(RAW_QUESTIONS, RAW_RUBRIC).value;
    assert Untagged(RAW_QUESTIONS[0], StrippedNames(RAW_RUBRIC)) == RAW_QUESTIONS[0];
    assert g.questions == RAW_QUESTIONS;
    assert g.criteria == BLANK_GENERATION.criteria;
  }

  lemma BlankRows()
    ensures Rows(BLANK_GENERATION.questions) == [Question("Tell me why.", Some(""))]
    ensures CriterionRows(BLANK_GENERATION.criteria) == BLANK_RUBRIC
  {
    StripOfBlanks();
    StripOfWord("Testing");
    StripOfWord("Design");
    StripOfWord("Tell me why.");
    hide Strip;
  }

  lemma BlankGenerationLands(p: Plan)
    requires Editable(p)
    ensures ApplyGenerated(p, BLANK_GENERATION)
         == Ok(p.(status := DRAFT, generation := READY, version := p.version + 1, error := None,
                  questions := [Question("Tell me why.", Some(""))], criteria := BLANK_RUBRIC))
  {
    BlankRows();
    BlankNames();
    hide Strip;
    assert NamesOf(BLANK_RUBRIC) == StrippedNames(RAW_RUBRIC);
  }

  lemma EditDropsBlank(p: Plan)
    requires p.status != FROZEN && p.questions == [Question("Tell me why.", Some(""))]
    ensures ReplaceCriteria(p, EDITED_RUBRIC, None).Ok?
    ensures !StrictTags(ReplaceCriteria(p, EDITED_RUBRIC, None).value)
  {
    StripOfWord("Testing");
    StripOfWord("Design");
    var rows := QuantisedRows(EDITED_RUBRIC);
    assert rows == [Criterion("Testing", 6_000), Criterion("Design", 4_000)];
    assert WeightsOf(rows) == [6_000, 4_000] && Rubric.Sum([6_000, 4_000]) == 10_000;
    assert NamesOf(rows) == ["Testing", "Design"];
    assert RetaggedAll(p.questions, Names(rows)) == p.questions;
    assert p.questions[0] in p.questions && p.questions[0].competency == Some("");
  }

  lemma BlankIsWellGenerated()
    ensures WellGenerated(BLANK_GENERATION)
  {
    BlankRubricPasses();
    CheckedIsWellGenerated(RAW_QUESTIONS, RAW_RUBRIC, _ => true);
    KeptAll(RAW_QUESTIONS);
  }

  /** A run a recruiter can make happen: a generation whose rubric has a blank name lands, and an edit of the
      rubric drops it.  The question keeps its blank tag. */
  lemma BlankTagSurvives() returns (states: seq<Plan>, evs: seq<Event>)
    ensures evs == [Starts, Applies(BLANK_GENERATION), EditsCriteria(EDITED_RUBRIC, None)] && IsRun(states, evs)
    ensures CheckRubric(RAW_QUESTIONS, RAW_RUBRIC) == Some(BLANK_GENERATION)
    ensures StrictTags(states[2]) && !StrictTags(states[3])
  {
    hide CheckRubric, ApplyGenerated, ReplaceCriteria, StrictTags, WellGenerated;
    evs := [Starts, Applies(BLANK_GENERATION), EditsCriteria(EDITED_RUBRIC, None)];
    var s1 := INIT.(generation := GENERATING, error := None);
    BlankRubricPasses();
    BlankIsWellGenerated();
    BlankGenerationLands(s1);
    var s2 := ApplyGenerated(s1, BLANK_GENERATION).value;
    OtherWritesAreStrict(s1, BLANK_GENERATION, [], None);
    EditDropsBlank(s2);
    states := [INIT, s1, s2, ReplaceCriteria(s2, EDITED_RUBRIC, None).value];
  }

  lemma {:induction false} KeptAll(questions: seq<Question>)
    ensures Kept(questions, _ => true) == questions
  {
    if questions != [] {
      KeptAll(questions[..|questions| - 1]);
    }
  }
}
