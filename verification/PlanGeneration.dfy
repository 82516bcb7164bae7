/** The generation task: a staleness lock on the plan row around a long model call.

  Each database transaction is one step.  The row's `updated_at` moves only when an UPDATE
  is emitted, and the ORM emits one only when some column of the row has a new value.
*/
module PlanGeneration {
  import opened Text
  import opened QuestionPlan

  const STALE_AFTER: int := 300

  type TaskId = nat
  type RowId = nat

  /** The plan with the columns the task itself writes. */
  datatype Row = Row(plan: Plan, resume: Option<RowId>, description: Option<RowId>, updatedAt: int)

  /** A task between its transactions: when it took the lock, what it read, and what the model answered it. */
  datatype Flight = Flight(since: int, resume: Option<RowId>, description: Option<RowId>, answer: Option<Generated>)

  datatype Sys = Sys(now: int, row: Row, flights: map<TaskId, Flight>)

  datatype Event =
    | Tick(seconds: nat)
    | TaskRuns(id: TaskId, force: bool, resumePending: bool, resume: Option<RowId>, description: Option<RowId>)
    | Answers(id: TaskId, g: Generated)       // the model call returns
    | Installs(id: TaskId)                    // it answered: apply_generated
    | Reports(id: TaskId, error: string)      // it failed: mark_failed
    | Dies(id: TaskId)
    | Edits(ev: QuestionPlan.Event)           // a recruiter's edit, or the freeze
    | AttachesResume(found: RowId)

  function SysInit(resume: Option<RowId>): Sys {
    Sys(0, Row(INIT, resume, None, 0), map[])
  }

  /** The columns of the plan's own row; questions and criteria are rows of other tables. */
  predicate SameColumns(a: Row, b: Row) {
    a.plan.(questions := [], criteria := []) == b.plan.(questions := [], criteria := [])
    && a.resume == b.resume && a.description == b.description
  }

  function Flush(before: Row, after: Row, now: int): Row {
    after.(updatedAt := if SameColumns(before, after) then before.updatedAt else now)
  }

  predicate InFlight(row: Row, now: int) {
    row.plan.generation == GENERATING && now - row.updatedAt < STALE_AFTER
  }

  datatype Verdict = Skipped | RetryLater | Begins

  /** The task's first transaction, branch by branch. */
  function Decide(row: Row, now: int, force: bool, resumePending: bool): Verdict {
    if !Editable(row.plan) then Skipped
    else if row.plan.generation == READY && !force then Skipped
    else if InFlight(row, now) then (if force then RetryLater else Skipped)
    else if resumePending then RetryLater
    else Begins
  }

  function Begun(row: Row, now: int, resume: Option<RowId>, description: Option<RowId>): Row {
    var plan := row.plan.(generation := GENERATING, error := None);
    Flush(row,
      row.(plan := plan,
           resume := if resume.Some? then resume else row.resume,
           description := if description.Some? then description else row.description),
      now)
  }

  predicate Enabled(s: Sys, ev: Event) {
    match ev
    case Tick(_) => true
    case TaskRuns(id, _, _, _, _) => id !in s.flights
    case Answers(id, _) => id in s.flights && s.flights[id].answer.None?
    case Installs(id) => id in s.flights && s.flights[id].answer.Some?
    case Reports(id, _) => id in s.flights && s.flights[id].answer.None?
    case Dies(id) => id in s.flights
    case Edits(e) => e.EditsQuestions? || e.EditsCriteria? || e.Approves? || e.Freezes?
    case AttachesResume(_) => Editable(s.row.plan)
  }

  function Step(s: Sys, ev: Event): Sys
    requires Enabled(s, ev)
  {
    match ev
    case Tick(seconds) => s.(now := s.now + seconds)
    case TaskRuns(id, force, resumePending, resume, description) =>
      if Decide(s.row, s.now, force, resumePending).Begins?
      then s.(row := Begun(s.row, s.now, resume, description),
              flights := s.flights[id := Flight(s.now, resume, description, None)])
      else s
    case Answers(id, g) => s.(flights := s.flights[id := s.flights[id].(answer := Some(g))])
    case Installs(id) =>
      var g := s.flights[id].answer.value;
      s.(row := Flush(s.row, s.row.(plan := Next(s.row.plan, Applies(g))), s.now), flights := s.flights - {id})
    case Reports(id, error) =>
      s.(row := Flush(s.row, s.row.(plan := Next(s.row.plan, Fails(error))), s.now), flights := s.flights - {id})
    case Dies(id) => s.(flights := s.flights - {id})
    case Edits(e) => s.(row := Flush(s.row, s.row.(plan := Next(s.row.plan, e)), s.now))
    case AttachesResume(found) => s.(row := Flush(s.row, s.row.(resume := Some(found)), s.now))
  }

  // ---------------------------------------------------------------------------
  // The code
  // ---------------------------------------------------------------------------

  class PlanTask {
    var row: Row
    var flights: map<TaskId, Flight>

    constructor (row: Row)
      ensures this.row == row && flights == map[]
    {
      this.row, flights := row, map[];
    }

    ghost function View(now: int): Sys
      reads this
    {
      Sys(now, row, flights)
    }

    /** Check the lock and, if it is free, take it. */
    method Begin(now: int, id: TaskId, force: bool, resumePending: bool, resume: Option<RowId>, description: Option<RowId>)
        returns (verdict: Verdict)
      requires id !in flights
      modifies this
      ensures verdict == Decide(old(row), now, force, resumePending)
      ensures View(now) == Step(old(View(now)), TaskRuns(id, force, resumePending, resume, description))
    {
      var plan := row.plan;
      if plan.status == FROZEN {
        return Skipped;
      }
      if plan.generation == READY && !force {
        return Skipped;
      }
      if plan.generation == GENERATING {
        var age := now - row.updatedAt;
        if age < STALE_AFTER {
          return if force then RetryLater else Skipped;
        }
      }
      if resumePending {
        return RetryLater;
      }
      var after := row.(plan := plan.(generation := GENERATING, error := None));
      if description.Some? {
        after := after.(description := description);
      }
      if resume.Some? {
        after := after.(resume := resume);
      }
      row := Flush(row, after, now);
      flights := flights[id := Flight(now, resume, description, None)];
      return Begins;
    }

    /** The model call has no transaction open. */
    method Answer(now: int, id: TaskId, g: Generated)
      requires id in flights && flights[id].answer.None?
      modifies this
      ensures View(now) == Step(old(View(now)), Answers(id, g))
    {
      flights := flights[id := flights[id].(answer := Some(g))];
    }

    method Install(now: int, id: TaskId)
      requires id in flights && flights[id].answer.Some?
      modifies this
      ensures View(now) == Step(old(View(now)), Installs(id))
    {
      var r := ApplyGenerated(row.plan, flights[id].answer.value);
      if r.Ok? {
        row := Flush(row, row.(plan := r.value), now);
      }
      flights := flights - {id};
    }

    method Fail(now: int, id: TaskId, error: string)
      requires id in flights && flights[id].answer.None?
      modifies this
      ensures View(now) == Step(old(View(now)), Reports(id, error))
      ensures row.plan == old(row).plan.(generation := FAILED, error := row.plan.error)
      ensures row.plan.error.Some? && row.plan.error.value <= error && (|error| <= 2000 ==> row.plan.error.value == error)
      ensures !InFlight(row, now) && forall force :: Decide(row, now, force, false) == if row.plan.status == FROZEN then Skipped else Begins
    {
      row := Flush(row, row.(plan := MarkFailed(row.plan, error)), now);
      flights := flights - {id};
    }
  }

  // ---------------------------------------------------------------------------
  // Which tasks begin
  // ---------------------------------------------------------------------------

  /** A task begins exactly if the plan is not frozen, there is something to generate or it is forced to, nobody has been
      generating for the last five minutes, and the resume is not still being parsed.  A wanted task that does not begin is
      dropped if it only repeats the generation under way, and put off otherwise. */
  lemma WhenTasksBegin(row: Row, now: int, force: bool, resumePending: bool)
    ensures var wanted := row.plan.status != FROZEN && (force || row.plan.generation != READY);
      var busy := row.plan.generation == GENERATING && now < row.updatedAt + 300;
      var verdict := Decide(row, now, force, resumePending);
      && (verdict == Begins <==> wanted && !busy && !resumePending)
      && (verdict == RetryLater <==> wanted && (if busy then force else resumePending))
  {
  }

  /** A duplicate or redelivered task leaves a plan that is ready as it is. */
  lemma UnforcedLeavesReadyAlone(s: Sys, ev: Event)
    requires Enabled(s, ev) && ev.TaskRuns? && !ev.force && s.row.plan.generation == READY
    ensures Step(s, ev) == s
  {
  }

  // ---------------------------------------------------------------------------
  // When taking the lock locks
  // ---------------------------------------------------------------------------

  /** In flight, and young enough that no restart is due. */
  predicate Live(s: Sys, id: TaskId) {
    id in s.flights && s.now < s.flights[id].since + STALE_AFTER
  }

  /** A generating row carries no error, and no clock runs ahead. */
  ghost predicate Sound(s: Sys) {
    && s.row.updatedAt <= s.now
    && (s.row.plan.generation == GENERATING ==> s.row.plan.error == None)
    && forall id :: id in s.flights ==> s.flights[id].since <= s.now
  }

  lemma StepKeepsSound(s: Sys, ev: Event)
    requires Sound(s) && Enabled(s, ev)
    ensures Sound(Step(s, ev))
  {
  }

  /** Whether beginning writes anything the row does not already say. */
  predicate Renews(row: Row, resume: Option<RowId>, description: Option<RowId>) {
    || row.plan.generation != GENERATING
    || (resume.Some? && resume != row.resume)
    || (description.Some? && description != row.description)
  }

  /** A task that begins holds the lock afterwards exactly when its transaction changed a column.
      Restarting a stale generation for the same resume and job description changes none. */
  lemma BeginTakesLock(s: Sys, force: bool, resumePending: bool, resume: Option<RowId>, description: Option<RowId>)
    requires Sound(s) && Decide(s.row, s.now, force, resumePending).Begins?
    ensures InFlight(Begun(s.row, s.now, resume, description), s.now) <==> Renews(s.row, resume, description)
  {
  }

  // ---------------------------------------------------------------------------
  // Mutual exclusion
  // ---------------------------------------------------------------------------

  /** One live generation at most, and it holds the row's lock. */
  ghost predicate Exclusive(s: Sys) {
    && Sound(s)
    && (forall a, b :: Live(s, a) && Live(s, b) ==> a == b)
    && (forall a :: Live(s, a) ==> s.row.plan.generation == GENERATING && s.flights[a].since <= s.row.updatedAt)
  }

  ghost predicate NoOtherLive(s: Sys, id: TaskId) {
    forall other :: Live(s, other) ==> other == id
  }

  /** A failure report, or an answer that can be installed, comes while no other generation is live; and a task that
      begins changes a column of the row. */
  ghost predicate Safe(s: Sys, ev: Event)
    requires Enabled(s, ev)
  {
    match ev
    case Installs(id) => ApplyGenerated(s.row.plan, s.flights[id].answer.value).Ok? ==> NoOtherLive(s, id)
    case Reports(id, _) => NoOtherLive(s, id)
    case TaskRuns(_, force, resumePending, resume, description) =>
      Decide(s.row, s.now, force, resumePending).Begins? ==> Renews(s.row, resume, description)
    case _ => true
  }

  lemma LeavingIsSafe(s: Sys, ev: Event)
    requires Exclusive(s) && Enabled(s, ev) && (ev.Installs? || ev.Reports?)
    ensures Exclusive(Step(s, ev)) <==> Safe(s, ev)
  {
    var s' := Step(s, ev);
    StepKeepsSound(s, ev);
    assert forall a :: Live(s', a) <==> Live(s, a) && a != ev.id;
  }

  lemma BeginningIsSafe(s: Sys, ev: Event)
    requires Exclusive(s) && Enabled(s, ev) && ev.TaskRuns?
    ensures Exclusive(Step(s, ev)) <==> Safe(s, ev)
  {
    var s' := Step(s, ev);
    StepKeepsSound(s, ev);
    if Decide(s.row, s.now, ev.force, ev.resumePending).Begins? {
      assert Live(s', ev.id);
      assert forall a :: Live(s', a) && a != ev.id ==> Live(s, a);
    }
  }

  lemma OtherStepsAreSafe(s: Sys, ev: Event)
    requires Exclusive(s) && Enabled(s, ev) && !ev.Installs? && !ev.Reports? && !ev.TaskRuns?
    ensures Exclusive(Step(s, ev))
  {
    var s' := Step(s, ev);
    StepKeepsSound(s, ev);
    assert forall a :: Live(s', a) ==> Live(s, a) && s'.flights[a].since == s.flights[a].since;
  }

  /** Exclusion survives a step exactly when the step is safe. */
  lemma StepKeepsExclusive(s: Sys, ev: Event)
    requires Exclusive(s) && Enabled(s, ev)
    ensures Exclusive(Step(s, ev)) <==> Safe(s, ev)
  {
    if ev.Installs? || ev.Reports? {
      LeavingIsSafe(s, ev);
    } else if ev.TaskRuns? {
      BeginningIsSafe(s, ev);
    } else {
      OtherStepsAreSafe(s, ev);
    }
  }

  ghost predicate IsRun(states: seq<Sys>, evs: seq<Event>) {
    && |states| == |evs| + 1
    && (exists resume :: states[0] == SysInit(resume))
    && forall i :: 0 <= i < |evs| ==> Enabled(states[i], evs[i]) && states[i + 1] == Step(states[i], evs[i])
  }

  lemma {:induction false} SafeRunsExclude(states: seq<Sys>, evs: seq<Event>, n: nat)
    requires IsRun(states, evs) && n < |states|
    requires forall i :: 0 <= i < n ==> Safe(states[i], evs[i])
    ensures Exclusive(states[n])
  {
    if n > 0 {
      SafeRunsExclude(states, evs, n - 1);
      StepKeepsExclusive(states[n - 1], evs[n - 1]);
    }
  }

  /** Duplicate, forced, retried, restarted and late tasks in any order: throughout a run at most one generation is live
      and holds the lock, exactly when every step of the run is safe. */
  lemma OneGenerationAtATime(states: seq<Sys>, evs: seq<Event>, n: nat)
    requires IsRun(states, evs) && n < |states|
    ensures (forall k :: 0 <= k <= n ==> Exclusive(states[k])) <==> (forall i :: 0 <= i < n ==> Safe(states[i], evs[i]))
  {
    if forall k :: 0 <= k <= n ==> Exclusive(states[k]) {
      forall i | 0 <= i < n
        ensures Safe(states[i], evs[i])
      {
        StepKeepsExclusive(states[i], evs[i]);
        assert Exclusive(states[i + 1]);
      }
    }
    if forall i :: 0 <= i < n ==> Safe(states[i], evs[i]) {
      forall k | 0 <= k <= n
        ensures Exclusive(states[k])
      {
        SafeRunsExclude(states, evs, k);
      }
    }
  }

  /** A generation dies; two tasks, a second apart, both restart it. */
  const DOUBLE_RESTART: seq<Event> :=
    [TaskRuns(0, false, false, None, None), Dies(0), Tick(300), TaskRuns(1, false, false, None, None), Tick(1),
     TaskRuns(2, false, false, None, None)]

  /** Neither restart writes the row, so the second finds the lock as stale as the first did. */
  lemma RestartsDoNotExclude() returns (states: seq<Sys>)
    ensures IsRun(states, DOUBLE_RESTART) && Live(states[6], 1) && Live(states[6], 2)
  {
    var evs := DOUBLE_RESTART;
    var s0 := SysInit(None);
    var generating := s0.row.(plan := INIT.(generation := GENERATING));
    var s1 := Step(s0, evs[0]);
    assert s1 == Sys(0, generating, map[0 := Flight(0, None, None, None)]);
    var s2 := Step(s1, evs[1]);
    var s3 := Step(s2, evs[2]);
    assert s3 == Sys(300, generating, map[]);
    var s4 := Step(s3, evs[3]);
    assert s4 == Sys(300, generating, map[1 := Flight(300, None, None, None)]);
    var s5 := Step(s4, evs[4]);
    states := [s0, s1, s2, s3, s4, s5, Step(s5, evs[5])];
  }

  /** A generation that went stale reports its failure and frees the lock its successor holds. */
  const LATE_REPORT: seq<Event> :=
    [TaskRuns(0, false, false, None, None), Tick(300), TaskRuns(1, false, false, Some(7), None), Reports(0, "timeout"),
     TaskRuns(2, false, false, None, None)]

  lemma LateReportDoesNotExclude() returns (states: seq<Sys>)
    ensures IsRun(states, LATE_REPORT) && Live(states[5], 1) && Live(states[5], 2)
    ensures forall i :: 0 <= i < 5 ==> (Safe(states[i], LATE_REPORT[i]) <==> i != 3)
  {
    var evs := LATE_REPORT;
    var s0 := SysInit(None);
    var generating := s0.row.(plan := INIT.(generation := GENERATING));
    var s1 := Step(s0, evs[0]);
    assert s1 == Sys(0, generating, map[0 := Flight(0, None, None, None)]);
    var s2 := Step(s1, evs[1]);
    var s3 := Step(s2, evs[2]);
    assert s3 == Sys(300, generating.(resume := Some(7), updatedAt := 300), map[0 := Flight(0, None, None, None), 1 := Flight(300, Some(7), None, None)]);
    var s4 := Step(s3, evs[3]);
    assert s4.row.plan.generation == FAILED && s4.flights == map[1 := Flight(300, Some(7), None, None)];
    assert Live(s3, 1) && !Safe(s3, evs[3]);
    assert Safe(s0, evs[0]) && Safe(s1, evs[1]) && Safe(s2, evs[2]) && Safe(s4, evs[4]);
    states := [s0, s1, s2, s3, s4, Step(s4, evs[4])];
  }

  // ---------------------------------------------------------------------------
  // Where the contents come from
  // ---------------------------------------------------------------------------

  /** A step that replaces questions or rubric: an install that applies, or a recruiter's edit that succeeds. */
  predicate Writes(s: Sys, ev: Event)
    requires Enabled(s, ev)
  {
    match ev
    case Installs(id) => ApplyGenerated(s.row.plan, s.flights[id].answer.value).Ok?
    case Edits(e) => (e.EditsQuestions? || e.EditsCriteria?) && Attempt(s.row.plan, e).Ok?
    case _ => false
  }

  lemma OnlyWritesWrite(s: Sys, ev: Event)
    requires Enabled(s, ev) && !Writes(s, ev)
    ensures Step(s, ev).row.plan.questions == s.row.plan.questions && Step(s, ev).row.plan.criteria == s.row.plan.criteria
  {
  }

  lemma InstallWritesItsAnswer(s: Sys, ev: Event)
    requires Enabled(s, ev) && ev.Installs? && Writes(s, ev)
    ensures var p, g := Step(s, ev).row.plan, s.flights[ev.id].answer.value;
      p.questions == Rows(g.questions) && p.criteria == CriterionRows(g.criteria)
  {
  }

  /** The last of the first `n` steps that wrote. */
  ghost function LastWrite(states: seq<Sys>, evs: seq<Event>, n: nat): (last: Option<nat>)
    requires IsRun(states, evs) && n < |states|
    ensures last.Some? ==> last.value < n && Writes(states[last.value], evs[last.value])
  {
    if n == 0 then None
    else if Writes(states[n - 1], evs[n - 1]) then Some(n - 1)
    else LastWrite(states, evs, n - 1)
  }

  /** The flight was begun by a task of this run, with what it read, and its answer is the one its model call gave. */
  ghost predicate HasHistory(states: seq<Sys>, evs: seq<Event>, n: nat, id: TaskId)
    requires IsRun(states, evs) && n < |states| && id in states[n].flights
  {
    var f := states[n].flights[id];
    exists i :: 0 <= i < n && BeganAt(states, evs, i, id, f) && AnsweredSince(evs, i, n, id, f.answer)
  }

  ghost predicate BeganAt(states: seq<Sys>, evs: seq<Event>, i: nat, id: TaskId, f: Flight)
    requires i < |evs| && i < |states|
  {
    && evs[i].TaskRuns? && evs[i].id == id && evs[i].resume == f.resume && evs[i].description == f.description
    && states[i].now == f.since && states[i].row.plan.status != FROZEN && !evs[i].resumePending
    && (evs[i].force || states[i].row.plan.generation != READY)
  }

  ghost predicate AnsweredSince(evs: seq<Event>, i: nat, n: nat, id: TaskId, answer: Option<Generated>)
    requires n <= |evs|
  {
    answer.Some? ==> exists j :: i < j < n && evs[j] == Answers(id, answer.value)
  }

  lemma {:induction false} FlightsHaveHistory(states: seq<Sys>, evs: seq<Event>, n: nat, id: TaskId)
    requires IsRun(states, evs) && n < |states| && id in states[n].flights
    ensures HasHistory(states, evs, n, id)
  {
    var before, ev, f := states[n - 1], evs[n - 1], states[n].flights[id];
    if id in before.flights {
      FlightsHaveHistory(states, evs, n - 1, id);
      var i :| 0 <= i < n - 1 && BeganAt(states, evs, i, id, before.flights[id]) && AnsweredSince(evs, i, n - 1, id, before.flights[id].answer);
      assert BeganAt(states, evs, i, id, f);
      if ev.Answers? && ev.id == id {
        assert evs[n - 1] == Answers(id, f.answer.value);
      } else {
        assert f == before.flights[id];
      }
      assert AnsweredSince(evs, i, n, id, f.answer);
    } else {
      assert BeganAt(states, evs, n - 1, id, f) && AnsweredSince(evs, n - 1, n, id, f.answer);
    }
  }

  /** At every moment the questions and the rubric are both empty, or were last touched by a recruiter's edit, or are
      both, whole, what the model answered one and the same task of this run. */
  lemma {:induction false} ContentsAreWhole(states: seq<Sys>, evs: seq<Event>, n: nat)
    requires IsRun(states, evs) && n < |states|
    ensures var p := states[n].row.plan;
      match LastWrite(states, evs, n)
      case None => p.questions == [] && p.criteria == []
      case Some(m) =>
        evs[m].Installs? ==>
          var f := states[m].flights[evs[m].id];
          && p.questions == Rows(f.answer.value.questions) && p.criteria == CriterionRows(f.answer.value.criteria)
          && HasHistory(states, evs, m, evs[m].id)
  {
    hide Step, HasHistory, Rows, CriterionRows;
    if n > 0 {
      if Writes(states[n - 1], evs[n - 1]) {
        if evs[n - 1].Installs? {
          InstallWritesItsAnswer(states[n - 1], evs[n - 1]);
          FlightsHaveHistory(states, evs, n - 1, evs[n - 1].id);
        }
      } else {
        OnlyWritesWrite(states[n - 1], evs[n - 1]);
        ContentsAreWhole(states, evs, n - 1);
      }
    }
  }

  /** Ready, with no generation under way. */
  ghost predicate Settled(s: Sys) {
    s.row.plan.generation == READY && s.flights == map[]
  }

  predicate Forces(ev: Event) {
    ev.TaskRuns? && ev.force
  }

  lemma StepKeepsSettled(s: Sys, ev: Event)
    requires Settled(s) && Enabled(s, ev) && !Forces(ev)
    ensures Settled(Step(s, ev)) && (Writes(s, ev) ==> ev.Edits?)
  {
  }

  /** Once a plan is ready with no generation under way, it stays ready, and its questions and rubric change by a
      recruiter's edit alone, until somebody forces a generation: redelivered and duplicate tasks touch nothing. */
  lemma {:induction false} ReadyPlanIsTheRecruiters(states: seq<Sys>, evs: seq<Event>, a: nat, b: nat)
    requires IsRun(states, evs) && a <= b < |states| && Settled(states[a])
    requires forall i :: a <= i < b ==> !Forces(evs[i])
    ensures Settled(states[b])
    ensures forall i :: a <= i < b && !evs[i].Edits? ==>
      states[i + 1].row.plan.questions == states[i].row.plan.questions &&
      states[i + 1].row.plan.criteria == states[i].row.plan.criteria
    decreases b
  {
    hide Step;
    if a < b {
      ReadyPlanIsTheRecruiters(states, evs, a, b - 1);
      StepKeepsSettled(states[b - 1], evs[b - 1]);
      if !evs[b - 1].Edits? {
        OnlyWritesWrite(states[b - 1], evs[b - 1]);
      }
    }
  }

  // ---------------------------------------------------------------------------
  // What the row says it was generated from
  // ---------------------------------------------------------------------------

  /** The row names what each live generation read. */
  ghost predicate Recorded(s: Sys) {
    forall a :: Live(s, a) ==>
      && (s.flights[a].resume.Some? ==> s.row.resume == s.flights[a].resume)
      && (s.flights[a].description.Some? ==> s.row.description == s.flights[a].description)
  }

  /** A recruiter's click points the row at another resume while a generation is reading this one. */
  ghost predicate Diverts(s: Sys, ev: Event) {
    ev.AttachesResume? && exists a :: Live(s, a) && s.flights[a].resume.Some? && s.flights[a].resume != Some(ev.found)
  }

  lemma StepKeepsRecorded(s: Sys, ev: Event)
    requires Exclusive(s) && Recorded(s) && Enabled(s, ev) && Safe(s, ev)
    ensures Recorded(Step(s, ev)) <==> !Diverts(s, ev)
  {
    var s' := Step(s, ev);
    assert forall a :: Live(s', a) && a in s.flights && !(ev.TaskRuns? && a == ev.id) ==>
      Live(s, a) && s'.flights[a].resume == s.flights[a].resume && s'.flights[a].description == s.flights[a].description;
    if ev.AttachesResume? {
      assert forall a :: Live(s', a) <==> Live(s, a);
    }
    if ev.TaskRuns? && Decide(s.row, s.now, ev.force, ev.resumePending).Begins? {
      assert forall a :: !Live(s, a);
    }
  }

  lemma {:induction false} UndivertedRunsRecord(states: seq<Sys>, evs: seq<Event>, n: nat)
    requires IsRun(states, evs) && n < |states|
    requires forall i :: 0 <= i < n ==> Safe(states[i], evs[i]) && !Diverts(states[i], evs[i])
    ensures Recorded(states[n])
  {
    if n > 0 {
      UndivertedRunsRecord(states, evs, n - 1);
      SafeRunsExclude(states, evs, n - 1);
      StepKeepsRecorded(states[n - 1], evs[n - 1]);
    }
  }

  /** Over a safe run the row names what every live generation read, exactly when nobody points it elsewhere meanwhile. */
  lemma RowNamesWhatWasRead(states: seq<Sys>, evs: seq<Event>, n: nat)
    requires IsRun(states, evs) && n < |states| && forall i :: 0 <= i < n ==> Safe(states[i], evs[i])
    ensures (forall k :: 0 <= k <= n ==> Recorded(states[k])) <==> (forall i :: 0 <= i < n ==> !Diverts(states[i], evs[i]))
  {
    if forall k :: 0 <= k <= n ==> Recorded(states[k]) {
      forall i | 0 <= i < n
        ensures !Diverts(states[i], evs[i])
      {
        SafeRunsExclude(states, evs, i);
        StepKeepsRecorded(states[i], evs[i]);
        assert Recorded(states[i + 1]);
      }
    }
    if forall i :: 0 <= i < n ==> !Diverts(states[i], evs[i]) {
      forall k | 0 <= k <= n
        ensures Recorded(states[k])
      {
        UndivertedRunsRecord(states, evs, k);
      }
    }
  }
}
