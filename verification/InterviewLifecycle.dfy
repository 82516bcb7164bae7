/** The interview's status: which moves are legal, who makes them, and what hangs off the end.

  A handler is one transaction: it commits whole or, if it raises, not at all.  The bus
  delivers session events in any order, possibly twice, and drops a handler that raises.
*/
module InterviewLifecycle {
  import opened Text
  import QuestionPlan

  datatype Status = CREATED | INVITED | IN_PROGRESS | COMPLETED | ABANDONED | TERMINATED | EXPIRED

  type Id = nat

  datatype Interview = Interview(
    status: Status,
    createdAt: int,
    startedAt: Option<int>,
    completedAt: Option<int>,
    recording: Option<string>)

  datatype Failure = NotFound | IllegalTransition | AlreadyEnded | EmptyPlan
  datatype Result<T> = Ok(value: T) | Err(failure: Failure)

  function Legal(current: Status): set<Status> {
    match current
    case CREATED => {INVITED, EXPIRED, ABANDONED}
    case INVITED => {IN_PROGRESS, EXPIRED, ABANDONED, TERMINATED}
    case IN_PROGRESS => {COMPLETED, ABANDONED, TERMINATED}
    case _ => {}
  }

  predicate Terminal(status: Status) {
    Legal(status) == {}
  }

  /** The one place a status changes; arriving stamps its column unless it is already stamped. */
  function Transition(iv: Interview, target: Status, now: int): Result<Interview> {
    if iv.status == target then Ok(iv)
    else if target !in Legal(iv.status) then Err(IllegalTransition)
    else
      var moved := iv.(status := target);
      match target
      case CREATED => Ok(moved)
      case INVITED => Ok(moved)
      case IN_PROGRESS => Ok(if iv.startedAt.None? then moved.(startedAt := Some(now)) else moved)
      case _ => Ok(if iv.completedAt.None? then moved.(completedAt := Some(now)) else moved)
  }

  const SUPERSEDED := "superseded"

  function TargetOf(reason: string): Status {
    if reason == "completed" || reason == "timed_out" then COMPLETED
    else if reason == "terminated" then TERMINATED
    else ABANDONED
  }

  function Finish(iv: Interview, reason: string, now: int): Result<Interview> {
    if reason == SUPERSEDED || Terminal(iv.status) then Ok(iv) else Transition(iv, TargetOf(reason), now)
  }

  function Terminate(iv: Interview, now: int): Result<Interview> {
    if Terminal(iv.status) then Err(AlreadyEnded) else Transition(iv, TERMINATED, now)
  }

  /** Going live freezes the plan, if there is one with questions to ask. */
  function Start(iv: Interview, plan: Option<QuestionPlan.Plan>, now: int): Result<(Interview, Option<QuestionPlan.Plan>)> {
    if Terminal(iv.status) then Err(AlreadyEnded)
    else
      var moved := Transition(iv, IN_PROGRESS, now);
      if moved.Err? then Err(moved.failure)
      else if plan.None? || plan.value.status == QuestionPlan.FROZEN || plan.value.questions == [] then Ok((moved.value, plan))
      else
        var frozen := QuestionPlan.Freeze(plan.value);
        if frozen.Err? then Err(EmptyPlan) else Ok((moved.value, Some(frozen.value)))
  }

  datatype Ended = Ended(interview: Interview, chain: bool)

  /** The session-ended handler: finish, keep the recording, and say whether the chain is due. */
  function SessionEnd(iv: Interview, reason: string, key: Option<string>, now: int): Result<Ended> {
    var finished := Finish(iv, reason, now);
    if finished.Err? then Err(finished.failure)
    else
      var iv' := if key.Some? && key.value != "" then finished.value.(recording := key) else finished.value;
      Ok(Ended(iv', !Terminal(iv.status) && Terminal(iv'.status)))
  }

  predicate Stale(iv: Interview, cutoff: int) {
    iv.status in {CREATED, INVITED} && iv.createdAt < cutoff
  }

  /** The reaper's single UPDATE. */
  function ExpireAll(rows: map<Id, Interview>, cutoff: int, now: int): map<Id, Interview> {
    map id | id in rows ::
      if Stale(rows[id], cutoff) then rows[id].(status := EXPIRED, completedAt := Some(now)) else rows[id]
  }

  // ---------------------------------------------------------------------------
  // Runs over a table of interviews
  // ---------------------------------------------------------------------------

  /** `due` are the interviews whose handler has committed but not yet enqueued, `lost` those whose enqueue failed. */
  datatype World = World(
    rows: map<Id, Interview>,
    plans: map<Id, QuestionPlan.Plan>,
    due: set<Id>,
    lost: set<Id>,
    chains: seq<Id>)

  datatype Event =
    | Creates(id: Id, invited: bool, now: int)
    | SessionStarts(id: Id, now: int)
    | SessionEnds(id: Id, reason: string, key: Option<string>, now: int)
    | Enqueues(id: Id)          // after the commit, from the handler of a session's end
    | EnqueueFails(id: Id)
    | Terminates(id: Id, now: int)
    | Reaps(cutoff: int, now: int)
    | PlanChanges(id: Id, plan: QuestionPlan.Plan)

  const EMPTY: World := World(map[], map[], {}, {}, [])

  function PlanOf(w: World, id: Id): Option<QuestionPlan.Plan> {
    if id in w.plans then Some(w.plans[id]) else None
  }

  function Step(w: World, ev: Event): World {
    match ev
    case Creates(id, invited, now) =>
      if id in w.rows then w
      else w.(rows := w.rows[id := Interview(if invited then INVITED else CREATED, now, None, None, None)])
    case SessionStarts(id, now) =>
      if id !in w.rows then w
      else
        var r := Start(w.rows[id], PlanOf(w, id), now);
        if r.Err? then w
        else w.(rows := w.rows[id := r.value.0],
                plans := if r.value.1.Some? then w.plans[id := r.value.1.value] else w.plans)
    case SessionEnds(id, reason, key, now) =>
      if id !in w.rows then w
      else
        var r := SessionEnd(w.rows[id], reason, key, now);
        if r.Err? then w
        else w.(rows := w.rows[id := r.value.interview], due := if r.value.chain then w.due + {id} else w.due)
    case Enqueues(id) => if id in w.due then w.(due := w.due - {id}, chains := w.chains + [id]) else w
    case EnqueueFails(id) => if id in w.due then w.(due := w.due - {id}, lost := w.lost + {id}) else w
    case Terminates(id, now) =>
      if id !in w.rows then w
      else
        var r := Terminate(w.rows[id], now);
        if r.Err? then w else w.(rows := w.rows[id := r.value])
    case Reaps(cutoff, now) => w.(rows := ExpireAll(w.rows, cutoff, now))
    case PlanChanges(id, plan) => w.(plans := w.plans[id := plan])
  }

  /** What a handler raises, if it does; it then leaves no trace. */
  function Raises(w: World, ev: Event): Option<Failure> {
    match ev
    case SessionStarts(id, now) =>
      if id !in w.rows then Some(NotFound) else FailureOf(Start(w.rows[id], PlanOf(w, id), now))
    case SessionEnds(id, reason, key, now) =>
      if id !in w.rows then Some(NotFound) else FailureOf(SessionEnd(w.rows[id], reason, key, now))
    case Terminates(id, now) =>
      if id !in w.rows then Some(NotFound) else FailureOf(Terminate(w.rows[id], now))
    case _ => None
  }

  function FailureOf<T>(r: Result<T>): Option<Failure> {
    if r.Err? then Some(r.failure) else None
  }

  class InterviewTable {
    var rows: map<Id, Interview>
    var plans: map<Id, QuestionPlan.Plan>
    var due: set<Id>
    var lost: set<Id>
    var chains: seq<Id>

    ghost function View(): World
      reads this
    {
      World(rows, plans, due, lost, chains)
    }

    constructor ()
      ensures View() == EMPTY
    {
      rows, plans, due, lost, chains := map[], map[], {}, {}, [];
    }

    /** Move one row; a no-op re-entry reports that nothing changed. */
    method Move(id: Id, target: Status, now: int) returns (r: Result<bool>)
      requires id in rows
      modifies this`rows
      ensures match Transition(old(rows)[id], target, now)
        case Ok(iv) => rows == old(rows)[id := iv] && r == Ok(iv.status != old(rows)[id].status)
        case Err(failure) => rows == old(rows) && r == Err(failure)
    {
      var iv := rows[id];
      if iv.status == target {
        return Ok(false);
      }
      if target !in Legal(iv.status) {
        return Err(IllegalTransition);
      }
      iv := iv.(status := target);
      if target == IN_PROGRESS {
        if iv.startedAt.None? {
          iv := iv.(startedAt := Some(now));
        }
      } else if target in {COMPLETED, ABANDONED, TERMINATED, EXPIRED} {
        if iv.completedAt.None? {
          iv := iv.(completedAt := Some(now));
        }
      }
      rows := rows[id := iv];
      return Ok(true);
    }

    method OnSessionStarted(id: Id, now: int) returns (failure: Option<Failure>)
      modifies this
      ensures View() == Step(old(View()), SessionStarts(id, now))
      ensures failure == Raises(old(View()), SessionStarts(id, now))
    {
      if id !in rows {
        return Some(NotFound);
      }
      var before := rows;
      if Terminal(rows[id].status) {
        return Some(AlreadyEnded);
      }
      var moved := Move(id, IN_PROGRESS, now);
      if moved.Err? {
        return Some(moved.failure);
      }
      if id in plans && plans[id].status != QuestionPlan.FROZEN && plans[id].questions != [] {
        var frozen := QuestionPlan.Freeze(plans[id]);
        if frozen.Err? {
          rows := before;   // rolled back
          return Some(EmptyPlan);
        }
        plans := plans[id := frozen.value];
      }
      return None;
    }

    method OnSessionEnded(id: Id, reason: string, key: Option<string>, now: int) returns (failure: Option<Failure>)
      modifies this
      ensures View() == Step(old(View()), SessionEnds(id, reason, key, now))
      ensures failure == Raises(old(View()), SessionEnds(id, reason, key, now))
    {
      if id !in rows {
        return Some(NotFound);
      }
      var wasTerminal := Terminal(rows[id].status);
      if reason != SUPERSEDED && !wasTerminal {
        var moved := Move(id, TargetOf(reason), now);
        if moved.Err? {
          return Some(moved.failure);
        }
      }
      if key.Some? && key.value != "" {
        rows := rows[id := rows[id].(recording := key)];
      }
      if !wasTerminal && Terminal(rows[id].status) {
        due := due + {id};
      }
      return None;
    }

    /** The rest of the handler, outside the transaction. */
    method Enqueue(id: Id, fails: bool)
      requires id in due
      modifies this
      ensures View() == Step(old(View()), if fails then EnqueueFails(id) else Enqueues(id))
    {
      due := due - {id};
      if fails {
        lost := lost + {id};
      } else {
        chains := chains + [id];
      }
    }

    method TerminateInterview(id: Id, now: int) returns (failure: Option<Failure>)
      modifies this`rows
      ensures View() == Step(old(View()), Terminates(id, now))
      ensures failure == Raises(old(View()), Terminates(id, now))
    {
      if id !in rows {
        return Some(NotFound);
      }
      if Terminal(rows[id].status) {
        return Some(AlreadyEnded);
      }
      var moved := Move(id, TERMINATED, now);
      return if moved.Err? then Some(moved.failure) else None;
    }

    method ExpireStale(cutoff: int, now: int) returns (count: nat)
      modifies this`rows
      ensures View() == Step(old(View()), Reaps(cutoff, now))
      ensures rows.Keys == old(rows).Keys
      ensures count == |set id | id in old(rows) && rows[id].status != old(rows)[id].status|
      ensures forall id :: id in rows && rows[id].status in {CREATED, INVITED} ==> cutoff <= rows[id].createdAt
      ensures forall id :: id in rows && rows[id] != old(rows)[id] ==>
        rows[id].status == EXPIRED && !Terminal(old(rows)[id].status) && old(rows)[id].createdAt < cutoff
    {
      count := |set id | id in rows && Stale(rows[id], cutoff)|;
      rows := ExpireAll(rows, cutoff, now);
      assert (set id | id in old(rows) && Stale(old(rows)[id], cutoff))
          == (set id | id in old(rows) && rows[id].status != old(rows)[id].status);
    }
  }

  // ---------------------------------------------------------------------------
  // What every reachable table satisfies
  // ---------------------------------------------------------------------------

  /** Stamped as ended exactly when ended; stamped as started only once live. */
  ghost predicate RowOk(iv: Interview) {
    && (iv.completedAt.Some? <==> Terminal(iv.status))
    && (iv.status in {CREATED, INVITED} ==> iv.startedAt.None?)
    && (iv.status in {IN_PROGRESS, COMPLETED} ==> iv.startedAt.Some?)
  }

  ghost predicate RowsOk(w: World) {
    forall id :: id in w.rows ==> RowOk(w.rows[id])
  }

  /** An interview that is over, and whose chain is due, lost, or enqueued once, and no two of these. */
  ghost predicate ChainsOk(w: World) {
    && (forall id :: id in w.due || id in w.lost || id in w.chains ==> id in w.rows && Terminal(w.rows[id].status))
    && (forall id :: id in w.due ==> id !in w.lost && id !in w.chains)
    && (forall id :: id in w.lost ==> id !in w.chains)
    && (forall i, j :: 0 <= i < j < |w.chains| ==> w.chains[i] != w.chains[j])
  }

  ghost predicate Inv(w: World) {
    RowsOk(w) && ChainsOk(w)
  }

  /** The moment a step stamps. */
  function Clock(ev: Event): Option<int> {
    match ev
    case SessionStarts(_, now) => Some(now)
    case SessionEnds(_, _, _, now) => Some(now)
    case Terminates(_, now) => Some(now)
    case Reaps(_, now) => Some(now)
    case _ => None
  }

  /** What one step may do to one row. */
  ghost predicate Advances(before: Interview, after: Interview, clock: Option<int>) {
    && (after.status == before.status || after.status in Legal(before.status))
    && after.createdAt == before.createdAt
    && after.completedAt in {before.completedAt, clock} && (before.completedAt.Some? ==> after.completedAt == before.completedAt)
    && after.startedAt in {before.startedAt, clock} && (before.startedAt.Some? ==> after.startedAt == before.startedAt)
  }

  lemma StepAdvancesRows(w: World, ev: Event, id: Id)
    requires RowsOk(w) && id in w.rows
    ensures id in Step(w, ev).rows && Advances(w.rows[id], Step(w, ev).rows[id], Clock(ev))
  {
  }

  lemma StepKeepsRows(w: World, ev: Event, id: Id)
    requires RowsOk(w) && id in Step(w, ev).rows
    ensures RowOk(Step(w, ev).rows[id])
  {
  }

  /** Only the end of a session makes a chain due, and only for an interview it ends. */
  lemma DueOnlyAtEnds(w: World, ev: Event)
    ensures var w' := Step(w, ev);
      w'.due + w'.lost + (set id | id in w'.chains)
      == w.due + w.lost + (set id | id in w.chains) + if EndsBySession(w, ev) then {ev.id} else {}
  {
    var w' := Step(w, ev);
    assert forall id :: id in w'.chains <==> id in w.chains || (ev.Enqueues? && id == ev.id && id in w.due);
  }

  /** This step is a session's end that ends the interview. */
  predicate EndsBySession(w: World, ev: Event) {
    && ev.SessionEnds? && ev.id in w.rows && !Terminal(w.rows[ev.id].status)
    && ev.id in Step(w, ev).rows && Terminal(Step(w, ev).rows[ev.id].status)
  }

  lemma StepKeepsChains(w: World, ev: Event)
    requires Inv(w)
    ensures ChainsOk(Step(w, ev))
  {
    var w' := Step(w, ev);
    DueOnlyAtEnds(w, ev);
    forall id | id in w.due || id in w.lost || id in w.chains
      ensures id in w'.rows && Terminal(w'.rows[id].status)
    {
      StepAdvancesRows(w, ev, id);
    }
    forall id | id in w'.due || id in w'.lost || id in w'.chains
      ensures id in w'.rows && Terminal(w'.rows[id].status)
    {
      assert id in w'.due + w'.lost + (set i | i in w'.chains);
    }
  }

  lemma StepKeepsInv(w: World, ev: Event)
    requires Inv(w)
    ensures Inv(Step(w, ev))
  {
    StepKeepsChains(w, ev);
    forall id | id in Step(w, ev).rows
      ensures RowOk(Step(w, ev).rows[id])
    {
      StepKeepsRows(w, ev, id);
    }
  }

  ghost predicate IsRun(states: seq<World>, evs: seq<Event>) {
    && |states| == |evs| + 1
    && states[0] == EMPTY
    && forall i :: 0 <= i < |evs| ==> states[i + 1] == Step(states[i], evs[i])
  }

  lemma {:induction false} RunsKeepInv(states: seq<World>, evs: seq<Event>, n: nat)
    requires IsRun(states, evs) && n < |states|
    ensures Inv(states[n])
  {
    hide Step;
    if n > 0 {
      RunsKeepInv(states, evs, n - 1);
      StepKeepsInv(states[n - 1], evs[n - 1]);
    }
  }

  /** Once over, an interview keeps its status and the moment it ended. */
  lemma {:induction false} TerminalAbsorbs(states: seq<World>, evs: seq<Event>, id: Id, a: nat, b: nat)
    requires IsRun(states, evs) && a <= b < |states|
    requires id in states[a].rows && Terminal(states[a].rows[id].status)
    ensures id in states[b].rows && states[b].rows[id].status == states[a].rows[id].status
    ensures states[b].rows[id].completedAt == states[a].rows[id].completedAt
    decreases b
  {
    hide Step;
    RunsKeepInv(states, evs, a);
    if a < b {
      TerminalAbsorbs(states, evs, id, a, b - 1);
      RunsKeepInv(states, evs, b - 1);
      StepAdvancesRows(states[b - 1], evs[b - 1], id);
    }
  }

  // ---------------------------------------------------------------------------
  // How an interview came to be what it is
  // ---------------------------------------------------------------------------

  /** How this step ends the interviews it ends. */
  function Ending(ev: Event): Status {
    match ev
    case SessionEnds(_, reason, _, _) =>
      if reason in {"completed", "timed_out"} then COMPLETED else if reason == "terminated" then TERMINATED else ABANDONED
    case Terminates(_, _) => TERMINATED
    case _ => EXPIRED
  }

  /** The steps that can end this interview. */
  predicate EndsIt(w: World, ev: Event, id: Id)
    requires id in w.rows
  {
    var iv := w.rows[id];
    match ev
    case SessionEnds(of, reason, _, _) =>
      of == id && reason != "superseded" &&
      (iv.status == IN_PROGRESS || Ending(ev) == ABANDONED || (iv.status == INVITED && Ending(ev) == TERMINATED))
    case Terminates(of, _) => of == id && iv.status in {INVITED, IN_PROGRESS}
    case Reaps(cutoff, _) => iv.status in {CREATED, INVITED} && iv.createdAt < cutoff
    case _ => false
  }

  lemma StepEnds(w: World, ev: Event, id: Id)
    requires id in w.rows && !Terminal(w.rows[id].status) && w.rows[id].completedAt.None?
    ensures id in Step(w, ev).rows && (Terminal(Step(w, ev).rows[id].status) <==> EndsIt(w, ev, id))
    ensures EndsIt(w, ev, id) ==>
      Step(w, ev).rows[id].status == Ending(ev) && Step(w, ev).rows[id].completedAt == Clock(ev) && Clock(ev).Some?
  {
  }

  lemma StepBegins(w: World, ev: Event, id: Id)
    requires id !in w.rows && id in Step(w, ev).rows
    ensures ev.Creates? && ev.id == id
    ensures Step(w, ev).rows[id] == Interview(if ev.invited then INVITED else CREATED, ev.now, None, None, None)
  {
  }

  /** Step `i` ends the interview. */
  ghost predicate EndedAt(states: seq<World>, evs: seq<Event>, i: nat, id: Id)
    requires IsRun(states, evs) && i < |evs|
  {
    id in states[i].rows && !Terminal(states[i].rows[id].status) && EndsIt(states[i], evs[i], id)
  }

  /** Over every run an interview is over, with this status, exactly if a session's end, a termination or the reaper ended
      it so while it still could: a session's end by its reason, a termination once invited, the reaper before it was
      joined; and that step's time is the time it ended. */
  lemma {:induction false} HowItEnded(states: seq<World>, evs: seq<Event>, n: nat, id: Id, status: Status)
    requires IsRun(states, evs) && n < |states| && Terminal(status)
    ensures id in states[n].rows && states[n].rows[id].status == status <==>
      exists i :: 0 <= i < n && EndedAt(states, evs, i, id) && Ending(evs[i]) == status
    ensures forall i :: 0 <= i < n && EndedAt(states, evs, i, id) && id in states[n].rows ==>
      states[n].rows[id].completedAt == Clock(evs[i])
  {
    hide Step, EndsIt, Ending, Clock;
    if n > 0 {
      var m := n - 1;
      HowItEnded(states, evs, m, id, status);
      RunsKeepInv(states, evs, m);
      if id !in states[m].rows {
        NotEndedBefore(states, evs, m, id);
        if id in states[n].rows {
          StepBegins(states[m], evs[m], id);
        }
      } else if Terminal(states[m].rows[id].status) {
        StepAdvancesRows(states[m], evs[m], id);
      } else {
        StepEnds(states[m], evs[m], id);
        NotEndedBefore(states, evs, m, id);
      }
    }
  }

  lemma NotEndedBefore(states: seq<World>, evs: seq<Event>, n: nat, id: Id)
    requires IsRun(states, evs) && n < |states| && (id in states[n].rows ==> !Terminal(states[n].rows[id].status))
    ensures forall i :: 0 <= i < n ==> !EndedAt(states, evs, i, id)
  {
    hide Step, EndsIt;
    forall i | 0 <= i < n
      ensures !EndedAt(states, evs, i, id)
    {
      if EndedAt(states, evs, i, id) {
        RunsKeepInv(states, evs, i);
        StepEnds(states[i], evs[i], id);
        TerminalAbsorbs(states, evs, id, i + 1, n);
      }
    }
  }

  /** This step leaves the interview this recording. */
  function Records(w: World, ev: Event, id: Id): Option<string> {
    if ev.SessionEnds? && ev.id == id && Raises(w, ev).None? && ev.key != Some("") then ev.key else None
  }

  lemma StepRecords(w: World, ev: Event, id: Id)
    requires id in w.rows
    ensures id in Step(w, ev).rows
    ensures Step(w, ev).rows[id].recording == if Records(w, ev, id).Some? then Records(w, ev, id) else w.rows[id].recording
  {
  }

  lemma NothingToRecord(w: World, ev: Event, id: Id)
    requires id !in w.rows
    ensures Records(w, ev, id).None?
  {
  }

  /** Step `i` is the last of the first `n` to leave the interview a recording, and it leaves this one. */
  ghost predicate LastRecords(states: seq<World>, evs: seq<Event>, i: nat, n: nat, id: Id, key: string)
    requires IsRun(states, evs) && i < n <= |evs|
  {
    Records(states[i], evs[i], id) == Some(key) && forall k :: i < k < n ==> Records(states[k], evs[k], id).None?
  }

  /** Over every run the recording kept is that of the last session's end that had one and did not raise. */
  lemma {:induction false} RecordingIsTheLast(states: seq<World>, evs: seq<Event>, n: nat, id: Id, key: string)
    requires IsRun(states, evs) && n < |states|
    ensures id in states[n].rows && states[n].rows[id].recording == Some(key) <==>
      exists i :: 0 <= i < n && LastRecords(states, evs, i, n, id, key)
  {
    hide Step, Records;
    if n > 0 {
      var m := n - 1;
      RecordingIsTheLast(states, evs, m, id, key);
      if id in states[m].rows {
        StepRecords(states[m], evs[m], id);
      } else {
        NothingToRecord(states[m], evs[m], id);
        if id in states[n].rows {
          StepBegins(states[m], evs[m], id);
        }
      }
      if Records(states[m], evs[m], id).Some? {
        assert LastRecords(states, evs, m, n, id, Records(states[m], evs[m], id).value);
      } else {
        assert !LastRecords(states, evs, m, n, id, key);
        assert forall i :: 0 <= i < m ==>
          (LastRecords(states, evs, i, n, id, key) <==> LastRecords(states, evs, i, m, id, key));
      }
    }
  }

  /** Every row was created in the run, invited or not, at the time it says. */
  lemma {:induction false} EveryRowWasCreated(states: seq<World>, evs: seq<Event>, n: nat, id: Id) returns (i: nat)
    requires IsRun(states, evs) && n < |states| && id in states[n].rows
    ensures i < n && evs[i].Creates? && evs[i].id == id && id !in states[i].rows && id in states[i + 1].rows
    ensures evs[i].now == states[n].rows[id].createdAt
    ensures states[i + 1].rows[id] == Interview(if evs[i].invited then INVITED else CREATED, evs[i].now, None, None, None)
  {
    hide Step;
    if id in states[n - 1].rows {
      i := EveryRowWasCreated(states, evs, n - 1, id);
      RunsKeepInv(states, evs, n - 1);
      StepAdvancesRows(states[n - 1], evs[n - 1], id);
    } else {
      StepBegins(states[n - 1], evs[n - 1], id);
      i := n - 1;
    }
  }

  /** The post-interview chain is enqueued once at most, and only for an interview that is over. */
  lemma ChainOnce(states: seq<World>, evs: seq<Event>, n: nat, i: nat, j: nat)
    requires IsRun(states, evs) && n < |states| && i < |states[n].chains| && j < |states[n].chains|
    requires states[n].chains[i] == states[n].chains[j]
    ensures i == j && states[n].chains[i] in states[n].rows && Terminal(states[n].rows[states[n].chains[i]].status)
  {
    RunsKeepInv(states, evs, n);
  }

  /** Whether a session's end has ended this interview within the first `n` steps. */
  ghost predicate EndedBySession(states: seq<World>, evs: seq<Event>, n: nat, id: Id)
    requires IsRun(states, evs) && n < |states|
  {
    exists i :: 0 <= i < n && EndsBySession(states[i], evs[i]) && evs[i].id == id
  }

  /** A chain is due, lost or enqueued for exactly the interviews that a session's end has ended. */
  lemma {:induction false} ChainsAreForSessionEnds(states: seq<World>, evs: seq<Event>, n: nat, id: Id)
    requires IsRun(states, evs) && n < |states|
    ensures id in states[n].due || id in states[n].lost || id in states[n].chains <==> EndedBySession(states, evs, n, id)
  {
    hide Step;
    if n > 0 {
      var w, w' := states[n - 1], states[n];
      ChainsAreForSessionEnds(states, evs, n - 1, id);
      DueOnlyAtEnds(w, evs[n - 1]);
      assert id in w.due + w.lost + (set i | i in w.chains) <==> id in w.due || id in w.lost || id in w.chains;
      assert id in w'.due + w'.lost + (set i | i in w'.chains) <==> id in w'.due || id in w'.lost || id in w'.chains;
      assert EndedBySession(states, evs, n, id) <==>
        EndedBySession(states, evs, n - 1, id) || (EndsBySession(w, evs[n - 1]) && evs[n - 1].id == id);
    }
  }

  lemma StepEnqueues(w: World, ev: Event, id: Id)
    ensures id in Step(w, ev).chains <==> id in w.chains || (ev == Enqueues(id) && id in w.due)
  {
  }

  /** And enqueued for exactly those whose handler got to enqueue it while it was due. */
  lemma {:induction false} ChainedExactly(states: seq<World>, evs: seq<Event>, n: nat, id: Id)
    requires IsRun(states, evs) && n < |states|
    ensures id in states[n].chains <==> exists i :: 0 <= i < n && evs[i] == Enqueues(id) && id in states[i].due
  {
    hide Step;
    if n > 0 {
      ChainedExactly(states, evs, n - 1, id);
      StepEnqueues(states[n - 1], evs[n - 1], id);
    }
  }

  /** So an interview that a recruiter, proctoring or the reaper ended never gets one. */
  lemma OtherEndsGetNoChain(states: seq<World>, evs: seq<Event>, i: nat, n: nat, id: Id)
    requires IsRun(states, evs) && i < |evs| && n < |states|
    requires (evs[i].Terminates? && evs[i].id == id) || evs[i].Reaps?
    requires id in states[i].rows && !Terminal(states[i].rows[id].status)
    requires id in states[i + 1].rows && Terminal(states[i + 1].rows[id].status)
    ensures id !in states[n].due && id !in states[n].lost && id !in states[n].chains
  {
    hide Step;
    ChainsAreForSessionEnds(states, evs, n, id);
    if EndedBySession(states, evs, n, id) {
      var k :| 0 <= k < n && EndsBySession(states[k], evs[k]) && evs[k].id == id;
      if k < i {
        TerminalAbsorbs(states, evs, id, k + 1, i);
      } else if i < k {
        TerminalAbsorbs(states, evs, id, i + 1, k);
      }
      assert false;
    }
  }

  /** A superseded session ends nothing. */
  lemma SupersededMovesNothing(w: World, id: Id, key: Option<string>, now: int)
    requires id in w.rows
    ensures var w' := Step(w, SessionEnds(id, SUPERSEDED, key, now));
      w'.due == w.due && w'.chains == w.chains && w'.rows[id].(recording := None) == w.rows[id].(recording := None)
  {
  }

  // ---------------------------------------------------------------------------
  // The bulk expiry is the loop it replaces
  // ---------------------------------------------------------------------------

  function ExpireEach(rows: map<Id, Interview>, ids: seq<Id>, now: int): map<Id, Interview>
    requires forall id :: id in ids ==> id in rows
    decreases |ids|
  {
    if ids == [] then rows
    else
      var r := Transition(rows[ids[0]], EXPIRED, now);
      ExpireEach(if r.Ok? then rows[ids[0] := r.value] else rows, ids[1..], now)
  }

  lemma {:induction false} ExpireEachAt(rows: map<Id, Interview>, ids: seq<Id>, now: int, id: Id)
    requires forall i :: i in ids ==> i in rows
    requires id in rows
    requires RowOk(rows[id]) && (id in ids ==> rows[id].status in {CREATED, INVITED, EXPIRED})
    ensures ExpireEach(rows, ids, now).Keys == rows.Keys
    ensures ExpireEach(rows, ids, now)[id] ==
            if id in ids && rows[id].status != EXPIRED then rows[id].(status := EXPIRED, completedAt := Some(now)) else rows[id]
    decreases |ids|
  {
    if ids != [] {
      var r := Transition(rows[ids[0]], EXPIRED, now);
      var rows' := if r.Ok? then rows[ids[0] := r.value] else rows;
      assert rows'.Keys == rows.Keys;
      ExpireEachAt(rows', ids[1..], now, id);
    }
  }

  /** Any enumeration of the stale rows, one legal transition each, gives the bulk UPDATE's result. */
  lemma BulkExpiryIsTheLoop(states: seq<World>, evs: seq<Event>, n: nat, ids: seq<Id>, cutoff: int, now: int)
    requires IsRun(states, evs) && n < |states|
    requires forall id :: id in ids <==> id in states[n].rows && Stale(states[n].rows[id], cutoff)
    ensures ExpireEach(states[n].rows, ids, now) == ExpireAll(states[n].rows, cutoff, now)
  {
    var rows := states[n].rows;
    RunsKeepInv(states, evs, n);
    forall id | id in rows
      ensures ExpireEach(rows, ids, now).Keys == rows.Keys
      ensures ExpireEach(rows, ids, now)[id] == ExpireAll(rows, cutoff, now)[id]
    {
      ExpireEachAt(rows, ids, now, id);
    }
    assert ids == [] || ids[0] in ids;
  }

  // ---------------------------------------------------------------------------
  // Where it can fail
  // ---------------------------------------------------------------------------

  /** The finish raises exactly when it is asked to complete an interview nobody joined,
      or to do anything but abandon one nobody was invited to. */
  lemma FinishRaises(iv: Interview, reason: string, now: int)
    ensures Finish(iv, reason, now).Err? <==>
            reason != SUPERSEDED &&
            ((iv.status == INVITED && TargetOf(reason) == COMPLETED) || (iv.status == CREATED && TargetOf(reason) != ABANDONED))
  {
  }

  /** A plan with questions but no rubric, not yet frozen: going live would have to freeze it and cannot. */
  predicate Blocks(plan: Option<QuestionPlan.Plan>) {
    plan.Some? && plan.value.status != QuestionPlan.FROZEN && plan.value.questions != [] && plan.value.criteria == []
  }

  /** What each handler raises, and that it leaves no trace when it does: an interview there is not, one that is over, a
      move that is not a legal edge, or a plan that cannot freeze. */
  lemma WhatIsRaised(w: World, ev: Event)
    requires ev.SessionStarts? || ev.SessionEnds? || ev.Terminates?
    ensures var iv, none := if ev.id in w.rows then Some(w.rows[ev.id]) else None, ev.id !in w.rows;
      Raises(w, ev) ==
        if none then Some(NotFound)
        else if !ev.SessionEnds? && Terminal(iv.value.status) then Some(AlreadyEnded)
        else if ev.SessionEnds? && !Finish(iv.value, ev.reason, ev.now).Err? then None
        else if ev.SessionEnds? || iv.value.status == CREATED then Some(IllegalTransition)
        else if ev.SessionStarts? && Blocks(PlanOf(w, ev.id)) then Some(EmptyPlan)
        else None
    ensures Raises(w, ev).Some? ==> Step(w, ev) == w
  {
  }

  lemma StatusAfterStart(w: World, id: Id, t: int)
    requires id in w.rows
    ensures var w' := Step(w, SessionStarts(id, t));
      && id in w'.rows
      && w'.rows[id].status == if w.rows[id].status in {INVITED, IN_PROGRESS} && !Blocks(PlanOf(w, id)) then IN_PROGRESS else w.rows[id].status
  {
  }

  lemma StatusAfterEnd(w: World, id: Id, reason: string, key: Option<string>, u: int)
    requires id in w.rows
    ensures var w', status := Step(w, SessionEnds(id, reason, key, u)), w.rows[id].status;
      && id in w'.rows && PlanOf(w', id) == PlanOf(w, id)
      && w'.rows[id].status ==
           if reason != SUPERSEDED && (status == IN_PROGRESS || (status == INVITED && TargetOf(reason) != COMPLETED) ||
                                       (status == CREATED && TargetOf(reason) == ABANDONED))
           then TargetOf(reason) else status
  {
  }

  /** One session's two events, delivered in either order: the status comes out the same, unless the session completed
      in an interview nobody had joined whose plan lets it start. */
  lemma BusOrderMatters(w: World, id: Id, reason: string, key: Option<string>, t: int, u: int)
    requires id in w.rows
    ensures var inOrder := Step(Step(w, SessionStarts(id, t)), SessionEnds(id, reason, key, u));
      var swapped := Step(Step(w, SessionEnds(id, reason, key, u)), SessionStarts(id, t));
      && id in inOrder.rows && id in swapped.rows
      && (inOrder.rows[id].status == swapped.rows[id].status <==>
          !(w.rows[id].status == INVITED && reason != SUPERSEDED && TargetOf(reason) == COMPLETED && !Blocks(PlanOf(w, id))))
  {
    hide Step, Blocks, PlanOf;
    StatusAfterStart(w, id, t);
    StatusAfterEnd(Step(w, SessionStarts(id, t)), id, reason, key, u);
    StatusAfterEnd(w, id, reason, key, u);
    StatusAfterStart(Step(w, SessionEnds(id, reason, key, u)), id, t);
  }

  /** A session start takes effect exactly when the interview is joinable and its plan can freeze, and otherwise leaves no
      trace; afterwards the interview is live and its plan, its contents as they were, frozen unless it has no questions. */
  lemma StartTakesEffect(w: World, id: Id, now: int)
    requires id in w.rows
    ensures var ev := SessionStarts(id, now);
      var w' := Step(w, ev);
      && (Raises(w, ev).None? <==> w.rows[id].status in {INVITED, IN_PROGRESS} && !Blocks(PlanOf(w, id)))
      && (Raises(w, ev).Some? ==> w' == w)
      && (Raises(w, ev).None? ==>
            && id in w'.rows && w'.rows[id].status == IN_PROGRESS
            && (PlanOf(w', id).None? <==> PlanOf(w, id).None?)
            && (id in w.plans ==>
                  && id in w'.plans
                  && w'.plans[id].questions == w.plans[id].questions && w'.plans[id].criteria == w.plans[id].criteria
                  && (w'.plans[id].questions != [] ==> w'.plans[id].status == QuestionPlan.FROZEN)))
  {
  }

  /** The plan that blocks a start is one a recruiter can make before any generation has landed. */
  lemma QuestionsWithoutRubricBlockStart(iv: Interview, now: int)
    requires iv.status == INVITED
    ensures var q := QuestionPlan.Question("Tell me about your work.", None);
      var edited := QuestionPlan.ReplaceQuestions(QuestionPlan.INIT, [q], None);
      edited.Ok? && Start(iv, Some(edited.value), now) == Err(EmptyPlan)
  {
    var q := QuestionPlan.Question("Tell me about your work.", None);
    var rows := QuestionPlan.EditRows([q]);
    assert rows[0].body[0] == 'T' by {
      assert !IsSpace(q.body[0]) && SkipLeft(q.body, 0) == 0;
      assert !IsSpace(q.body[|q.body| - 1]) && SkipRight(q.body, 0, |q.body|) == |q.body|;
    }
  }
}
