/** Live voice sessions: reconnect, supersede, and the grace timer that abandons a drop.

  Every function below is one stretch of code between two awaits, so any two of them may
  run in either order.  Sessions and timers are named by identifiers; the two registries
  hold those names.  Two calls of `start` for one interview do not overlap.
*/
module VoiceSessions {
  import opened Text

  type InterviewId = nat
  type SessionId = nat
  type TimerId = nat

  const COMPLETED := "completed"
  const ABANDONED := "abandoned"
  const SUPERSEDED := "superseded"

  /** Leaving: out of the registry, uploading.  Finished: its task is done. */
  datatype Stage = Running | Leaving | Finished
  datatype Session = Session(interview: InterviewId, stage: Stage, reason: string)

  /** Cancelled: `cancel()` was called, and the sleep will raise instead of returning. */
  datatype TimerStage = Sleeping | Cancelled | Fired
  datatype Timer = Timer(interview: InterviewId, stage: TimerStage)

  /** Where a call of `start` has got to. */
  datatype StartStage = Superseding(previous: SessionId) | Building

  datatype State = State(
    sessions: map<InterviewId, SessionId>,
    pendingAbandon: map<InterviewId, TimerId>,
    voice: map<SessionId, Session>,
    timers: map<TimerId, Timer>,
    starts: map<InterviewId, StartStage>,
    ended: seq<(SessionId, string)>)   // SessionEnded events, in order

  datatype Event =
    | StartBegins(iv: InterviewId)
    | StopReturns(iv: InterviewId)        // start's wait for the old session is over
    | StartRegisters(iv: InterviewId, sid: SessionId)
    | StartFails(iv: InterviewId)
    | StopBegins(iv: InterviewId, reason: string)
    | Drops(sid: SessionId, tid: TimerId)
    | GraceLapses(tid: TimerId)
    | RunEnds(sid: SessionId, crashed: bool)
    | Announces(sid: SessionId)
    | AnnouncementFails(sid: SessionId)
    | WaitTimesOut(iv: InterviewId)       // stop's wait expires on a session still running

  const INIT: State := State(map[], map[], map[], map[], map[], [])

  predicate Enabled(s: State, ev: Event) {
    match ev
    case StartBegins(iv) => iv !in s.starts
    case StopReturns(iv) =>
      iv in s.starts && s.starts[iv].Superseding? && s.starts[iv].previous in s.voice && !s.voice[s.starts[iv].previous].stage.Running?
    case StartRegisters(iv, sid) => iv in s.starts && s.starts[iv].Building? && sid !in s.voice
    case StartFails(iv) => iv in s.starts
    case StopBegins(_, _) => true
    case Drops(sid, tid) => sid in s.voice && tid !in s.timers
    case GraceLapses(tid) => tid in s.timers && s.timers[tid].stage.Sleeping?
    case RunEnds(sid, _) => sid in s.voice && s.voice[sid].stage.Running?
    case Announces(sid) => sid in s.voice && s.voice[sid].stage.Leaving?
    case AnnouncementFails(sid) => sid in s.voice && s.voice[sid].stage.Leaving?
    case WaitTimesOut(iv) =>
      iv in s.starts && s.starts[iv].Superseding? && s.starts[iv].previous in s.voice && s.voice[s.starts[iv].previous].stage.Running?
  }

  function WithPendingCancelled(s: State, iv: InterviewId): State {
    if iv !in s.pendingAbandon then s else
      var tid := s.pendingAbandon[iv];
      s.(pendingAbandon := s.pendingAbandon - {iv},
         timers := if tid in s.timers then s.timers[tid := s.timers[tid].(stage := Cancelled)] else s.timers)
  }

  /** `stop` up to its first await. */
  function WithReason(s: State, iv: InterviewId, reason: string): State {
    if iv in s.sessions && s.sessions[iv] in s.voice
    then var sid := s.sessions[iv]; s.(voice := s.voice[sid := s.voice[sid].(reason := reason)])
    else s
  }

  function Step(s: State, ev: Event): State
    requires Enabled(s, ev)
  {
    match ev
    case StartBegins(iv) =>
      var s1 := WithReason(WithPendingCancelled(s, iv), iv, SUPERSEDED);
      s1.(starts := s1.starts[iv := if iv in s.sessions then Superseding(s.sessions[iv]) else Building])
    case StopReturns(iv) => s.(starts := s.starts[iv := Building])
    case StartRegisters(iv, sid) =>
      s.(voice := s.voice[sid := Session(iv, Running, COMPLETED)],
         sessions := s.sessions[iv := sid],
         starts := s.starts - {iv})
    case StartFails(iv) => s.(starts := s.starts - {iv})
    case StopBegins(iv, reason) => WithReason(s, iv, reason)
    case Drops(sid, tid) =>
      var v := s.voice[sid];
      if !v.stage.Running? || v.reason != COMPLETED || v.interview in s.pendingAbandon then s
      else s.(pendingAbandon := s.pendingAbandon[v.interview := tid], timers := s.timers[tid := Timer(v.interview, Sleeping)])
    case GraceLapses(tid) =>
      var iv := s.timers[tid].interview;
      WithReason(s.(pendingAbandon := s.pendingAbandon - {iv}, timers := s.timers[tid := s.timers[tid].(stage := Fired)]),
                 iv, ABANDONED)
    case RunEnds(sid, crashed) =>
      var v := s.voice[sid];
      var v' := Session(v.interview, Leaving, if crashed then ABANDONED else v.reason);
      WithPendingCancelled(s.(voice := s.voice[sid := v'], sessions := s.sessions - {v.interview}), v.interview)
    case Announces(sid) =>
      var v := s.voice[sid];
      s.(voice := s.voice[sid := v.(stage := Finished)],
         ended := if v.reason == SUPERSEDED then s.ended else s.ended + [(sid, v.reason)])
    case AnnouncementFails(sid) => s.(voice := s.voice[sid := s.voice[sid].(stage := Finished)])
    case WaitTimesOut(iv) => s.(starts := s.starts[iv := Building])
  }

  // ---------------------------------------------------------------------------
  // The code
  // ---------------------------------------------------------------------------

  class SessionManager {
    var sessions: map<InterviewId, SessionId>
    var pendingAbandon: map<InterviewId, TimerId>
    var voice: map<SessionId, Session>
    var timers: map<TimerId, Timer>
    var starts: map<InterviewId, StartStage>
    var ended: seq<(SessionId, string)>

    ghost function View(): State
      reads this
    {
      State(sessions, pendingAbandon, voice, timers, starts, ended)
    }

    constructor ()
      ensures View() == INIT
    {
      sessions, pendingAbandon, voice, timers, starts, ended := map[], map[], map[], map[], map[], [];
    }

    method CancelPendingAbandon(iv: InterviewId)
      modifies this`pendingAbandon, this`timers
      ensures View() == WithPendingCancelled(old(View()), iv)
    {
      if iv in pendingAbandon {
        var tid := pendingAbandon[iv];
        pendingAbandon := pendingAbandon - {iv};
        if tid in timers {
          timers := timers[tid := timers[tid].(stage := Cancelled)];
        }
      }
    }

    method BeginStop(iv: InterviewId, reason: string) returns (found: bool)
      modifies this`voice
      ensures View() == WithReason(old(View()), iv, reason)
      ensures found <==> iv in sessions
    {
      if iv !in sessions {
        return false;
      }
      var sid := sessions[iv];
      if sid in voice {
        voice := voice[sid := voice[sid].(reason := reason)];
      }
      return true;
    }

    method BeginStart(iv: InterviewId)
      requires Enabled(View(), StartBegins(iv))
      modifies this
      ensures View() == Step(old(View()), StartBegins(iv))
    {
      CancelPendingAbandon(iv);
      var found := BeginStop(iv, SUPERSEDED);
      starts := starts[iv := if found then Superseding(sessions[iv]) else Building];
    }

    method RegisterSession(iv: InterviewId, sid: SessionId)
      requires Enabled(View(), StartRegisters(iv, sid))
      modifies this
      ensures View() == Step(old(View()), StartRegisters(iv, sid))
    {
      voice := voice[sid := Session(iv, Running, COMPLETED)];
      sessions := sessions[iv := sid];
      starts := starts - {iv};
    }

    /** Called for "disconnected", "closed" and "failed" alike. */
    method OnDrop(sid: SessionId, tid: TimerId)
      requires Enabled(View(), Drops(sid, tid))
      modifies this`pendingAbandon, this`timers
      ensures View() == Step(old(View()), Drops(sid, tid))
    {
      if !voice[sid].stage.Running? || voice[sid].reason != COMPLETED {
        return;
      }
      ScheduleAbandon(voice[sid].interview, tid);
    }

    method ScheduleAbandon(iv: InterviewId, tid: TimerId)
      modifies this`pendingAbandon, this`timers
      ensures if iv in old(pendingAbandon) then View() == old(View())
              else pendingAbandon == old(pendingAbandon)[iv := tid] && timers == old(timers)[tid := Timer(iv, Sleeping)]
    {
      if iv in pendingAbandon {
        return;
      }
      pendingAbandon := pendingAbandon[iv := tid];
      timers := timers[tid := Timer(iv, Sleeping)];
    }

    method AbandonAfterGrace(tid: TimerId)
      requires Enabled(View(), GraceLapses(tid))
      modifies this
      ensures View() == Step(old(View()), GraceLapses(tid))
    {
      var iv := timers[tid].interview;
      timers := timers[tid := timers[tid].(stage := Fired)];
      pendingAbandon := pendingAbandon - {iv};
      var _ := BeginStop(iv, ABANDONED);
    }

    /** The end of `_run` and `_finalise` up to the upload. */
    method LeaveRegistry(sid: SessionId, crashed: bool)
      requires Enabled(View(), RunEnds(sid, crashed))
      modifies this
      ensures View() == Step(old(View()), RunEnds(sid, crashed))
    {
      var iv := voice[sid].interview;
      if crashed {
        voice := voice[sid := voice[sid].(reason := ABANDONED)];
      }
      voice := voice[sid := voice[sid].(stage := Leaving)];
      sessions := sessions - {iv};
      CancelPendingAbandon(iv);
    }

    /** The rest of `_finalise`: say how it ended, unless a reconnect replaced it. */
    method Announce(sid: SessionId)
      requires Enabled(View(), Announces(sid))
      modifies this
      ensures View() == Step(old(View()), Announces(sid))
    {
      if voice[sid].reason != SUPERSEDED {
        ended := ended + [(sid, voice[sid].reason)];
      }
      voice := voice[sid := voice[sid].(stage := Finished)];
    }
  }

  // ---------------------------------------------------------------------------
  // What every reachable state satisfies
  // ---------------------------------------------------------------------------

  ghost predicate RegisteredRun(s: State) {
    forall iv :: iv in s.sessions ==>
      s.sessions[iv] in s.voice && s.voice[s.sessions[iv]].stage.Running? && s.voice[s.sessions[iv]].interview == iv
  }

  ghost predicate RunningRegistered(s: State) {
    forall sid :: sid in s.voice && s.voice[sid].stage.Running? ==>
      s.voice[sid].interview in s.sessions && s.sessions[s.voice[sid].interview] == sid
  }

  /** The registry holds exactly the running sessions, so an interview has at most one. */
  ghost predicate RegistryExact(s: State) {
    RegisteredRun(s) && RunningRegistered(s)
  }

  ghost predicate PendingTicks(s: State) {
    forall iv :: iv in s.pendingAbandon ==>
      s.pendingAbandon[iv] in s.timers && s.timers[s.pendingAbandon[iv]] == Timer(iv, Sleeping)
  }

  ghost predicate TickingPends(s: State) {
    forall tid :: tid in s.timers && s.timers[tid].stage.Sleeping? ==>
      s.timers[tid].interview in s.pendingAbandon && s.pendingAbandon[s.timers[tid].interview] == tid
  }

  /** A timer is ticking exactly when it is pending. */
  ghost predicate TimersExact(s: State) {
    PendingTicks(s) && TickingPends(s)
  }

  /** And only for a registered session. */
  ghost predicate PendingRegistered(s: State) {
    forall iv :: iv in s.pendingAbandon ==> iv in s.sessions
  }

  /** A session is announced once at most, with the reason it left with, never "superseded". */
  ghost predicate EndedOnce(s: State) {
    && (forall i :: 0 <= i < |s.ended| ==>
          && s.ended[i].0 in s.voice && s.voice[s.ended[i].0].stage.Finished?
          && s.ended[i].1 == s.voice[s.ended[i].0].reason && s.ended[i].1 != SUPERSEDED)
    && (forall i, j :: 0 <= i < j < |s.ended| ==> s.ended[i].0 != s.ended[j].0)
  }

  // ---------------------------------------------------------------------------
  // Whatever happens
  // ---------------------------------------------------------------------------

  lemma RunEndKeepsRegistered(s: State, ev: Event)
    requires RegisteredRun(s) && Enabled(s, ev) && ev.RunEnds?
    ensures RegisteredRun(Step(s, ev))
  {
  }

  lemma RegistrationKeepsRegistered(s: State, ev: Event)
    requires RegisteredRun(s) && Enabled(s, ev) && ev.StartRegisters?
    ensures RegisteredRun(Step(s, ev))
  {
  }

  /** Any other step leaves the registry and every running session's place in it. */
  lemma RunningGoesOn(s: State, ev: Event, sid: SessionId)
    requires Enabled(s, ev) && !ev.RunEnds? && !ev.StartRegisters? && sid in s.voice && s.voice[sid].stage.Running?
    ensures var s' := Step(s, ev);
      sid in s'.voice && s'.voice[sid].(reason := "") == s.voice[sid].(reason := "")
  {
  }

  lemma RegistryStays(s: State, ev: Event)
    requires Enabled(s, ev) && !ev.RunEnds? && !ev.StartRegisters?
    ensures Step(s, ev).sessions == s.sessions
  {
  }

  lemma StepKeepsRegistered(s: State, ev: Event)
    requires RegisteredRun(s) && Enabled(s, ev)
    ensures RegisteredRun(Step(s, ev))
  {
    hide Step;
    if ev.RunEnds? {
      RunEndKeepsRegistered(s, ev);
    } else if ev.StartRegisters? {
      RegistrationKeepsRegistered(s, ev);
    } else {
      RegistryStays(s, ev);
      forall iv | iv in s.sessions
        ensures var sid := s.sessions[iv];
          sid in Step(s, ev).voice && Step(s, ev).voice[sid].(reason := "") == s.voice[sid].(reason := "")
      {
        RunningGoesOn(s, ev, s.sessions[iv]);
      }
    }
  }

  lemma StepKeepsPendingTicks(s: State, ev: Event)
    requires TimersExact(s) && Enabled(s, ev)
    ensures PendingTicks(Step(s, ev))
  {
  }

  lemma StepKeepsTickingPends(s: State, ev: Event)
    requires TimersExact(s) && Enabled(s, ev)
    ensures TickingPends(Step(s, ev))
  {
    if ev.StartBegins? {
      CancelKeepsTickingPends(s, ev.iv);
    } else if ev.RunEnds? {
      CancelKeepsTickingPends(s, s.voice[ev.sid].interview);
    }
  }

  lemma CancelKeepsTickingPends(s: State, iv: InterviewId)
    requires TimersExact(s)
    ensures TickingPends(WithPendingCancelled(s, iv))
  {
  }

  /** Nothing writes to a session whose task is done. */
  lemma FinishedIsFixed(s: State, ev: Event, sid: SessionId)
    requires RegisteredRun(s) && Enabled(s, ev) && sid in s.voice && s.voice[sid].stage.Finished?
    ensures var s' := Step(s, ev); sid in s'.voice && s'.voice[sid] == s.voice[sid]
  {
  }

  lemma StepKeepsEnded(s: State, ev: Event)
    requires RegisteredRun(s) && EndedOnce(s) && Enabled(s, ev)
    ensures EndedOnce(Step(s, ev))
  {
    forall i | 0 <= i < |s.ended|
      ensures s.ended[i].0 in Step(s, ev).voice && Step(s, ev).voice[s.ended[i].0] == s.voice[s.ended[i].0]
    {
      FinishedIsFixed(s, ev, s.ended[i].0);
    }
    var s' := Step(s, ev);
    if ev.Announces? {
      assert forall i :: 0 <= i < |s.ended| ==> s.ended[i].0 != ev.sid;
    } else {
      assert s'.ended == s.ended;
    }
  }

  /** Steps in any order the guards allow. */
  ghost predicate IsRun(states: seq<State>, evs: seq<Event>) {
    && |states| == |evs| + 1
    && states[0] == INIT
    && forall i :: 0 <= i < |evs| ==> Enabled(states[i], evs[i]) && states[i + 1] == Step(states[i], evs[i])
  }

  lemma {:induction false} RunsKeepBooks(states: seq<State>, evs: seq<Event>, n: nat)
    requires IsRun(states, evs) && n < |states|
    ensures RegisteredRun(states[n]) && TimersExact(states[n]) && EndedOnce(states[n])
  {
    if n > 0 {
      RunsKeepBooks(states, evs, n - 1);
      StepKeepsRegistered(states[n - 1], evs[n - 1]);
      StepKeepsPendingTicks(states[n - 1], evs[n - 1]);
      StepKeepsTickingPends(states[n - 1], evs[n - 1]);
      StepKeepsEnded(states[n - 1], evs[n - 1]);
    }
  }

  /** However a session ends, `ended` names it once at most and never as superseded. */
  lemma AnnouncedAtMostOnce(states: seq<State>, evs: seq<Event>, n: nat, i: nat, j: nat)
    requires IsRun(states, evs) && n < |states|
    requires i < |states[n].ended| && j < |states[n].ended| && states[n].ended[i].0 == states[n].ended[j].0
    ensures i == j && states[n].ended[i].1 != SUPERSEDED
  {
    RunsKeepBooks(states, evs, n);
  }

  lemma StepKeepsReason(s: State, ev: Event, sid: SessionId)
    requires RegisteredRun(s) && Enabled(s, ev) && sid in s.voice && !s.voice[sid].stage.Running?
    ensures var s' := Step(s, ev); sid in s'.voice && !s'.voice[sid].stage.Running? && s'.voice[sid].reason == s.voice[sid].reason
  {
  }

  lemma {:induction false} ReasonStays(states: seq<State>, evs: seq<Event>, sid: SessionId, a: nat, b: nat)
    requires IsRun(states, evs) && a <= b < |states| && sid in states[a].voice && !states[a].voice[sid].stage.Running?
    ensures sid in states[b].voice && !states[b].voice[sid].stage.Running?
    ensures states[b].voice[sid].reason == states[a].voice[sid].reason
    decreases b
  {
    hide Step;
    if a < b {
      ReasonStays(states, evs, sid, a, b - 1);
      RunsKeepBooks(states, evs, b - 1);
      StepKeepsReason(states[b - 1], evs[b - 1], sid);
    }
  }

  /** The reason a session leaves with is final: no later stop, timer or start changes it, it is the one announced, and
      a session that leaves superseded is never announced. */
  lemma LeavesForGood(states: seq<State>, evs: seq<Event>, sid: SessionId, a: nat, b: nat)
    requires IsRun(states, evs) && a <= b < |states| && sid in states[a].voice && !states[a].voice[sid].stage.Running?
    ensures sid in states[b].voice && states[b].voice[sid].reason == states[a].voice[sid].reason
    ensures forall i :: 0 <= i < |states[b].ended| && states[b].ended[i].0 == sid ==>
      states[b].ended[i].1 == states[a].voice[sid].reason
    ensures states[a].voice[sid].reason == SUPERSEDED ==>
      forall i :: 0 <= i < |states[b].ended| ==> states[b].ended[i].0 != sid
  {
    RunsKeepBooks(states, evs, b);
    ReasonStays(states, evs, sid, a, b);
  }

  // ---------------------------------------------------------------------------
  // What is announced
  // ---------------------------------------------------------------------------

  /** Step `i` announces the session with the reason it has then. */
  ghost predicate AnnouncedAt(states: seq<State>, evs: seq<Event>, i: nat, sid: SessionId, reason: string)
    requires i < |evs| && i < |states|
  {
    evs[i] == Announces(sid) && sid in states[i].voice && states[i].voice[sid].reason == reason && reason != SUPERSEDED
  }

  lemma StepAppends(s: State, ev: Event)
    requires Enabled(s, ev)
    ensures Step(s, ev).ended ==
      if ev.Announces? && s.voice[ev.sid].reason != SUPERSEDED then s.ended + [(ev.sid, s.voice[ev.sid].reason)] else s.ended
  {
  }

  /** Over every run, the ends announced are exactly those of the sessions that came to announce themselves and had not
      been superseded, each with the reason it had then. */
  lemma {:induction false} AnnouncedExactly(states: seq<State>, evs: seq<Event>, n: nat, sid: SessionId, reason: string)
    requires IsRun(states, evs) && n < |states|
    ensures (sid, reason) in states[n].ended <==> exists i :: 0 <= i < n && AnnouncedAt(states, evs, i, sid, reason)
  {
    hide Step;
    if n > 0 {
      AnnouncedExactly(states, evs, n - 1, sid, reason);
      StepAppends(states[n - 1], evs[n - 1]);
      assert (sid, reason) in states[n].ended <==>
        (sid, reason) in states[n - 1].ended || AnnouncedAt(states, evs, n - 1, sid, reason);
    }
  }

  /** In the order in which they came. */
  lemma {:induction false} EndsOnlyGrow(states: seq<State>, evs: seq<Event>, a: nat, b: nat)
    requires IsRun(states, evs) && a <= b < |states|
    ensures states[a].ended <= states[b].ended
    decreases b
  {
    hide Step;
    if a < b {
      EndsOnlyGrow(states, evs, a, b - 1);
      StepAppends(states[b - 1], evs[b - 1]);
    }
  }

  /** What this step gives as the session's reason, if it gives one. */
  function Says(s: State, ev: Event, sid: SessionId): Option<string>
    requires Enabled(s, ev)
  {
    match ev
    case StartRegisters(_, started) => if started == sid then Some("completed") else None
    case StartBegins(iv) => if Registered(s, iv, sid) then Some("superseded") else None
    case StopBegins(iv, reason) => if Registered(s, iv, sid) then Some(reason) else None
    case GraceLapses(tid) => if Registered(s, s.timers[tid].interview, sid) then Some("abandoned") else None
    case RunEnds(ended, crashed) => if ended == sid && crashed then Some("abandoned") else None
    case _ => None
  }

  predicate Registered(s: State, iv: InterviewId, sid: SessionId) {
    iv in s.sessions && s.sessions[iv] == sid
  }

  lemma StepFollowsSaying(s: State, ev: Event, sid: SessionId)
    requires RegisteredRun(s) && Enabled(s, ev)
    ensures sid in Step(s, ev).voice <==> sid in s.voice || Says(s, ev, sid).Some?
    ensures sid in Step(s, ev).voice ==>
      Step(s, ev).voice[sid].reason == if Says(s, ev, sid).Some? then Says(s, ev, sid).value else s.voice[sid].reason
  {
  }

  /** Step `i` is the last of the first `n` to give the session a reason, and it gives this one. */
  ghost predicate LastSays(states: seq<State>, evs: seq<Event>, i: nat, n: nat, sid: SessionId, reason: string)
    requires IsRun(states, evs) && i < n <= |evs|
  {
    Says(states[i], evs[i], sid) == Some(reason) && forall k :: i < k < n ==> Says(states[k], evs[k], sid).None?
  }

  /** A session exists once it has registered, and its reason is the last one anybody gave it: its start "completed", a
      reconnect "superseded", the grace timer or a crash "abandoned", a stop its own. */
  lemma {:induction false} LastWordStands(states: seq<State>, evs: seq<Event>, n: nat, sid: SessionId, reason: string)
    requires IsRun(states, evs) && n < |states|
    ensures sid in states[n].voice && states[n].voice[sid].reason == reason <==>
      exists i :: 0 <= i < n && LastSays(states, evs, i, n, sid, reason)
  {
    hide Step, Says, Enabled;
    if n > 0 {
      var m := n - 1;
      LastWordStands(states, evs, m, sid, reason);
      RunsKeepBooks(states, evs, m);
      StepFollowsSaying(states[m], evs[m], sid);
      if Says(states[m], evs[m], sid).Some? {
        assert LastSays(states, evs, m, n, sid, Says(states[m], evs[m], sid).value);
      } else {
        assert !LastSays(states, evs, m, n, sid, reason);
        assert forall i :: 0 <= i < m ==>
          (LastSays(states, evs, i, n, sid, reason) <==> LastSays(states, evs, i, m, sid, reason));
      }
    }
  }

  // ---------------------------------------------------------------------------
  // The timer
  // ---------------------------------------------------------------------------

  /** What takes a pending timer away: a start of its interview, the end of a session of it, or the timer itself. */
  predicate Disarms(s: State, ev: Event, iv: InterviewId, tid: TimerId)
    requires Enabled(s, ev)
  {
    || ev == StartBegins(iv)
    || (ev.RunEnds? && s.voice[ev.sid].interview == iv)
    || (ev.GraceLapses? && ev.tid == tid)
  }

  ghost predicate Armed(s: State, iv: InterviewId, tid: TimerId) {
    iv in s.pendingAbandon && s.pendingAbandon[iv] == tid && tid in s.timers && s.timers[tid] == Timer(iv, Sleeping)
  }

  lemma StepKeepsArmed(s: State, ev: Event, iv: InterviewId, tid: TimerId)
    requires TimersExact(s) && Enabled(s, ev) && Armed(s, iv, tid) && !Disarms(s, ev, iv, tid)
    ensures Armed(Step(s, ev), iv, tid)
  {
    if ev.GraceLapses? {
      assert s.timers[ev.tid].interview != iv;
    }
  }

  lemma {:induction false} StaysArmed(states: seq<State>, evs: seq<Event>, iv: InterviewId, tid: TimerId, a: nat, b: nat)
    requires IsRun(states, evs) && a <= b < |states| && Armed(states[a], iv, tid)
    requires forall i :: a <= i < b ==> !Disarms(states[i], evs[i], iv, tid)
    ensures Armed(states[b], iv, tid)
    decreases b
  {
    hide Step;
    if a < b {
      StaysArmed(states, evs, iv, tid, a, b - 1);
      RunsKeepBooks(states, evs, b - 1);
      StepKeepsArmed(states[b - 1], evs[b - 1], iv, tid);
    }
  }

  /** A drop of a running session nobody has stopped, with no timer pending yet, ends in its being abandoned: until
      somebody starts the interview again or a session of it ends, the timer can go off, and when it does the session
      registered then is stopped as abandoned. */
  lemma DropEndsInAbandonment(states: seq<State>, evs: seq<Event>, a: nat, b: nat)
    requires IsRun(states, evs) && a < b < |states| && evs[a].Drops?
    requires var v := states[a].voice[evs[a].sid];
      && v.stage.Running? && v.reason == COMPLETED && v.interview !in states[a].pendingAbandon
      && forall i :: a < i < b ==> !Disarms(states[i], evs[i], v.interview, evs[a].tid)
    ensures var iv, tid := states[a].voice[evs[a].sid].interview, evs[a].tid;
      && Enabled(states[b], GraceLapses(tid))
      && (iv in states[b].sessions ==>
            var sid := states[b].sessions[iv];
            sid in Step(states[b], GraceLapses(tid)).voice && Step(states[b], GraceLapses(tid)).voice[sid].reason == "abandoned")
  {
    var iv, tid := states[a].voice[evs[a].sid].interview, evs[a].tid;
    assert Armed(states[a + 1], iv, tid);
    StaysArmed(states, evs, iv, tid, a + 1, b);
    RunsKeepBooks(states, evs, b);
  }

  /** A session gets to announce itself once, or fails to once, and never after either. */
  lemma OneChance(states: seq<State>, evs: seq<Event>, a: nat, b: nat, sid: SessionId)
    requires IsRun(states, evs) && a < b < |evs|
    requires evs[a] in {Announces(sid), AnnouncementFails(sid)}
    ensures evs[b] !in {Announces(sid), AnnouncementFails(sid)}
  {
    assert states[a + 1].voice[sid].stage.Finished?;
    StaysFinished(states, evs, sid, a + 1, b);
  }

  lemma {:induction false} StaysFinished(states: seq<State>, evs: seq<Event>, sid: SessionId, a: nat, b: nat)
    requires IsRun(states, evs) && a <= b < |states| && sid in states[a].voice && states[a].voice[sid].stage.Finished?
    ensures sid in states[b].voice && states[b].voice[sid].stage.Finished?
    decreases b
  {
    hide Step;
    if a < b {
      StaysFinished(states, evs, sid, a, b - 1);
      RunsKeepBooks(states, evs, b - 1);
      FinishedIsFixed(states[b - 1], evs[b - 1], sid);
    }
  }

  /** A start gets a session once the one it replaces has stopped running; one that fails makes room for the next. */
  lemma StartGetsThrough(s: State, iv: InterviewId, sid: SessionId)
    requires RegisteredRun(s) && iv in s.starts && sid !in s.voice
    requires s.starts[iv].Superseding? ==> Enabled(s, StopReturns(iv))
    ensures var ready := if s.starts[iv].Superseding? then Step(s, StopReturns(iv)) else s;
      && Enabled(ready, StartRegisters(iv, sid))
      && var s' := Step(ready, StartRegisters(iv, sid));
         Registered(s', iv, sid) && s'.voice[sid] == Session(iv, Running, "completed") && iv !in s'.starts
    ensures Enabled(Step(s, StartFails(iv)), StartBegins(iv))
  {
  }

  lemma StepKeepsAwake(s: State, ev: Event, tid: TimerId)
    requires Enabled(s, ev) && tid in s.timers && !s.timers[tid].stage.Sleeping?
    ensures tid in Step(s, ev).timers && !Step(s, ev).timers[tid].stage.Sleeping?
  {
  }

  lemma {:induction false} CancelledStaysCancelled(states: seq<State>, evs: seq<Event>, tid: TimerId, a: nat, b: nat)
    requires IsRun(states, evs) && a <= b < |states|
    requires tid in states[a].timers && !states[a].timers[tid].stage.Sleeping?
    ensures tid in states[b].timers && !states[b].timers[tid].stage.Sleeping?
    decreases b
  {
    hide Step;
    if a < b {
      CancelledStaysCancelled(states, evs, tid, a, b - 1);
      StepKeepsAwake(states[b - 1], evs[b - 1], tid);
    }
  }

  /** A reconnect calls the timer off: from then on that timer never reaches its `stop`. */
  lemma CancelledTimerNeverFires(states: seq<State>, evs: seq<Event>, a: nat, b: nat, tid: TimerId)
    requires IsRun(states, evs) && a < b < |evs|
    requires evs[a].StartBegins? && evs[a].iv in states[a].pendingAbandon && states[a].pendingAbandon[evs[a].iv] == tid
    ensures evs[b] != GraceLapses(tid)
  {
    RunsKeepBooks(states, evs, a);
    CancelledStaysCancelled(states, evs, tid, a + 1, b);
  }

  // ---------------------------------------------------------------------------
  // One session at a time
  // ---------------------------------------------------------------------------

  ghost predicate OneRunning(s: State) {
    forall a, b :: (a in s.voice && b in s.voice && s.voice[a].stage.Running? && s.voice[b].stage.Running? &&
                    s.voice[a].interview == s.voice[b].interview) ==> a == b
  }

  /** This start registers over a session that is still registered. */
  predicate TakesOver(s: State, ev: Event) {
    ev.StartRegisters? && ev.iv in s.sessions
  }

  /** None of the first `n` steps does. */
  ghost predicate NoTakeover(states: seq<State>, evs: seq<Event>, n: nat)
    requires n <= |evs| && |states| == |evs| + 1
  {
    forall i :: 0 <= i < n ==> !TakesOver(states[i], evs[i])
  }

  lemma StepKeepsRunning(s: State, ev: Event)
    requires RegistryExact(s) && Enabled(s, ev) && !TakesOver(s, ev)
    ensures RunningRegistered(Step(s, ev))
  {
  }

  lemma StepKeepsPending(s: State, ev: Event)
    requires RegistryExact(s) && PendingRegistered(s) && Enabled(s, ev)
    ensures PendingRegistered(Step(s, ev))
  {
  }

  /** Without a takeover the registry holds exactly the running sessions and timers wait only for those. */
  lemma {:induction false} RunsKeepRegistry(states: seq<State>, evs: seq<Event>, n: nat)
    requires IsRun(states, evs) && n < |states| && NoTakeover(states, evs, n)
    ensures RegistryExact(states[n]) && PendingRegistered(states[n])
  {
    RunsKeepBooks(states, evs, n);
    if n > 0 {
      RunsKeepRegistry(states, evs, n - 1);
      StepKeepsRunning(states[n - 1], evs[n - 1]);
      StepKeepsPending(states[n - 1], evs[n - 1]);
    }
  }

  lemma TakeoverDoubles(s: State, ev: Event)
    requires RegisteredRun(s) && Enabled(s, ev) && TakesOver(s, ev)
    ensures !OneRunning(Step(s, ev))
  {
    var earlier, s' := s.sessions[ev.iv], Step(s, ev);
    assert s'.voice[earlier].stage.Running? && s'.voice[ev.sid].stage.Running? && earlier != ev.sid;
  }

  /** Every interview has at most one running session throughout a run exactly when no start in it registers over a
      session that is still registered. */
  lemma OneSessionPerInterview(states: seq<State>, evs: seq<Event>, n: nat)
    requires IsRun(states, evs) && n < |states|
    ensures (forall k :: 0 <= k <= n ==> OneRunning(states[k])) <==> NoTakeover(states, evs, n)
  {
    if NoTakeover(states, evs, n) {
      forall k | 0 <= k <= n
        ensures OneRunning(states[k])
      {
        RunsKeepRegistry(states, evs, k);
      }
    } else {
      var i :| 0 <= i < n && TakesOver(states[i], evs[i]);
      RunsKeepBooks(states, evs, i);
      TakeoverDoubles(states[i], evs[i]);
      assert !OneRunning(states[i + 1]);
    }
  }

  /** A timer is pending only for a session that is still running. */
  lemma PendingMeansRunning(states: seq<State>, evs: seq<Event>, n: nat, iv: InterviewId)
    requires IsRun(states, evs) && n < |states| && NoTakeover(states, evs, n) && iv in states[n].pendingAbandon
    ensures iv in states[n].sessions && states[n].sessions[iv] in states[n].voice
    ensures states[n].voice[states[n].sessions[iv]].stage.Running?
  {
    RunsKeepRegistry(states, evs, n);
  }

  /** A start that is building has no session to step on. */
  ghost predicate StartsClear(s: State) {
    && (forall iv :: iv in s.starts && s.starts[iv].Building? ==> iv !in s.sessions)
    && (forall iv :: iv in s.starts && s.starts[iv].Superseding? && iv in s.sessions ==>
          s.sessions[iv] == s.starts[iv].previous)
  }

  lemma StepKeepsStarts(s: State, ev: Event)
    requires RegisteredRun(s) && StartsClear(s) && Enabled(s, ev) && !ev.WaitTimesOut?
    ensures StartsClear(Step(s, ev))
  {
  }

  lemma {:induction false} PatientStartsAreClear(states: seq<State>, evs: seq<Event>, n: nat)
    requires IsRun(states, evs) && n < |states|
    requires forall i :: 0 <= i < n ==> !evs[i].WaitTimesOut?
    ensures StartsClear(states[n])
  {
    if n > 0 {
      PatientStartsAreClear(states, evs, n - 1);
      RunsKeepBooks(states, evs, n - 1);
      StepKeepsStarts(states[n - 1], evs[n - 1]);
    }
  }

  /** So it is enough that no stop gives up waiting on a session that is still running. */
  lemma PatientRunsNeverTakeOver(states: seq<State>, evs: seq<Event>)
    requires IsRun(states, evs) && forall i :: 0 <= i < |evs| ==> !evs[i].WaitTimesOut?
    ensures NoTakeover(states, evs, |evs|)
  {
    forall i | 0 <= i < |evs|
      ensures !TakesOver(states[i], evs[i])
    {
      PatientStartsAreClear(states, evs, i);
    }
  }

  // ---------------------------------------------------------------------------
  // A rejoin does not end the interview
  // ---------------------------------------------------------------------------

  /** A session on its way out because a reconnect replaced it. */
  ghost predicate Yielding(s: State, sid: SessionId) {
    && sid in s.voice
    && s.voice[sid].reason == SUPERSEDED
    && (s.voice[sid].stage.Running? ==> s.voice[sid].interview !in s.pendingAbandon)
    && (forall i :: 0 <= i < |s.ended| ==> s.ended[i].0 != sid)
  }

  /** Somebody overrides the reconnect: another `stop` of that very session, or its pipeline crashes. */
  predicate Overrides(s: State, ev: Event, sid: SessionId) {
    || (ev.StopBegins? && ev.iv in s.sessions && s.sessions[ev.iv] == sid)
    || (ev.RunEnds? && ev.sid == sid && ev.crashed)
  }

  lemma StepKeepsYielding(s: State, ev: Event, sid: SessionId)
    requires RegistryExact(s) && TimersExact(s) && PendingRegistered(s)
    requires Enabled(s, ev) && Yielding(s, sid) && !Overrides(s, ev, sid)
    ensures Yielding(Step(s, ev), sid)
  {
    if ev.GraceLapses? {
      var iv := s.timers[ev.tid].interview;
      assert iv in s.sessions && s.voice[s.sessions[iv]].stage.Running? && s.voice[s.sessions[iv]].interview == iv;
      assert s.sessions[iv] != sid;
    }
  }

  lemma {:induction false} YieldingPersists(states: seq<State>, evs: seq<Event>, sid: SessionId, a: nat, b: nat)
    requires IsRun(states, evs) && a <= b < |states| && NoTakeover(states, evs, b) && Yielding(states[a], sid)
    requires forall i :: a <= i < b ==> !Overrides(states[i], evs[i], sid)
    ensures Yielding(states[b], sid)
    decreases b
  {
    hide Step;
    if a < b {
      YieldingPersists(states, evs, sid, a, b - 1);
      RunsKeepBooks(states, evs, b - 1);
      RunsKeepRegistry(states, evs, b - 1);
      StepKeepsYielding(states[b - 1], evs[b - 1], sid);
    }
  }

  lemma RejoinYields(s: State, iv: InterviewId)
    requires RegisteredRun(s) && EndedOnce(s) && Enabled(s, StartBegins(iv)) && iv in s.sessions
    ensures Yielding(Step(s, StartBegins(iv)), s.sessions[iv])
  {
  }

  /** Drops, timers and teardown after a rejoin, and stops of the new session, cannot end the interview on the old
      session's behalf. */
  lemma RejoinKeepsInterview(states: seq<State>, evs: seq<Event>, a: nat, b: nat, sid: SessionId)
    requires IsRun(states, evs) && a < b < |states| && NoTakeover(states, evs, b)
    requires evs[a].StartBegins? && evs[a].iv in states[a].sessions && states[a].sessions[evs[a].iv] == sid
    requires forall i :: a < i < b ==> !Overrides(states[i], evs[i], sid)
    ensures forall i :: 0 <= i < |states[b].ended| ==> states[b].ended[i].0 != sid
  {
    RunsKeepBooks(states, evs, a);
    RejoinYields(states[a], evs[a].iv);
    YieldingPersists(states, evs, sid, a + 1, b);
  }

  // ---------------------------------------------------------------------------
  // Why the wait must not time out on a running session
  // ---------------------------------------------------------------------------

  const TIMED_OUT_EVENTS: seq<Event> :=
    [StartBegins(0), StartRegisters(0, 1), StartBegins(0), WaitTimesOut(0), StartRegisters(0, 2), RunEnds(1, false)]

  const TIMED_OUT: State :=
    State(map[], map[], map[1 := Session(0, Running, SUPERSEDED)], map[], map[0 := Building], [])

  lemma WaitTimesOutEarly(evs: seq<Event>) returns (states: seq<State>)
    requires evs == TIMED_OUT_EVENTS[..4]
    ensures IsRun(states, evs) && states[4] == TIMED_OUT.(sessions := map[0 := 1])
  {
    var s1 := Step(INIT, evs[0]);
    var s2 := Step(s1, evs[1]);
    assert s2 == State(map[0 := 1], map[], map[1 := Session(0, Running, COMPLETED)], map[], map[], []);
    var s3 := Step(s2, evs[2]);
    var s4 := Step(s3, evs[3]);
    assert s4.voice == TIMED_OUT.voice && s4.starts == TIMED_OUT.starts;
    states := [INIT, s1, s2, s3, s4];
  }

  /** Two sessions of one interview run at once, and the first to end unregisters the other. */
  lemma TimedOutWaitLosesRegistry() returns (states: seq<State>)
    ensures IsRun(states, TIMED_OUT_EVENTS) && {1, 2} <= states[5].voice.Keys
    ensures states[5].voice[1].stage.Running? && states[5].voice[2].stage.Running?
    ensures 2 in states[6].voice && states[6].voice[2] == Session(0, Running, COMPLETED)
    ensures 0 !in states[6].sessions
  {
    var evs := TIMED_OUT_EVENTS;
    var early := WaitTimesOutEarly(evs[..4]);
    var s5 := Step(early[4], evs[4]);
    var s6 := Step(s5, evs[5]);
    states := early + [s5, s6];
    assert forall i :: 0 <= i < 4 ==> evs[i] == evs[..4][i];
  }
}
