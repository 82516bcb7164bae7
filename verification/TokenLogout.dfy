/** Logging out everywhere: what the per-user index is good for, and what a logout over it achieves.

  `revoke_all_for_user` reads the index, kills the families it read one by one, and deletes the index at the
  end; other clients, and other logouts of the same user, get in between any two of these steps.
*/
module TokenLogout {
  import opened Text
  import opened TokenStore
  import opened TokenProtocol

  /** The token's family was killed after the rotation that minted the token had begun: no timely presentation of it
      is accepted any more. */
  ghost predicate Doomed(s: Store, t: Token) {
    t.fam in s.tombstones && t.since + RECORD_TTL <= s.tombstones[t.fam]
  }

  /** The user's index names the token's family and lasts as long as its record. */
  ghost predicate Indexed(s: Store, t: Token) {
    t.uid in s.users && t.fam in s.users[t.uid].ids && t.minted + RECORD_TTL <= s.users[t.uid].expires
  }

  /** A timely presentation of it can still find its record. */
  predicate Recorded(sys: Sys, t: Token) {
    sys.now < t.minted + RECORD_TTL
  }

  /** Every token that can still be accepted in time is in its user's index, or dead anyway. */
  ghost predicate IndexKept(sys: Sys) {
    forall j :: j in sys.issued && Recorded(sys, sys.issued[j]) ==>
      Indexed(sys.store, sys.issued[j]) || Doomed(sys.store, sys.issued[j])
  }

  lemma TimelyMeansRecorded(sys: Sys, ev: Event)
    requires ChecksPassed(sys) && TokensAccounted(sys) && Enabled(sys, ev) && ev.Present? && Timely(sys, ev)
    ensures sys.now < sys.issued[ev.jti].since + RECORD_TTL && Recorded(sys, sys.issued[ev.jti])
  {
  }

  // ---------------------------------------------------------------------------
  // Logouts in progress
  // ---------------------------------------------------------------------------

  ghost predicate TombstonesBounded(sys: Sys) {
    forall f :: f in sys.store.tombstones ==> sys.store.tombstones[f] <= sys.now + RECORD_TTL
  }

  /** What a logout has read and is done with was killed after it read. */
  ghost predicate DoneMeansKilled(sys: Sys) {
    && (forall l :: l in sys.logouts ==> sys.logouts[l].todo <= sys.logouts[l].fams && sys.logouts[l].since <= sys.now)
    && (forall l, f :: l in sys.logouts && f in sys.logouts[l].fams && f !in sys.logouts[l].todo ==>
          f in sys.store.tombstones && sys.logouts[l].since + RECORD_TTL <= sys.store.tombstones[f])
  }

  /** And the tokens out when it read had been minted by then. */
  ghost predicate BeforeMeansMinted(sys: Sys) {
    forall l, j :: l in sys.logouts && j in sys.logouts[l].before ==>
      j in sys.issued && sys.issued[j].minted <= sys.logouts[l].since
  }

  /** Nor will their records outlast the kills. */
  ghost predicate BeforeMeansExpiring(sys: Sys) {
    forall l, j :: l in sys.logouts && j in sys.logouts[l].before ==> ExpiresBy(sys, j, sys.logouts[l].since + RECORD_TTL)
  }

  ghost predicate LogoutsOnTime(sys: Sys) {
    DoneMeansKilled(sys) && BeforeMeansMinted(sys) && BeforeMeansExpiring(sys)
  }

  /** Every token out when a logout read is of a family it read, or dead anyway. */
  ghost predicate ReadAll(sys: Sys) {
    forall l, j :: (l in sys.logouts && j in sys.logouts[l].before && j in sys.issued &&
                    sys.issued[j].uid == sys.logouts[l].uid && Recorded(sys, sys.issued[j])) ==>
      sys.issued[j].fam in sys.logouts[l].fams || Doomed(sys.store, sys.issued[j])
  }

  lemma StepBoundsTombstones(sys: Sys, ev: Event)
    requires TombstonesBounded(sys) && Enabled(sys, ev)
    ensures TombstonesBounded(Step(sys, ev))
  {
  }

  lemma StepKeepsDoom(sys: Sys, ev: Event, t: Token)
    requires TombstonesBounded(sys) && Enabled(sys, ev) && Doomed(sys.store, t)
    ensures Doomed(Step(sys, ev).store, t)
  {
    StepKeepsTombstone(sys, ev, t.fam);
  }

  lemma StepKeepsToken(sys: Sys, ev: Event, jti: Jti)
    requires FlightsFresh(sys) && Enabled(sys, ev) && jti in sys.issued
    ensures jti in Step(sys, ev).issued && Step(sys, ev).issued[jti] == sys.issued[jti] && sys.now <= Step(sys, ev).now
  {
  }

  lemma StepKeepsDone(sys: Sys, ev: Event)
    requires TombstonesBounded(sys) && DoneMeansKilled(sys) && Enabled(sys, ev)
    ensures DoneMeansKilled(Step(sys, ev))
  {
    forall f | f in sys.store.tombstones
      ensures f in Step(sys, ev).store.tombstones && sys.store.tombstones[f] <= Step(sys, ev).store.tombstones[f]
    {
      StepKeepsTombstone(sys, ev, f);
    }
  }

  lemma StepKeepsBefore(sys: Sys, ev: Event)
    requires TokensAccounted(sys) && FlightsFresh(sys) && BeforeMeansMinted(sys) && Enabled(sys, ev)
    ensures BeforeMeansMinted(Step(sys, ev))
  {
  }

  lemma StepKeepsExpiring(sys: Sys, ev: Event)
    requires FlightsFresh(sys) && RecordsBounded(sys) && BeforeMeansExpiring(sys) && Enabled(sys, ev)
    ensures BeforeMeansExpiring(Step(sys, ev))
  {
    forall l, j | l in sys.logouts && j in sys.logouts[l].before
      ensures ExpiresBy(Step(sys, ev), j, sys.logouts[l].since + RECORD_TTL)
    {
      StepKeepsExpiry(sys, ev, j, sys.logouts[l].since + RECORD_TTL);
    }
  }

  lemma {:induction false} RunsKeepLogouts(states: seq<Sys>, evs: seq<Event>, n: nat)
    requires IsRun(states, evs) && n < |states|
    ensures TombstonesBounded(states[n]) && LogoutsOnTime(states[n])
  {
    if n > 0 {
      RunsKeepLogouts(states, evs, n - 1);
      RunsKeepInv(states, evs, n - 1);
      RunsKeepBounded(states, evs, n - 1);
      StepBoundsTombstones(states[n - 1], evs[n - 1]);
      StepKeepsDone(states[n - 1], evs[n - 1]);
      StepKeepsBefore(states[n - 1], evs[n - 1]);
      StepKeepsExpiring(states[n - 1], evs[n - 1]);
    }
  }

  // ---------------------------------------------------------------------------
  // When the index keeps what matters
  // ---------------------------------------------------------------------------

  /** Whatever registered for the user between the read and the delete, and can still be accepted, is dead anyway. */
  ghost predicate SafeDelete(sys: Sys, id: nat)
    requires id in sys.logouts
  {
    forall j :: (j in sys.issued && j !in sys.logouts[id].before && sys.issued[j].uid == sys.logouts[id].uid &&
                 Recorded(sys, sys.issued[j])) ==>
      Doomed(sys.store, sys.issued[j])
  }

  /** The index and the tokens stay, or one token more comes with its family in the index. */
  lemma RegisterIndexes(sys: Sys, ev: Event, jti: Jti)
    requires TokensAccounted(sys) && FlightsFresh(sys) && Enabled(sys, ev) && ev.Register? && jti in Step(sys, ev).issued
    ensures Step(sys, ev).now == sys.now && (jti in sys.issued ==> sys.issued[jti] == Step(sys, ev).issued[jti])
    ensures var t := Step(sys, ev).issued[jti];
      Recorded(sys, t) && (jti in sys.issued ==> Indexed(sys.store, t)) ==> Indexed(Step(sys, ev).store, t)
  {
  }

  lemma OthersLeaveIndex(sys: Sys, ev: Event)
    requires Enabled(sys, ev) && !ev.Register? && !ev.DeleteIndex?
    ensures Step(sys, ev).issued == sys.issued && Step(sys, ev).store.users == sys.store.users
    ensures sys.now <= Step(sys, ev).now
  {
  }

  lemma OtherStepsKeepIndex(sys: Sys, ev: Event)
    requires TokensAccounted(sys) && FlightsFresh(sys) && TombstonesBounded(sys) && IndexKept(sys)
    requires Enabled(sys, ev) && !ev.DeleteIndex?
    ensures IndexKept(Step(sys, ev))
  {
    hide Step, Enabled, TokensAccounted, FlightsFresh;
    var sys' := Step(sys, ev);
    forall j | j in sys'.issued && Recorded(sys', sys'.issued[j])
      ensures Indexed(sys'.store, sys'.issued[j]) || Doomed(sys'.store, sys'.issued[j])
    {
      if j in sys.issued {
        StepKeepsToken(sys, ev, j);
      }
      if j in sys.issued && Doomed(sys.store, sys.issued[j]) {
        StepKeepsDoom(sys, ev, sys.issued[j]);
      } else if ev.Register? {
        RegisterIndexes(sys, ev, j);
      } else {
        OthersLeaveIndex(sys, ev);
      }
    }
  }

  lemma DeleteKeepsIndex(sys: Sys, id: nat)
    requires TokensAccounted(sys) && LogoutsOnTime(sys) && ReadAll(sys) && IndexKept(sys) && Enabled(sys, DeleteIndex(id))
    ensures IndexKept(Step(sys, DeleteIndex(id))) <==> SafeDelete(sys, id)
  {
    var l, sys' := sys.logouts[id], Step(sys, DeleteIndex(id));
    forall j | j in sys.issued && j in l.before && sys.issued[j].uid == l.uid && Recorded(sys, sys.issued[j])
      ensures Doomed(sys.store, sys.issued[j])
    {
      assert sys.issued[j].fam in l.fams ==> sys.issued[j].fam !in l.todo;
    }
    forall j | j in sys.issued && sys.issued[j].uid != l.uid
      ensures Indexed(sys'.store, sys.issued[j]) <==> Indexed(sys.store, sys.issued[j])
    {
    }
    assert forall j :: j in sys.issued && sys.issued[j].uid == l.uid ==> !Indexed(sys'.store, sys.issued[j]);
  }

  lemma ReadIndexReadsAll(sys: Sys, ev: Event)
    requires IndexKept(sys) && ReadAll(sys) && Enabled(sys, ev) && ev.ReadIndex?
    ensures ReadAll(Step(sys, ev))
  {
    forall j | j in sys.issued && Recorded(sys, sys.issued[j]) && Indexed(sys.store, sys.issued[j])
      ensures sys.issued[j].fam in LiveIds(sys.store.users, sys.issued[j].uid, sys.now)
    {
    }
  }

  lemma OthersKeepReadAll(sys: Sys, ev: Event)
    requires FlightsFresh(sys) && TombstonesBounded(sys) && BeforeMeansMinted(sys) && ReadAll(sys)
    requires Enabled(sys, ev) && !ev.ReadIndex?
    ensures ReadAll(Step(sys, ev))
  {
    var sys' := Step(sys, ev);
    forall l, j | l in sys'.logouts && j in sys'.logouts[l].before && j in sys'.issued &&
                  sys'.issued[j].uid == sys'.logouts[l].uid && Recorded(sys', sys'.issued[j])
      ensures sys'.issued[j].fam in sys'.logouts[l].fams || Doomed(sys'.store, sys'.issued[j])
    {
      assert sys'.logouts[l].before == sys.logouts[l].before;
      StepKeepsToken(sys, ev, j);
      if Doomed(sys.store, sys.issued[j]) {
        StepKeepsDoom(sys, ev, sys.issued[j]);
      }
    }
  }

  lemma {:induction false} SafeRunsKeepIndex(states: seq<Sys>, evs: seq<Event>, n: nat)
    requires IsRun(states, evs) && n < |states|
    requires forall i :: 0 <= i < n && evs[i].DeleteIndex? ==> SafeDelete(states[i], evs[i].id)
    ensures IndexKept(states[n]) && ReadAll(states[n])
  {
    if n > 0 {
      var sys, ev := states[n - 1], evs[n - 1];
      SafeRunsKeepIndex(states, evs, n - 1);
      RunsKeepInv(states, evs, n - 1);
      RunsKeepLogouts(states, evs, n - 1);
      if ev.ReadIndex? {
        ReadIndexReadsAll(sys, ev);
      } else {
        OthersKeepReadAll(sys, ev);
      }
      if ev.DeleteIndex? {
        DeleteKeepsIndex(sys, ev.id);
      } else {
        OtherStepsKeepIndex(sys, ev);
      }
    }
  }

  /** Over any run the index keeps every family that matters exactly when no delete throws one away: when each finds
      whatever registered for its user since the read already dead. */
  lemma {:induction false} IndexKeptExactly(states: seq<Sys>, evs: seq<Event>, n: nat)
    requires IsRun(states, evs) && n < |states|
    ensures (forall k :: 0 <= k <= n ==> IndexKept(states[k]))
       <==> (forall i :: 0 <= i < n && evs[i].DeleteIndex? ==> SafeDelete(states[i], evs[i].id))
  {
    if forall i :: 0 <= i < n && evs[i].DeleteIndex? ==> SafeDelete(states[i], evs[i].id) {
      forall k | 0 <= k <= n
        ensures IndexKept(states[k])
      {
        SafeRunsKeepIndex(states, evs, k);
      }
    } else {
      FirstUnsafeLoses(states, evs, n);
    }
  }

  /** The first delete that throws a family away leaves the index without it. */
  lemma {:induction false} FirstUnsafeLoses(states: seq<Sys>, evs: seq<Event>, n: nat)
    requires IsRun(states, evs) && n < |states|
    requires exists i :: 0 <= i < n && evs[i].DeleteIndex? && !SafeDelete(states[i], evs[i].id)
    ensures exists k :: 0 <= k <= n && !IndexKept(states[k])
  {
    if forall i :: 0 <= i < n - 1 && evs[i].DeleteIndex? ==> SafeDelete(states[i], evs[i].id) {
      SafeRunsKeepIndex(states, evs, n - 1);
      RunsKeepInv(states, evs, n - 1);
      RunsKeepLogouts(states, evs, n - 1);
      DeleteKeepsIndex(states[n - 1], evs[n - 1].id);
      assert !IndexKept(states[n]);
    } else {
      FirstUnsafeLoses(states, evs, n - 1);
    }
  }

  /** In a timely run that is a question of tombstones alone. */
  lemma SafeWhenDead(states: seq<Sys>, evs: seq<Event>, n: nat)
    requires TimelyRun(states, evs) && n < |evs| && evs[n].DeleteIndex?
    ensures var sys, l := states[n], states[n].logouts[evs[n].id];
      SafeDelete(sys, evs[n].id) <==>
      forall j :: (j in sys.issued && j !in l.before && sys.issued[j].uid == l.uid &&
                   Recorded(sys, sys.issued[j])) ==>
        sys.issued[j].fam in sys.store.tombstones
  {
    var sys := states[n];
    RunRefines(states, evs, n);
    forall j | j in sys.issued && sys.issued[j].fam in sys.store.tombstones
      ensures Doomed(sys.store, sys.issued[j])
    {
      assert FamilyMatches(sys, sys.issued[j].fam, FamiliesAt(states, evs, n)[sys.issued[j].fam]);
    }
  }

  /** A first login gets in between the read and the delete of one logout, and a second logout no longer sees it. */
  const LOST_LOGIN: seq<Event> :=
    [ReadIndex(0, "user"), Login(0, "user", "org", "fam", "first"), Register(0), DeleteIndex(0),
     ReadIndex(1, "user"), DeleteIndex(1), Decode(1, "first"), Present("first", 1)]

  /** The login is in, and the first logout, which read an empty index, is about to delete it. */
  const LOGIN_IN_BETWEEN: Sys := Sys(0,
    Store(map["first" := Record("user", "org", "fam", true, RECORD_TTL)],
          map["fam" := IdSet({"first"}, RECORD_TTL)], map[], map["user" := IdSet({"fam"}, RECORD_TTL)]),
    map["first" := Token("user", "org", "fam", 0, 0)], map[], map[], map[],
    map[0 := Logout("user", {}, {}, 0, {})], {"first"}, {"fam"})

  lemma LoginInBetween(evs: seq<Event>) returns (states: seq<Sys>)
    requires evs == LOST_LOGIN[..3]
    ensures IsRun(states, evs) && states[3] == LOGIN_IN_BETWEEN
  {
    assert INIT.issued.Keys == {} && LiveIds(INIT.store.users, "user", 0) == {};
    var s1 := Step(INIT, evs[0]);
    assert s1 == INIT.(logouts := LOGIN_IN_BETWEEN.logouts);
    var s2 := Step(s1, evs[1]);
    var s3 := Step(s2, evs[2]);
    assert {} + {"first"} == {"first"} && {} + {"fam"} == {"fam"};
    assert s3.flights == map[] && s3.checks == map[] && s3.store == LOGIN_IN_BETWEEN.store;
    states := [INIT, s1, s2, s3];
  }

  /** Both logouts are done, and the login's token is as it was. */
  const BOTH_DONE: Sys := LOGIN_IN_BETWEEN.(store := LOGIN_IN_BETWEEN.store.(users := map[]), logouts := map[])

  lemma SecondLogoutSeesNothing(evs: seq<Event>) returns (states: seq<Sys>)
    requires evs == LOST_LOGIN[3..6]
    ensures states != [] && states[0] == LOGIN_IN_BETWEEN && Follows(states, evs)
    ensures states[2].logouts == map[1 := Logout("user", {}, {}, 0, {"first"})] && states[3] == BOTH_DONE
  {
    var s4 := Step(LOGIN_IN_BETWEEN, evs[0]);
    assert s4 == BOTH_DONE;
    assert s4.issued.Keys == {"first"} && LiveIds(s4.store.users, "user", 0) == {};
    var s5 := Step(s4, evs[1]);
    assert s5 == s4.(logouts := map[1 := Logout("user", {}, {}, 0, {"first"})]);
    var s6 := Step(s5, evs[2]);
    assert s6.logouts == map[] && s6.store.users == map[];
    states := [LOGIN_IN_BETWEEN, s4, s5, s6];
  }

  lemma LostLoginIsAccepted(evs: seq<Event>) returns (states: seq<Sys>)
    requires evs == LOST_LOGIN[6..]
    ensures states != [] && states[0] == BOTH_DONE && Follows(states, evs)
    ensures ReplyTo(states[1], evs[1]) == Answer(OK)
  {
    var s7 := Step(BOTH_DONE, evs[0]);
    assert s7.checks == map[1 := Check("first", 0)];
    states := [BOTH_DONE, s7, Step(s7, evs[1])];
  }

  lemma LostLogin() returns (states: seq<Sys>)
    ensures IsRun(states, LOST_LOGIN) && Enabled(states[3], LOST_LOGIN[3]) && !SafeDelete(states[3], 0)
    ensures states[5].logouts == map[1 := Logout("user", {}, {}, 0, {"first"})]
    ensures ReplyTo(states[7], LOST_LOGIN[7]) == Answer(OK)
  {
    var evs := LOST_LOGIN;
    var early := LoginInBetween(evs[..3]);
    var second := SecondLogoutSeesNothing(evs[3..6]);
    var late := LostLoginIsAccepted(evs[6..]);
    hide Step, ReplyTo;
    RunContinues(early, evs[..3], second, evs[3..6]);
    RunContinues(early + second[1..], evs[..3] + evs[3..6], late, evs[6..]);
    assert evs[..3] + evs[3..6] + evs[6..] == evs;
    states := early + second[1..] + late[1..];
    assert states[3] == LOGIN_IN_BETWEEN && states[5] == second[2] && states[7] == late[1];
    assert Recorded(states[3], states[3].issued["first"]) && !Doomed(states[3].store, states[3].issued["first"]);
  }

  // ---------------------------------------------------------------------------
  // What a finished logout achieves
  // ---------------------------------------------------------------------------

  /** The logout this delete finishes. */
  function Finished(sys: Sys, ev: Event): Logout
    requires Enabled(sys, ev) && ev.DeleteIndex?
  {
    sys.logouts[ev.id]
  }

  lemma DoomedIsDead(states: seq<Sys>, evs: seq<Event>, b: nat, c: nat)
    requires IsRun(states, evs) && b <= c < |evs| && evs[c].Present? && Timely(states[c], evs[c])
    requires Doomed(states[b].store, states[c].issued[evs[c].jti])
    ensures ReplyTo(states[c], evs[c]) == Answer(DEAD)
  {
    RunsKeepInv(states, evs, c);
    RunsKeepLogouts(states, evs, b);
    TimelyMeansRecorded(states[c], evs[c]);
    TombstonesOnlyGrow(states, evs, states[c].issued[evs[c].jti].fam, b, c);
  }

  /** After a logout everywhere a token of a family it read is answered dead, out by then or registered later, if its
      mint and the lag of its presentation together come at most GRACE seconds after the read; one that was out at the
      read is never accepted, whatever the lag. */
  lemma LogoutEverywhere(states: seq<Sys>, evs: seq<Event>, b: nat, c: nat)
    requires IsRun(states, evs) && b < c < |evs| && evs[b].DeleteIndex? && evs[c].Present?
    requires states[c].issued[evs[c].jti].fam in Finished(states[b], evs[b]).fams
    ensures var l, t := Finished(states[b], evs[b]), states[c].issued[evs[c].jti];
      && (t.minted + Lag(states[c], evs[c]) <= l.since + GRACE ==> ReplyTo(states[c], evs[c]) == Answer(DEAD))
      && (evs[c].jti in l.before ==> ReplyTo(states[c], evs[c]) != Answer(OK))
  {
    var l, t := Finished(states[b], evs[b]), states[c].issued[evs[c].jti];
    RunsKeepLogouts(states, evs, b);
    if t.minted + Lag(states[c], evs[c]) <= l.since + GRACE {
      DeathCoversTokens(states, evs, b, c);
    }
    if evs[c].jti in l.before {
      assert ExpiresBy(states[b], evs[c].jti, l.since + RECORD_TTL);
      OutlivedIsRefused(states, evs, l.since + RECORD_TTL, b, c);
    }
  }

  lemma {:induction false} TokensStay(states: seq<Sys>, evs: seq<Event>, jti: Jti, a: nat, b: nat)
    requires IsRun(states, evs) && a <= b < |states| && jti in states[a].issued
    ensures jti in states[b].issued && states[b].issued[jti] == states[a].issued[jti] && states[a].now <= states[b].now
    decreases b
  {
    if a < b {
      TokensStay(states, evs, jti, a, b - 1);
      RunsKeepInv(states, evs, b - 1);
      StepKeepsToken(states[b - 1], evs[b - 1], jti);
    }
  }

  /** Every token the user had when it read: none is accepted in time again, if no earlier delete had thrown a family
      away. */
  lemma LogoutCoversEveryToken(states: seq<Sys>, evs: seq<Event>, b: nat, c: nat)
    requires IsRun(states, evs) && b < c < |evs| && evs[b].DeleteIndex? && evs[c].Present?
    requires forall i :: 0 <= i < b && evs[i].DeleteIndex? ==> SafeDelete(states[i], evs[i].id)
    requires var l := Finished(states[b], evs[b]);
      evs[c].jti in l.before && states[c].issued[evs[c].jti].uid == l.uid && Timely(states[c], evs[c])
    ensures ReplyTo(states[c], evs[c]) == Answer(DEAD)
  {
    var l, jti := Finished(states[b], evs[b]), evs[c].jti;
    SafeRunsKeepIndex(states, evs, b);
    RunsKeepLogouts(states, evs, b);
    TokensStay(states, evs, jti, b, c);
    RunsKeepInv(states, evs, c);
    TimelyMeansRecorded(states[c], evs[c]);
    assert states[b].issued[jti].fam in l.fams ==> states[b].issued[jti].fam !in l.todo;
    DoomedIsDead(states, evs, b, c);
  }

  /** Every family a logout is done with is dead. */
  ghost predicate KilledWhenDone(sys: Sys, fam: Fam) {
    forall l :: l in sys.logouts && fam in sys.logouts[l].fams && fam !in sys.logouts[l].todo ==> DeadMatches(sys, fam)
  }

  lemma StepKeepsKilled(sys: Sys, ev: Event, fam: Fam)
    requires Inv(sys) && Enabled(sys, ev) && TimelyFor(sys, ev, fam) && KilledWhenDone(sys, fam)
    ensures KilledWhenDone(Step(sys, ev), fam)
  {
    if DeadMatches(sys, fam) {
      StepKeepsDead(sys, ev, fam);
    } else if ev.Revoke? && sys.revocations[ev.id].fam == fam {
      KilledIsDead(sys, ev, fam);
    }
  }

  lemma {:induction false} RunsKeepKilled(states: seq<Sys>, evs: seq<Event>, fam: Fam, n: nat)
    requires IsRun(states, evs) && n < |states|
    requires forall i :: 0 <= i < n ==> TimelyFor(states[i], evs[i], fam)
    ensures KilledWhenDone(states[n], fam)
  {
    if n > 0 {
      RunsKeepKilled(states, evs, fam, n - 1);
      RunsKeepInv(states, evs, n - 1);
      StepKeepsKilled(states[n - 1], evs[n - 1], fam);
    }
  }

  /** A rotation in flight at the logout does not escape it: if the family's own presentations are timely, its
      tokens are all answered dead, whenever they were minted. */
  lemma LogoutCatchesRotations(states: seq<Sys>, evs: seq<Event>, b: nat, c: nat)
    requires IsRun(states, evs) && b < c < |evs| && evs[b].DeleteIndex? && evs[c].Present?
    requires var fam := states[c].issued[evs[c].jti].fam;
      fam in Finished(states[b], evs[b]).fams && forall i :: 0 <= i <= c ==> TimelyFor(states[i], evs[i], fam)
    ensures ReplyTo(states[c], evs[c]) == Answer(DEAD)
  {
    var fam := states[c].issued[evs[c].jti].fam;
    RunsKeepKilled(states, evs, fam, b);
    KilledStaysDead(states, evs, fam, b, c);
    RunsKeepInv(states, evs, c);
    DeadReply(states[c], evs[c]);
  }

  // ---------------------------------------------------------------------------
  // Nobody else is logged out
  // ---------------------------------------------------------------------------

  /** A family's tokens and rotations all belong to one user of one organisation. */
  ghost predicate SameOwner(sys: Sys) {
    && (forall j, k :: j in sys.issued && k in sys.issued && sys.issued[j].fam == sys.issued[k].fam ==>
          sys.issued[j].uid == sys.issued[k].uid && sys.issued[j].org == sys.issued[k].org)
    && (forall j, i :: j in sys.issued && i in sys.flights && sys.issued[j].fam == sys.flights[i].fam ==>
          sys.issued[j].uid == sys.flights[i].uid && sys.issued[j].org == sys.flights[i].org)
  }

  /** Known families, none of which has a token or a rotation of another user's. */
  ghost predicate OwnFamilies(sys: Sys, uid: Uid, named: set<Fam>) {
    && named <= sys.knownFams
    && (forall j :: j in sys.issued && sys.issued[j].fam in named ==> sys.issued[j].uid == uid)
    && (forall i :: i in sys.flights && sys.flights[i].fam in named ==> sys.flights[i].uid == uid)
  }

  /** Only that user's index names it. */
  ghost predicate IndexOwner(sys: Sys) {
    forall u :: u in sys.store.users ==> OwnFamilies(sys, u, sys.store.users[u].ids)
  }

  /** And only that user's logouts have read it. */
  ghost predicate LogoutOwner(sys: Sys) {
    forall l :: l in sys.logouts ==> OwnFamilies(sys, sys.logouts[l].uid, sys.logouts[l].fams)
  }

  /** A revocation made for a logout is of a family that logout has yet to kill. */
  ghost predicate CallersWait(sys: Sys) {
    && (forall l :: l in sys.logouts ==> sys.logouts[l].todo <= sys.logouts[l].fams)
    && (forall r :: r in sys.revocations && sys.revocations[r].caller.Some? ==>
          && sys.revocations[r].caller.value in sys.logouts
          && sys.revocations[r].fam in sys.logouts[sys.revocations[r].caller.value].todo)
    && (forall q, r :: (q in sys.revocations && r in sys.revocations && sys.revocations[q].caller.Some? &&
          sys.revocations[q].caller == sys.revocations[r].caller) ==> q == r)
  }

  lemma RegisterKeepsSameOwner(sys: Sys, ev: Event)
    requires FlightsFresh(sys) && AtMostOneHolder(sys) && SameOwner(sys) && Enabled(sys, ev) && ev.Register?
    ensures SameOwner(Step(sys, ev))
  {
    var f := sys.flights[ev.id];
    assert forall i :: i in sys.flights && sys.flights[i].fam == f.fam ==> i == ev.id;
  }

  lemma OtherKeepsSameOwner(sys: Sys, ev: Event)
    requires TokensAccounted(sys) && SameOwner(sys) && Enabled(sys, ev) && !ev.Register?
    ensures SameOwner(Step(sys, ev))
  {
    assert Step(sys, ev).issued == sys.issued;
  }

  /** No step gives a user's family to anybody else. */
  lemma StepKeepsOwn(sys: Sys, ev: Event, uid: Uid, named: set<Fam>)
    requires TokensAccounted(sys) && FlightsFresh(sys) && OwnFamilies(sys, uid, named) && Enabled(sys, ev)
    ensures OwnFamilies(Step(sys, ev), uid, named)
  {
  }

  /** A family that registers for a user is that user's. */
  lemma RegisteredIsOwn(sys: Sys, id: nat)
    requires FlightsFresh(sys) && AtMostOneHolder(sys) && SameOwner(sys) && Enabled(sys, Register(id))
    ensures OwnFamilies(Step(sys, Register(id)), sys.flights[id].uid, {sys.flights[id].fam})
  {
    assert forall i :: i in sys.flights && sys.flights[i].fam == sys.flights[id].fam ==> i == id;
  }

  /** Only a registration changes what an index names, and adds its own family to its own user's. */
  lemma IndexGrows(sys: Sys, ev: Event, uid: Uid)
    requires Enabled(sys, ev) && uid in Step(sys, ev).store.users
    ensures var before := if uid in sys.store.users then sys.store.users[uid].ids else {};
      if ev.Register? && uid == sys.flights[ev.id].uid
      then Step(sys, ev).store.users[uid].ids <= before + {sys.flights[ev.id].fam}
      else uid in sys.store.users && Step(sys, ev).store.users[uid].ids == before
  {
  }

  lemma OwnTogether(sys: Sys, uid: Uid, a: set<Fam>, b: set<Fam>, named: set<Fam>)
    requires OwnFamilies(sys, uid, a) && OwnFamilies(sys, uid, b) && named <= a + b
    ensures OwnFamilies(sys, uid, named)
  {
  }

  lemma StepKeepsIndexOwner(sys: Sys, ev: Event)
    requires TokensAccounted(sys) && FlightsFresh(sys) && AtMostOneHolder(sys) && SameOwner(sys) && IndexOwner(sys)
    requires Enabled(sys, ev)
    ensures IndexOwner(Step(sys, ev))
  {
    hide Step, OwnFamilies, TokensAccounted, FlightsFresh, AtMostOneHolder, SameOwner;
    var users := Step(sys, ev).store.users;
    forall u | u in users
      ensures OwnFamilies(Step(sys, ev), u, users[u].ids)
    {
      IndexGrows(sys, ev, u);
      if u in sys.store.users {
        StepKeepsOwn(sys, ev, u, sys.store.users[u].ids);
      }
      if ev.Register? && u == sys.flights[ev.id].uid {
        RegisteredIsOwn(sys, ev.id);
        var own := {sys.flights[ev.id].fam};
        OwnTogether(Step(sys, ev), u, if u in sys.store.users then sys.store.users[u].ids else own, own, users[u].ids);
      }
    }
  }

  lemma StepKeepsLogoutOwner(sys: Sys, ev: Event)
    requires TokensAccounted(sys) && FlightsFresh(sys) && IndexOwner(sys) && LogoutOwner(sys) && Enabled(sys, ev)
    ensures LogoutOwner(Step(sys, ev))
  {
    var logouts := Step(sys, ev).logouts;
    forall l | l in logouts
      ensures OwnFamilies(Step(sys, ev), logouts[l].uid, logouts[l].fams)
    {
      if l in sys.logouts {
        StepKeepsOwn(sys, ev, logouts[l].uid, logouts[l].fams);
      } else {
        assert ev.ReadIndex? && logouts[l].fams == LiveIds(sys.store.users, ev.uid, sys.now);
      }
    }
  }

  lemma StepKeepsCallers(sys: Sys, ev: Event)
    requires CallersWait(sys) && Enabled(sys, ev)
    ensures CallersWait(Step(sys, ev))
  {
  }

  lemma {:induction false} RunsKeepOwners(states: seq<Sys>, evs: seq<Event>, n: nat)
    requires IsRun(states, evs) && n < |states|
    ensures SameOwner(states[n]) && IndexOwner(states[n]) && LogoutOwner(states[n]) && CallersWait(states[n])
  {
    if n > 0 {
      var sys, ev := states[n - 1], evs[n - 1];
      RunsKeepOwners(states, evs, n - 1);
      RunsKeepInv(states, evs, n - 1);
      StepKeepsIndexOwner(sys, ev);
      StepKeepsLogoutOwner(sys, ev);
      StepKeepsCallers(sys, ev);
      if ev.Register? {
        RegisterKeepsSameOwner(sys, ev);
      } else {
        OtherKeepsSameOwner(sys, ev);
      }
    }
  }

  /** Each revocation made for a logout everywhere leaves it one family fewer to kill: it is done after as many as it read. */
  lemma EachRevocationGetsCloser(states: seq<Sys>, evs: seq<Event>, n: nat)
    requires IsRun(states, evs) && n < |evs| && evs[n].Revoke? && states[n].revocations[evs[n].id].caller.Some?
    ensures var r := states[n].revocations[evs[n].id];
      && r.caller.value in states[n].logouts && r.caller.value in states[n + 1].logouts
      && var before, after := states[n].logouts[r.caller.value], states[n + 1].logouts[r.caller.value];
         after == before.(todo := before.todo - {r.fam}) && |after.todo| == |before.todo| - 1
  {
    RunsKeepOwners(states, evs, n);
  }

  /** Whose logout everywhere this is a step of. */
  function LoggingOut(sys: Sys, ev: Event): Option<Uid>
    requires Enabled(sys, ev)
  {
    match ev
    case ReadIndex(_, uid) => Some(uid)
    case ReadFamily(_, _, Some(l)) => Some(sys.logouts[l].uid)
    case Revoke(id) =>
      var caller := sys.revocations[id].caller;
      if caller.Some? && caller.value in sys.logouts then Some(sys.logouts[caller.value].uid) else None
    case DeleteIndex(id) => Some(sys.logouts[id].uid)
    case _ => None
  }

  lemma RevokedForAnother(sys: Sys, ev: Event, jti: Jti, id: nat)
    requires KeysOwned(sys) && LogoutOwner(sys) && CallersWait(sys) && Enabled(sys, ev) && ev.Revoke?
    requires Enabled(sys, Present(jti, id)) && LoggingOut(sys, ev).Some? && LoggingOut(sys, ev).value != sys.issued[jti].uid
    ensures SameFor(sys, Step(sys, ev), sys.issued[jti].fam)
  {
    var r := sys.revocations[ev.id];
    assert r.fam in sys.logouts[r.caller.value].fams;
    assert OwnFamilies(sys, sys.logouts[r.caller.value].uid, sys.logouts[r.caller.value].fams);
    RevokeTouchesOneFamily(sys, ev, sys.issued[jti].fam);
  }

  lemma SameReply(sys: Sys, sys': Sys, jti: Jti, id: nat)
    requires Enabled(sys, Present(jti, id)) && Enabled(sys', Present(jti, id)) && sys'.now == sys.now
    requires sys'.store.records.Keys <= sys.store.records.Keys && SameFor(sys, sys', sys.issued[jti].fam)
    ensures ReplyTo(sys', Present(jti, id)) == ReplyTo(sys, Present(jti, id))
  {
  }

  /** No step of one user's logout changes what a token of anyone else's is answered. */
  lemma NobodyElseIsLoggedOut(states: seq<Sys>, evs: seq<Event>, n: nat, jti: Jti, id: nat)
    requires IsRun(states, evs) && n < |evs| && Enabled(states[n], Present(jti, id))
    requires LoggingOut(states[n], evs[n]).Some? && LoggingOut(states[n], evs[n]).value != states[n].issued[jti].uid
    ensures Enabled(states[n + 1], Present(jti, id))
    ensures ReplyTo(states[n + 1], Present(jti, id)) == ReplyTo(states[n], Present(jti, id))
  {
    RunsKeepInv(states, evs, n);
    RunsKeepOwners(states, evs, n);
    LogoutStepSpares(states[n], evs[n], jti, id);
  }

  lemma LogoutStepSpares(sys: Sys, ev: Event, jti: Jti, id: nat)
    requires KeysOwned(sys) && LogoutOwner(sys) && CallersWait(sys) && Enabled(sys, ev)
    requires Enabled(sys, Present(jti, id)) && LoggingOut(sys, ev).Some? && LoggingOut(sys, ev).value != sys.issued[jti].uid
    ensures Enabled(Step(sys, ev), Present(jti, id))
    ensures ReplyTo(Step(sys, ev), Present(jti, id)) == ReplyTo(sys, Present(jti, id))
  {
    if ev.Revoke? {
      RevokedForAnother(sys, ev, jti, id);
      SameReply(sys, Step(sys, ev), jti, id);
    }
  }
}
