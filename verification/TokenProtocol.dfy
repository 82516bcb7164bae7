/** Login, rotation, replay and logout, interleaved freely over the token store.

  `rotate_refresh` checks the JWT, awaits the script, reads the database, mints, and awaits
  the registration, `revoke_family` reads the members before it opens its MULTI, and logging out
  everywhere reads an index, revokes what it read and deletes the index, so each of these
  is split into the steps other clients can get in between.  One clock stands for Redis
  and the application alike.  Tokens are genuine: what a client presents was minted here
  and handed out, so its claims are the ones recorded in `issued`.
*/
module TokenProtocol {
  import opened Text
  import opened TokenStore

  /** How late after its consume a rotation may mint and still be covered by a tombstone. */
  const GRACE: int := TTL_MARGIN - LEEWAY

  /** `since` is when the rotation that minted it consumed its predecessor; for a login, when it was minted. */
  datatype Token = Token(uid: Uid, org: Org, fam: Fam, minted: int, since: int)

  /** A token whose JWT was found valid, on its way to the script. */
  datatype Check = Check(jti: Jti, at: int)

  datatype Flight =
    | Spent(uid: Uid, org: Org, fam: Fam, since: int)
    | Minted(uid: Uid, org: Org, fam: Fam, since: int, jti: Jti, minted: int)
  datatype Revocation = Revocation(fam: Fam, members: set<Jti>, caller: Option<nat>)

  /** A logout everywhere between its read of the index and its delete: the families it read, those it has yet
      to kill, and for the record when it read and which tokens were out by then. */
  datatype Logout = Logout(uid: Uid, fams: set<Fam>, todo: set<Fam>, since: int, before: set<Jti>)

  datatype Sys = Sys(
    now: int,
    store: Store,
    issued: map<Jti, Token>,          // registered, so a client may hold it
    checks: map<nat, Check>,          // presentations between the JWT check and the script
    flights: map<nat, Flight>,        // issues and rotations between two store calls
    revocations: map<nat, Revocation>, // revoke_family calls between read and MULTI
    logouts: map<nat, Logout>,         // revoke_all_for_user calls between read and delete
    usedJtis: set<Jti>,
    knownFams: set<Fam>)

  datatype Event =
    | Tick(seconds: nat)
    | Login(id: nat, uid: Uid, org: Org, fam: Fam, jti: Jti)
    | Decode(id: nat, jti: Jti)          // the JWT check of a presentation
    | Present(jti: Jti, id: nat)         // and its script
    | Mint(id: nat, jti: Jti)
    | Register(id: nat)
    | Drop(id: nat)
    | ReadFamily(id: nat, fam: Fam, caller: Option<nat>)   // by a logout everywhere, or on its own
    | Revoke(id: nat)
    | ReadIndex(id: nat, uid: Uid)
    | DeleteIndex(id: nat)

  /** PyJWT accepts an `exp` up to the leeway in the past (section 4.1.4 of RFC 7519). */
  predicate JwtValid(minted: int, now: int) {
    now < minted + TOKEN_LIFE + LEEWAY
  }

  const INIT: Sys := Sys(0, Store(map[], map[], map[], map[]), map[], map[], map[], map[], map[], {}, {})

  /** What can happen next: identifiers are fresh (uuid4), tokens were handed out. */
  predicate Enabled(sys: Sys, ev: Event) {
    match ev
    case Tick(_) => true
    case Login(id, _, _, fam, jti) => id !in sys.flights && fam !in sys.knownFams && jti !in sys.usedJtis
    case Decode(id, jti) => id !in sys.checks && jti in sys.issued
    case Present(jti, id) => id in sys.checks && sys.checks[id].jti == jti && jti in sys.issued && id !in sys.flights
    case Mint(id, jti) => id in sys.flights && sys.flights[id].Spent? && jti !in sys.usedJtis
    case Register(id) => id in sys.flights && sys.flights[id].Minted?
    case Drop(id) => id in sys.flights
    case ReadFamily(id, fam, caller) => id !in sys.revocations && fam in sys.knownFams && MayKill(sys, fam, caller)
    case Revoke(id) => id in sys.revocations
    case ReadIndex(id, _) => id !in sys.logouts
    case DeleteIndex(id) => id in sys.logouts && sys.logouts[id].todo == {}
  }

  /** A logout everywhere kills the families it read, one after the other. */
  predicate MayKill(sys: Sys, fam: Fam, caller: Option<nat>) {
    caller.Some? ==>
      && caller.value in sys.logouts && fam in sys.logouts[caller.value].todo
      && forall r :: r in sys.revocations ==> sys.revocations[r].caller != caller
  }

  /** The call that asked for a revocation, if any, has one family fewer to kill. */
  function OneFewer(logouts: map<nat, Logout>, r: Revocation): map<nat, Logout> {
    if r.caller.Some? && r.caller.value in logouts
    then var l := logouts[r.caller.value]; logouts[r.caller.value := l.(todo := l.todo - {r.fam})]
    else logouts
  }

  function Step(sys: Sys, ev: Event): Sys
    requires Enabled(sys, ev)
  {
    match ev
    case Tick(seconds) => sys.(now := sys.now + seconds)
    case Login(id, uid, org, fam, jti) =>
      sys.(flights := sys.flights[id := Minted(uid, org, fam, sys.now, jti, sys.now)],
           usedJtis := sys.usedJtis + {jti},
           knownFams := sys.knownFams + {fam})
    case Decode(id, jti) =>
      if JwtValid(sys.issued[jti].minted, sys.now) then sys.(checks := sys.checks[id := Check(jti, sys.now)]) else sys
    case Present(jti, id) =>
      var t := sys.issued[jti];
      var (store, outcome) := Consumed(sys.store, sys.now, jti, t.uid, t.fam);
      sys.(store := store,
           checks := sys.checks - {id},
           flights := if outcome.OK? then sys.flights[id := Spent(t.uid, t.org, t.fam, sys.now)] else sys.flights)
    case Mint(id, jti) =>
      var f := sys.flights[id];
      sys.(flights := sys.flights[id := Minted(f.uid, f.org, f.fam, f.since, jti, sys.now)], usedJtis := sys.usedJtis + {jti})
    case Register(id) =>
      var f := sys.flights[id];
      sys.(store := Registered(sys.store, sys.now, f.jti, f.uid, f.org, f.fam),
           issued := sys.issued[f.jti := Token(f.uid, f.org, f.fam, f.minted, f.since)],
           flights := sys.flights - {id})
    case Drop(id) => sys.(flights := sys.flights - {id})
    case ReadFamily(id, fam, caller) =>
      sys.(revocations := sys.revocations[id := Revocation(fam, LiveIds(sys.store.families, fam, sys.now), caller)])
    case Revoke(id) =>
      var r := sys.revocations[id];
      sys.(store := Revoked(sys.store, sys.now, r.fam, r.members),
           revocations := sys.revocations - {id},
           logouts := OneFewer(sys.logouts, r))
    case ReadIndex(id, uid) =>
      var fams := LiveIds(sys.store.users, uid, sys.now);
      sys.(logouts := sys.logouts[id := Logout(uid, fams, fams, sys.now, sys.issued.Keys)])
    case DeleteIndex(id) =>
      sys.(store := sys.store.(users := sys.store.users - {sys.logouts[id].uid}), logouts := sys.logouts - {id})
  }

  datatype Reply = Rejected | Answer(outcome: Outcome) | Quiet

  /** What the client of this step is told.  `Rejected` is the JWT check, before the store. */
  function ReplyTo(sys: Sys, ev: Event): Reply
    requires Enabled(sys, ev)
  {
    match ev
    case Decode(_, jti) => if JwtValid(sys.issued[jti].minted, sys.now) then Quiet else Rejected
    case Present(jti, _) => Answer(Consumed(sys.store, sys.now, jti, sys.issued[jti].uid, sys.issued[jti].fam).1)
    case _ => Quiet
  }

  // ---------------------------------------------------------------------------
  // The three-state family machine
  // ---------------------------------------------------------------------------

  datatype Family = Alive(jti: Jti) | Rotating | Dead
  type Families = map<Fam, Family>

  /** The clockless event a step amounts to; it never looks at the store. */
  datatype Signal =
    | Opened(fam: Fam)
    | Presented(fam: Fam, jti: Jti)
    | Installed(fam: Fam, jti: Jti)
    | Killed(fam: Fam)
    | Nothing

  function SignalOf(sys: Sys, ev: Event): Signal
    requires Enabled(sys, ev)
  {
    match ev
    case Login(_, _, _, fam, _) => Opened(fam)
    case Present(jti, _) => Presented(sys.issued[jti].fam, jti)
    case Register(id) => Installed(sys.flights[id].fam, sys.flights[id].jti)
    case Revoke(id) => Killed(sys.revocations[id].fam)
    case _ => Nothing
  }

  function StateOf(fams: Families, fam: Fam): Family {
    if fam in fams then fams[fam] else Dead
  }

  function NextFamilies(fams: Families, signal: Signal): Families {
    match signal
    case Opened(fam) => fams[fam := Rotating]
    case Presented(fam, jti) => fams[fam := if StateOf(fams, fam) == Alive(jti) then Rotating else Dead]
    case Installed(fam, jti) => fams[fam := if StateOf(fams, fam).Dead? then Dead else Alive(jti)]
    case Killed(fam) => fams[fam := Dead]
    case Nothing => fams
  }

  function ExpectedReply(fams: Families, sys: Sys, ev: Event): Reply
    requires Enabled(sys, ev)
  {
    match SignalOf(sys, ev)
    case Presented(fam, jti) =>
      Answer(if StateOf(fams, fam) == Alive(jti) then OK else if StateOf(fams, fam).Dead? then DEAD else REUSE)
    case _ => ReplyTo(sys, ev)
  }

  // ---------------------------------------------------------------------------
  // What every reachable state satisfies
  // ---------------------------------------------------------------------------

  /** The stored record of an issued token agrees with it and outlives it. */
  ghost predicate Holds(sys: Sys, jti: Jti)
    requires jti in sys.issued
  {
    && jti in sys.store.records
    && var t, r := sys.issued[jti], sys.store.records[jti];
    r.uid == t.uid && r.org == t.org && r.fam == t.fam && t.minted + RECORD_TTL <= r.expires
  }

  /** A tombstone that lasts at least as long as a token minted at `minted`. */
  ghost predicate Covered(s: Store, fam: Fam, minted: int) {
    fam in s.tombstones && minted + RECORD_TTL <= s.tombstones[fam]
  }

  ghost predicate TokensAccounted(sys: Sys) {
    forall j :: j in sys.issued ==>
      && j in sys.usedJtis
      && sys.issued[j].fam in sys.knownFams
      && sys.issued[j].since <= sys.issued[j].minted <= sys.now
      && (Holds(sys, j) || Covered(sys.store, sys.issued[j].fam, sys.issued[j].minted))
  }

  ghost predicate FlightsFresh(sys: Sys) {
    && (forall i :: i in sys.flights ==> sys.flights[i].fam in sys.knownFams)
    && (forall i :: i in sys.flights ==> sys.flights[i].since <= sys.now)
    && (forall i :: i in sys.flights && sys.flights[i].Minted? ==> sys.flights[i].since <= sys.flights[i].minted <= sys.now)
    && (forall i :: i in sys.flights && sys.flights[i].Minted? ==>
          sys.flights[i].jti in sys.usedJtis && sys.flights[i].jti !in sys.issued)
    && (forall a, b :: (a in sys.flights && b in sys.flights && sys.flights[a].Minted? && sys.flights[b].Minted? &&
          sys.flights[a].jti == sys.flights[b].jti) ==> a == b)
  }

  /** Records, member sets and pending revocations only name issued tokens of their family. */
  ghost predicate KeysOwned(sys: Sys) {
    && (forall j :: j in sys.store.records ==> j in sys.issued && sys.issued[j].fam == sys.store.records[j].fam)
    && (forall f, j :: f in sys.store.families && j in sys.store.families[f].ids ==>
          j in sys.issued && sys.issued[j].fam == f)
    && (forall i, j :: i in sys.revocations && j in sys.revocations[i].members ==>
          j in sys.issued && sys.issued[j].fam == sys.revocations[i].fam)
    && (forall i :: i in sys.revocations ==> sys.revocations[i].fam in sys.knownFams)
    && (forall f :: f in sys.store.tombstones ==> f in sys.knownFams)
  }

  /** Active records plus in-flight rotations never exceed one in any family. */
  ghost predicate AtMostOneHolder(sys: Sys) {
    && (forall a, b :: a in sys.flights && b in sys.flights && sys.flights[a].fam == sys.flights[b].fam ==> a == b)
    && (forall j, k :: (j in sys.store.records && k in sys.store.records &&
          sys.store.records[j].active && sys.store.records[k].active &&
          sys.store.records[j].fam == sys.store.records[k].fam) ==> j == k)
    && (forall a, j :: a in sys.flights && j in sys.store.records && sys.store.records[j].active ==>
          sys.store.records[j].fam != sys.flights[a].fam)
  }

  /** Whatever is on its way to the script is an issued token that passed the JWT check. */
  ghost predicate ChecksPassed(sys: Sys) {
    forall i :: i in sys.checks ==>
      && sys.checks[i].jti in sys.issued && sys.checks[i].at <= sys.now
      && JwtValid(sys.issued[sys.checks[i].jti].minted, sys.checks[i].at)
  }

  ghost predicate Inv(sys: Sys) {
    ChecksPassed(sys) && TokensAccounted(sys) && FlightsFresh(sys) && KeysOwned(sys) && AtMostOneHolder(sys)
  }

  lemma PresentKeepsTokens(sys: Sys, ev: Event)
    requires TokensAccounted(sys) && KeysOwned(sys) && Enabled(sys, ev) && ev.Present?
    ensures TokensAccounted(Step(sys, ev))
  {
  }

  lemma RegisterKeepsTokens(sys: Sys, ev: Event)
    requires TokensAccounted(sys) && FlightsFresh(sys) && Enabled(sys, ev) && ev.Register?
    ensures TokensAccounted(Step(sys, ev))
  {
  }

  lemma RevokeKeepsTokens(sys: Sys, ev: Event)
    requires TokensAccounted(sys) && KeysOwned(sys) && Enabled(sys, ev) && ev.Revoke?
    ensures TokensAccounted(Step(sys, ev))
  {
  }

  lemma ClientKeepsTokens(sys: Sys, ev: Event)
    requires TokensAccounted(sys) && Enabled(sys, ev) && !ev.Present? && !ev.Register? && !ev.Revoke?
    ensures TokensAccounted(Step(sys, ev))
  {
  }

  lemma PresentKeepsFlights(sys: Sys, ev: Event)
    requires TokensAccounted(sys) && FlightsFresh(sys) && Enabled(sys, ev) && ev.Present?
    ensures FlightsFresh(Step(sys, ev))
  {
  }

  lemma RegisterKeepsFlights(sys: Sys, ev: Event)
    requires FlightsFresh(sys) && Enabled(sys, ev) && ev.Register?
    ensures FlightsFresh(Step(sys, ev))
  {
  }

  lemma RevokeKeepsFlights(sys: Sys, ev: Event)
    requires FlightsFresh(sys) && Enabled(sys, ev) && ev.Revoke?
    ensures FlightsFresh(Step(sys, ev))
  {
  }

  lemma ClientKeepsFlights(sys: Sys, ev: Event)
    requires TokensAccounted(sys) && FlightsFresh(sys) && Enabled(sys, ev) && !ev.Present? && !ev.Register? && !ev.Revoke?
    ensures FlightsFresh(Step(sys, ev))
  {
  }

  /** Keys only go, and the tombstone is of a family that was known. */
  lemma FewerKeysKept(sys: Sys, sys': Sys, killed: Fam)
    requires KeysOwned(sys) && killed in sys.knownFams
    requires sys'.issued == sys.issued && sys'.revocations == sys.revocations && sys'.knownFams == sys.knownFams
    requires forall j :: j in sys'.store.records ==> j in sys.store.records && sys'.store.records[j].fam == sys.store.records[j].fam
    requires forall f :: f in sys'.store.families ==> f in sys.store.families && sys'.store.families[f] == sys.store.families[f]
    requires forall f :: f in sys'.store.tombstones ==> f == killed || f in sys.store.tombstones
    ensures KeysOwned(sys')
  {
  }

  lemma PresentKeepsKeys(sys: Sys, ev: Event)
    requires TokensAccounted(sys) && KeysOwned(sys) && Enabled(sys, ev) && ev.Present?
    ensures KeysOwned(Step(sys, ev))
  {
    var t := sys.issued[ev.jti];
    ConsumeAddsNoKeys(sys.store, sys.now, ev.jti, t.uid, t.fam);
    FewerKeysKept(sys, Step(sys, ev), t.fam);
  }

  lemma RegisterKeepsKeys(sys: Sys, ev: Event)
    requires FlightsFresh(sys) && KeysOwned(sys) && Enabled(sys, ev) && ev.Register?
    ensures KeysOwned(Step(sys, ev))
  {
  }

  lemma RevokeKeepsKeys(sys: Sys, ev: Event)
    requires KeysOwned(sys) && Enabled(sys, ev) && ev.Revoke?
    ensures KeysOwned(Step(sys, ev))
  {
  }

  lemma ClientKeepsKeys(sys: Sys, ev: Event)
    requires KeysOwned(sys) && Enabled(sys, ev) && !ev.Present? && !ev.Register? && !ev.Revoke?
    ensures KeysOwned(Step(sys, ev))
  {
  }

  /** Records go, or stop being active: no family gains a holder. */
  lemma FewerHoldersKept(sys: Sys, sys': Sys)
    requires AtMostOneHolder(sys) && sys'.flights == sys.flights
    requires forall j :: j in sys'.store.records ==> j in sys.store.records && sys'.store.records[j] == sys.store.records[j]
    ensures AtMostOneHolder(sys')
  {
  }

  /** A family's active record gives way to a rotation. */
  lemma HolderMovesToFlight(sys: Sys, sys': Sys, jti: Jti, id: nat)
    requires AtMostOneHolder(sys) && jti in sys.store.records && sys.store.records[jti].active
    requires sys'.store.records == sys.store.records[jti := sys.store.records[jti].(active := false)]
    requires id in sys'.flights && sys'.flights[id].fam == sys.store.records[jti].fam
    requires forall i :: i in sys'.flights && i != id ==> i in sys.flights && sys'.flights[i] == sys.flights[i]
    ensures AtMostOneHolder(sys')
  {
  }

  lemma PresentKeepsHolder(sys: Sys, ev: Event)
    requires AtMostOneHolder(sys) && Enabled(sys, ev) && ev.Present?
    ensures AtMostOneHolder(Step(sys, ev))
  {
    if ReplyTo(sys, ev) == Answer(OK) {
      HolderMovesToFlight(sys, Step(sys, ev), ev.jti, ev.id);
    } else {
      FewerHoldersKept(sys, Step(sys, ev));
    }
  }

  lemma RegisterKeepsHolder(sys: Sys, ev: Event)
    requires KeysOwned(sys) && FlightsFresh(sys) && AtMostOneHolder(sys) && Enabled(sys, ev) && ev.Register?
    ensures AtMostOneHolder(Step(sys, ev))
  {
  }

  lemma RevokeKeepsHolder(sys: Sys, ev: Event)
    requires AtMostOneHolder(sys) && Enabled(sys, ev) && ev.Revoke?
    ensures AtMostOneHolder(Step(sys, ev))
  {
  }

  lemma ClientKeepsHolder(sys: Sys, ev: Event)
    requires TokensAccounted(sys) && FlightsFresh(sys) && KeysOwned(sys) && AtMostOneHolder(sys) && Enabled(sys, ev) && !ev.Present? && !ev.Register? && !ev.Revoke?
    ensures AtMostOneHolder(Step(sys, ev))
  {
  }

  lemma StepKeepsChecks(sys: Sys, ev: Event)
    requires ChecksPassed(sys) && FlightsFresh(sys) && Enabled(sys, ev)
    ensures ChecksPassed(Step(sys, ev))
  {
  }

  lemma StepKeepsInv(sys: Sys, ev: Event)
    requires Inv(sys) && Enabled(sys, ev)
    ensures Inv(Step(sys, ev))
  {
    StepKeepsChecks(sys, ev);
    if ev.Present? {
      PresentKeepsTokens(sys, ev);
      PresentKeepsFlights(sys, ev);
      PresentKeepsKeys(sys, ev);
      PresentKeepsHolder(sys, ev);
    } else if ev.Register? {
      RegisterKeepsTokens(sys, ev);
      RegisterKeepsFlights(sys, ev);
      RegisterKeepsKeys(sys, ev);
      RegisterKeepsHolder(sys, ev);
    } else if ev.Revoke? {
      RevokeKeepsTokens(sys, ev);
      RevokeKeepsFlights(sys, ev);
      RevokeKeepsKeys(sys, ev);
      RevokeKeepsHolder(sys, ev);
    } else {
      ClientKeepsTokens(sys, ev);
      ClientKeepsFlights(sys, ev);
      ClientKeepsKeys(sys, ev);
      ClientKeepsHolder(sys, ev);
    }
  }

  // ---------------------------------------------------------------------------
  // Runs
  // ---------------------------------------------------------------------------

  /** Any interleaving whatever, from the empty store. */
  ghost predicate IsRun(states: seq<Sys>, evs: seq<Event>) {
    && |states| == |evs| + 1
    && states[0] == INIT
    && forall i :: 0 <= i < |evs| ==> Enabled(states[i], evs[i]) && states[i + 1] == Step(states[i], evs[i])
  }

  lemma {:induction false} RunsKeepInv(states: seq<Sys>, evs: seq<Event>, n: nat)
    requires IsRun(states, evs) && n < |states|
    ensures Inv(states[n])
  {
    if n > 0 {
      RunsKeepInv(states, evs, n - 1);
      StepKeepsInv(states[n - 1], evs[n - 1]);
    }
  }

  /** In every reachable state a family has one holder at most: a live token or a rotation. */
  lemma OneHolderAlways(states: seq<Sys>, evs: seq<Event>, n: nat)
    requires IsRun(states, evs) && n < |states|
    ensures AtMostOneHolder(states[n])
  {
    RunsKeepInv(states, evs, n);
  }

  /** How long after its JWT check a presentation's script runs. */
  function Lag(sys: Sys, ev: Event): int
    requires Enabled(sys, ev) && ev.Present?
  {
    sys.now - sys.checks[ev.id].at
  }

  /** A record outlives every script run `lag` seconds after a passing JWT check exactly if `lag` is within GRACE. */
  lemma RecordOutlivesCheck(minted: int, lag: nat)
    ensures (forall at :: JwtValid(minted, at) ==> at + lag < minted + RECORD_TTL) <==> lag <= GRACE
  {
    var at := minted + TOKEN_LIFE + LEEWAY - 1;
    assert JwtValid(minted, at);
  }

  /** A genuine token whose script runs within GRACE seconds of its JWT check is never unknown and never a mismatch. */
  lemma NoFalseAlarm(states: seq<Sys>, evs: seq<Event>, n: nat)
    requires IsRun(states, evs) && n < |evs|
    requires evs[n].Present? ==> Lag(states[n], evs[n]) <= GRACE
    ensures ReplyTo(states[n], evs[n]) !in {Answer(UNKNOWN), Answer(MISMATCH)}
  {
    RunsKeepInv(states, evs, n);
  }

  /** A token that cannot be rotated any more: its record is used or gone. */
  ghost predicate Exhausted(sys: Sys, jti: Jti) {
    jti in sys.issued && (jti in sys.store.records ==> !sys.store.records[jti].active)
  }

  lemma StepKeepsExhausted(sys: Sys, ev: Event, jti: Jti)
    requires FlightsFresh(sys) && Enabled(sys, ev) && Exhausted(sys, jti)
    ensures Exhausted(Step(sys, ev), jti)
  {
  }

  lemma {:induction false} ExhaustedForever(states: seq<Sys>, evs: seq<Event>, jti: Jti, a: nat, b: nat)
    requires IsRun(states, evs) && a <= b < |states|
    requires Exhausted(states[a], jti)
    ensures Exhausted(states[b], jti)
    decreases b
  {
    if a < b {
      ExhaustedForever(states, evs, jti, a, b - 1);
      RunsKeepInv(states, evs, b - 1);
      StepKeepsExhausted(states[b - 1], evs[b - 1], jti);
    }
  }

  /** Whatever the interleaving and whatever the delays, one token is accepted once. */
  lemma AcceptedAtMostOnce(states: seq<Sys>, evs: seq<Event>, a: nat, b: nat)
    requires IsRun(states, evs) && a < b < |evs|
    requires evs[a].Present? && evs[b].Present? && evs[a].jti == evs[b].jti
    requires ReplyTo(states[a], evs[a]) == Answer(OK)
    ensures ReplyTo(states[b], evs[b]) != Answer(OK)
  {
    ExhaustedForever(states, evs, evs[a].jti, a + 1, b);
  }

  lemma StepKeepsTombstone(sys: Sys, ev: Event, fam: Fam)
    requires Enabled(sys, ev) && fam in sys.store.tombstones && sys.store.tombstones[fam] <= sys.now + RECORD_TTL
    ensures var sys' := Step(sys, ev);
      && sys.now <= sys'.now && fam in sys'.store.tombstones
      && sys.store.tombstones[fam] <= sys'.store.tombstones[fam] <= sys'.now + RECORD_TTL
  {
  }

  lemma {:induction false} TombstonesOnlyGrow(states: seq<Sys>, evs: seq<Event>, fam: Fam, a: nat, b: nat)
    requires IsRun(states, evs) && a <= b < |states|
    requires fam in states[a].store.tombstones && states[a].store.tombstones[fam] <= states[a].now + RECORD_TTL
    ensures states[a].now <= states[b].now && fam in states[b].store.tombstones
    ensures states[a].store.tombstones[fam] <= states[b].store.tombstones[fam] <= states[b].now + RECORD_TTL
    decreases b
  {
    if a < b {
      TombstonesOnlyGrow(states, evs, fam, a, b - 1);
      StepKeepsTombstone(states[b - 1], evs[b - 1], fam);
    }
  }

  /** A tombstone covers every script run at most `lag` seconds after a passing JWT check of a token exactly if the
      token's mint, delayed by that lag, comes at most GRACE seconds after the kill. */
  lemma TombstoneCovers(s: Store, fam: Fam, killed: int, minted: int, lag: nat)
    requires fam in s.tombstones && s.tombstones[fam] == killed + RECORD_TTL
    ensures (forall at, t :: killed <= t && JwtValid(minted, at) && at <= t <= at + lag ==> Tombstoned(s, fam, t))
       <==> minted + lag <= killed + GRACE
  {
    if minted + lag > killed + GRACE {
      var at := minted + TOKEN_LIFE + LEEWAY - 1;
      assert JwtValid(minted, at) && !Tombstoned(s, fam, at + lag);
    }
  }

  /** After a family dies, none of its tokens is accepted whose mint and the lag of its presentation together come at
      most GRACE seconds after the kill. */
  lemma DeathCoversTokens(states: seq<Sys>, evs: seq<Event>, a: nat, b: nat)
    requires IsRun(states, evs) && a <= b < |evs| && evs[b].Present?
    requires var t := states[b].issued[evs[b].jti];
      && t.fam in states[a].store.tombstones
      && states[a].store.tombstones[t.fam] <= states[a].now + RECORD_TTL
      && t.minted + Lag(states[b], evs[b]) <= states[a].store.tombstones[t.fam] - RECORD_TTL + GRACE
    ensures ReplyTo(states[b], evs[b]) == Answer(DEAD)
  {
    RunsKeepInv(states, evs, b);
    TombstonesOnlyGrow(states, evs, states[b].issued[evs[b].jti].fam, a, b);
  }

  /** The token is out, and its record, if it still has one, expires by then. */
  ghost predicate ExpiresBy(sys: Sys, jti: Jti, limit: int) {
    jti in sys.issued && (jti in sys.store.records ==> sys.store.records[jti].expires <= limit)
  }

  ghost predicate RecordsBounded(sys: Sys) {
    forall j :: j in sys.store.records ==> sys.store.records[j].expires <= sys.now + RECORD_TTL
  }

  lemma StepKeepsBounded(sys: Sys, ev: Event)
    requires RecordsBounded(sys) && Enabled(sys, ev)
    ensures RecordsBounded(Step(sys, ev))
  {
  }

  lemma StepKeepsExpiry(sys: Sys, ev: Event, jti: Jti, limit: int)
    requires FlightsFresh(sys) && Enabled(sys, ev) && ExpiresBy(sys, jti, limit)
    ensures ExpiresBy(Step(sys, ev), jti, limit)
  {
  }

  lemma {:induction false} RunsKeepBounded(states: seq<Sys>, evs: seq<Event>, n: nat)
    requires IsRun(states, evs) && n < |states|
    ensures RecordsBounded(states[n])
  {
    hide Step;
    if n > 0 {
      RunsKeepBounded(states, evs, n - 1);
      StepKeepsBounded(states[n - 1], evs[n - 1]);
    }
  }

  lemma {:induction false} ExpiryStays(states: seq<Sys>, evs: seq<Event>, jti: Jti, limit: int, a: nat, b: nat)
    requires IsRun(states, evs) && a <= b < |states| && ExpiresBy(states[a], jti, limit)
    ensures ExpiresBy(states[b], jti, limit)
    decreases b
  {
    hide Step;
    if a < b {
      ExpiryStays(states, evs, jti, limit, a, b - 1);
      RunsKeepInv(states, evs, b - 1);
      StepKeepsExpiry(states[b - 1], evs[b - 1], jti, limit);
    }
  }

  /** A tombstone that outlasts a token's record keeps the token out. */
  lemma OutlivedIsRefused(states: seq<Sys>, evs: seq<Event>, limit: int, a: nat, b: nat)
    requires IsRun(states, evs) && a <= b < |evs| && evs[b].Present? && ExpiresBy(states[a], evs[b].jti, limit)
    requires var fam := states[b].issued[evs[b].jti].fam;
      && fam in states[a].store.tombstones
      && limit <= states[a].store.tombstones[fam] <= states[a].now + RECORD_TTL
    ensures ReplyTo(states[b], evs[b]) != Answer(OK)
  {
    ExpiryStays(states, evs, evs[b].jti, limit, a, b);
    TombstonesOnlyGrow(states, evs, states[b].issued[evs[b].jti].fam, a, b);
  }

  /** A token that was out when its family died is never accepted again, however slow its presentation. */
  lemma DeathCoversIssued(states: seq<Sys>, evs: seq<Event>, k: nat, a: nat, b: nat)
    requires IsRun(states, evs) && k <= a <= b < |evs| && evs[b].Present? && evs[b].jti in states[k].issued
    requires var fam := states[b].issued[evs[b].jti].fam;
      && fam in states[a].store.tombstones
      && states[k].now + RECORD_TTL <= states[a].store.tombstones[fam] <= states[a].now + RECORD_TTL
    ensures ReplyTo(states[b], evs[b]) != Answer(OK)
  {
    RunsKeepBounded(states, evs, k);
    ExpiryStays(states, evs, evs[b].jti, states[k].now + RECORD_TTL, k, a);
    OutlivedIsRefused(states, evs, states[k].now + RECORD_TTL, a, b);
  }

  // ---------------------------------------------------------------------------
  // What a kill leaves behind
  // ---------------------------------------------------------------------------

  /** An unexpired record of the family. */
  predicate Stored(sys: Sys, fam: Fam, jti: Jti) {
    RecordExists(sys.store, jti, sys.now) && sys.store.records[jti].fam == fam
  }

  /** The family's member set names every unexpired record of the family and outlasts them all. */
  ghost predicate Listed(sys: Sys, fam: Fam) {
    forall j :: Stored(sys, fam, j) ==>
      && fam in sys.store.families && j in sys.store.families[fam].ids
      && sys.store.records[j].expires <= sys.store.families[fam].expires
  }

  ghost predicate NoneLeft(sys: Sys, fam: Fam) {
    forall j :: !Stored(sys, fam, j)
  }

  /** This revocation's read misses a record it should delete. */
  ghost predicate MissesRecord(sys: Sys, ev: Event, fam: Fam)
    requires Enabled(sys, ev)
  {
    ev.Revoke? && sys.revocations[ev.id].fam == fam && exists j :: Stored(sys, fam, j) && j !in sys.revocations[ev.id].members
  }

  lemma RegisterKeepsListed(sys: Sys, ev: Event, fam: Fam)
    requires RecordsBounded(sys) && Enabled(sys, ev) && ev.Register? && Listed(sys, fam)
    ensures Listed(Step(sys, ev), fam)
  {
    var sys' := Step(sys, ev);
    forall j | Stored(sys', fam, j)
      ensures fam in sys'.store.families && j in sys'.store.families[fam].ids
      ensures sys'.store.records[j].expires <= sys'.store.families[fam].expires
    {
      if j != sys.flights[ev.id].jti {
        assert Stored(sys, fam, j);
      }
    }
  }

  /** A replay deletes every record of its family, and the set. */
  lemma ReplayClears(sys: Sys, ev: Event)
    requires Enabled(sys, ev) && ev.Present? && ReplyTo(sys, ev) == Answer(REUSE) && Listed(sys, sys.issued[ev.jti].fam)
    ensures NoneLeft(Step(sys, ev), sys.issued[ev.jti].fam) && sys.issued[ev.jti].fam !in Step(sys, ev).store.families
  {
    var fam, sys' := sys.issued[ev.jti].fam, Step(sys, ev);
    forall j
      ensures !Stored(sys', fam, j)
    {
      if Stored(sys, fam, j) {
        assert j in LiveIds(sys.store.families, fam, sys.now);
      }
    }
  }

  lemma PresentKeepsListed(sys: Sys, ev: Event, fam: Fam)
    requires Enabled(sys, ev) && ev.Present? && Listed(sys, fam)
    ensures Listed(Step(sys, ev), fam)
  {
    if ReplyTo(sys, ev) == Answer(REUSE) && sys.issued[ev.jti].fam == fam {
      ReplayClears(sys, ev);
    } else {
      FewerStored(sys, Step(sys, ev), fam);
    }
  }

  /** Records go or are used, time passes, and the family's own set stays. */
  lemma FewerStored(sys: Sys, sys': Sys, fam: Fam)
    requires Listed(sys, fam) && sys.now <= sys'.now
    requires forall j :: j in sys'.store.records ==>
      j in sys.store.records && sys'.store.records[j].(active := true) == sys.store.records[j].(active := true)
    requires fam in sys.store.families ==> fam in sys'.store.families && sys'.store.families[fam] == sys.store.families[fam]
    ensures Listed(sys', fam)
  {
    assert forall j :: Stored(sys', fam, j) ==> Stored(sys, fam, j);
  }

  /** A revocation leaves nothing exactly if its read missed nothing. */
  lemma RevokeClears(sys: Sys, ev: Event)
    requires Enabled(sys, ev) && ev.Revoke?
    ensures var fam := sys.revocations[ev.id].fam;
      && fam !in Step(sys, ev).store.families
      && (NoneLeft(Step(sys, ev), fam) <==> !MissesRecord(sys, ev, fam))
  {
    var r, sys' := sys.revocations[ev.id], Step(sys, ev);
    assert forall j :: Stored(sys', r.fam, j) <==> Stored(sys, r.fam, j) && j !in r.members;
  }

  lemma StepKeepsListed(sys: Sys, ev: Event, fam: Fam)
    requires RecordsBounded(sys) && Enabled(sys, ev) && Listed(sys, fam) && !MissesRecord(sys, ev, fam)
    ensures Listed(Step(sys, ev), fam)
  {
    if ev.Present? {
      PresentKeepsListed(sys, ev, fam);
    } else if ev.Register? {
      RegisterKeepsListed(sys, ev, fam);
    } else if ev.Revoke? && sys.revocations[ev.id].fam == fam {
      RevokeClears(sys, ev);
    } else {
      FewerStored(sys, Step(sys, ev), fam);
    }
  }

  /** None of the first `n` steps is a revocation of the family that missed a record. */
  ghost predicate NoneMissed(states: seq<Sys>, evs: seq<Event>, fam: Fam, n: nat)
    requires IsRun(states, evs) && n < |states|
  {
    forall i :: 0 <= i < n ==> !MissesRecord(states[i], evs[i], fam)
  }

  /** Over every run a family's member set is complete, as long as no revocation of the family has missed a record. */
  lemma {:induction false} RunsKeepListed(states: seq<Sys>, evs: seq<Event>, fam: Fam, n: nat)
    requires IsRun(states, evs) && n < |states| && NoneMissed(states, evs, fam, n)
    ensures Listed(states[n], fam)
    ensures forall j :: Stored(states[n], fam, j) ==> j in LiveIds(states[n].store.families, fam, states[n].now)
  {
    hide Step, MissesRecord;
    if n > 0 {
      RunsKeepListed(states, evs, fam, n - 1);
      RunsKeepBounded(states, evs, n - 1);
      StepKeepsListed(states[n - 1], evs[n - 1], fam);
    }
  }

  lemma RevokeEntombs(sys: Sys, ev: Event, fam: Fam)
    requires Enabled(sys, ev)
    ensures fam in sys.store.tombstones ==> fam in Step(sys, ev).store.tombstones
    ensures ev.Revoke? && sys.revocations[ev.id].fam == fam ==> fam in Step(sys, ev).store.tombstones
  {
  }

  /** So is that of a family that was never killed. */
  lemma {:induction false} NeverKilledIsListed(states: seq<Sys>, evs: seq<Event>, fam: Fam, n: nat)
    requires IsRun(states, evs) && n < |states| && fam !in states[n].store.tombstones
    ensures NoneMissed(states, evs, fam, n) && Listed(states[n], fam)
  {
    hide Step;
    if n > 0 {
      RevokeEntombs(states[n - 1], evs[n - 1], fam);
      NeverKilledIsListed(states, evs, fam, n - 1);
    }
    RunsKeepListed(states, evs, fam, n);
  }

  /** A replay of a used token leaves no unexpired record of its family, unless a revocation had missed one before. */
  lemma ReplayLeavesNothing(states: seq<Sys>, evs: seq<Event>, n: nat)
    requires IsRun(states, evs) && n < |evs| && evs[n].Present? && ReplyTo(states[n], evs[n]) == Answer(REUSE)
    requires NoneMissed(states, evs, states[n].issued[evs[n].jti].fam, n)
    ensures var fam := states[n].issued[evs[n].jti].fam;
      NoneLeft(states[n + 1], fam) && fam !in states[n + 1].store.families
  {
    RunsKeepListed(states, evs, states[n].issued[evs[n].jti].fam, n);
    ReplayClears(states[n], evs[n]);
  }

  /** A record is never written twice. */
  lemma RecordWasThere(sys: Sys, ev: Event, jti: Jti)
    requires FlightsFresh(sys) && Enabled(sys, ev) && jti in sys.issued
    ensures jti in Step(sys, ev).issued && sys.now <= Step(sys, ev).now
    ensures var after, before := Step(sys, ev).store.records, sys.store.records;
      jti in after ==> (jti in before && before[jti].(active := true) == after[jti].(active := true))
  {
  }

  lemma {:induction false} StoredAllAlong(states: seq<Sys>, evs: seq<Event>, fam: Fam, jti: Jti, a: nat, b: nat)
    requires IsRun(states, evs) && a <= b < |states| && jti in states[a].issued
    ensures jti in states[b].issued && states[a].now <= states[b].now
    ensures Stored(states[b], fam, jti) ==> Stored(states[a], fam, jti)
    decreases b
  {
    hide Step;
    if a < b {
      StoredAllAlong(states, evs, fam, jti, a, b - 1);
      RunsKeepInv(states, evs, b - 1);
      RecordWasThere(states[b - 1], evs[b - 1], jti);
    }
  }

  lemma RevocationWaits(sys: Sys, ev: Event, id: nat)
    requires Enabled(sys, ev) && id in sys.revocations && ev != Revoke(id)
    ensures id in Step(sys, ev).revocations && Step(sys, ev).revocations[id] == sys.revocations[id]
  {
  }

  lemma {:induction false} ReadStands(states: seq<Sys>, evs: seq<Event>, id: nat, a: nat, b: nat)
    requires IsRun(states, evs) && a <= b < |states| && id in states[a].revocations
    requires forall i :: a <= i < b ==> evs[i] != Revoke(id)
    ensures id in states[b].revocations && states[b].revocations[id] == states[a].revocations[id]
    decreases b
  {
    hide Step;
    if a < b {
      ReadStands(states, evs, id, a, b - 1);
      RevocationWaits(states[b - 1], evs[b - 1], id);
    }
  }

  /** A logout that read the members at `a` and runs its MULTI at `b` leaves no unexpired record of the family exactly if
      none has registered in between; a rotation that does register in between leaves its record behind, dead. */
  lemma LogoutLeavesNothing(states: seq<Sys>, evs: seq<Event>, id: nat, fam: Fam, caller: Option<nat>, a: nat, b: nat)
    requires IsRun(states, evs) && a < b < |evs| && evs[a] == ReadFamily(id, fam, caller) && evs[b] == Revoke(id)
    requires forall i :: a < i < b ==> evs[i] != Revoke(id)
    requires NoneMissed(states, evs, fam, a)
    ensures fam !in states[b + 1].store.families
    ensures NoneLeft(states[b + 1], fam) <==> forall j :: Stored(states[b], fam, j) ==> j in states[a].issued
  {
    var members := LiveIds(states[a].store.families, fam, states[a].now);
    assert id in states[a + 1].revocations && states[a + 1].revocations[id] == Revocation(fam, members, caller);
    ReadStands(states, evs, id, a + 1, b);
    RunsKeepInv(states, evs, a);
    RunsKeepListed(states, evs, fam, a);
    RevokeClears(states[b], evs[b]);
    forall j | Stored(states[b], fam, j)
      ensures j in members <==> j in states[a].issued
    {
      if j in states[a].issued {
        StoredAllAlong(states, evs, fam, j, a, b);
      }
    }
  }

  // ---------------------------------------------------------------------------
  // Refinement
  // ---------------------------------------------------------------------------

  /** Dead: whatever token or rotation the family has goes back to before the kill. */
  ghost predicate DeadMatches(sys: Sys, fam: Fam) {
    && fam in sys.store.tombstones
    && var killed := sys.store.tombstones[fam] - RECORD_TTL;
    && killed <= sys.now
    && (forall j :: j in sys.issued && sys.issued[j].fam == fam ==> sys.issued[j].since <= killed)
    && (forall i :: i in sys.flights && sys.flights[i].fam == fam ==> sys.flights[i].since <= killed)
  }

  /** Not dead: no tombstone, and of the family's tokens exactly `live` is unused. */
  ghost predicate LiveMatches(sys: Sys, fam: Fam, live: set<Jti>) {
    && fam !in sys.store.tombstones
    && (forall j :: j in live ==> j in sys.issued && sys.issued[j].fam == fam)
    && (forall j :: j in sys.issued && sys.issued[j].fam == fam ==>
          Holds(sys, j) && sys.store.records[j].active == (j in live))
  }

  ghost predicate FamilyMatches(sys: Sys, fam: Fam, st: Family) {
    match st
    case Dead => DeadMatches(sys, fam)
    case Alive(jti) => LiveMatches(sys, fam, {jti})
    case Rotating => LiveMatches(sys, fam, {})
  }

  ghost predicate Refines(sys: Sys, fams: Families) {
    && Inv(sys)
    && fams.Keys == sys.knownFams
    && forall f :: f in fams ==> FamilyMatches(sys, f, fams[f])
  }

  /** The two delays, of the mint after the consume before it and of the script after the JWT check, stay within GRACE. */
  predicate Timely(sys: Sys, ev: Event)
    requires Enabled(sys, ev)
  {
    ev.Present? ==>
      var t := sys.issued[ev.jti];
      (t.minted - t.since) + Lag(sys, ev) <= GRACE
  }

  /** As far as this family's tokens go. */
  predicate TimelyFor(sys: Sys, ev: Event, fam: Fam)
    requires Enabled(sys, ev)
  {
    ev.Present? && sys.issued[ev.jti].fam == fam ==> Timely(sys, ev)
  }

  lemma DeadReply(sys: Sys, ev: Event)
    requires ChecksPassed(sys) && Enabled(sys, ev) && ev.Present? && Timely(sys, ev)
    requires DeadMatches(sys, sys.issued[ev.jti].fam)
    ensures ReplyTo(sys, ev) == Answer(DEAD)
  {
  }

  lemma LiveReply(sys: Sys, ev: Event, live: set<Jti>)
    requires ChecksPassed(sys) && TokensAccounted(sys) && Enabled(sys, ev) && ev.Present? && Timely(sys, ev)
    requires LiveMatches(sys, sys.issued[ev.jti].fam, live)
    ensures ReplyTo(sys, ev) == Answer(if ev.jti in live then OK else REUSE)
  {
  }

  /** The heart of it: the reply is the family machine's reply, whatever the clock says. */
  lemma ReplyRefines(sys: Sys, fams: Families, ev: Event)
    requires Refines(sys, fams) && Enabled(sys, ev) && Timely(sys, ev)
    ensures ReplyTo(sys, ev) == ExpectedReply(fams, sys, ev)
  {
    hide ReplyTo, Timely, DeadMatches, LiveMatches, FlightsFresh, KeysOwned, AtMostOneHolder, Holds, Covered;
    if ev.Present? {
      var fam := sys.issued[ev.jti].fam;
      assert FamilyMatches(sys, fam, fams[fam]);
      match fams[fam]
      case Dead => DeadReply(sys, ev);
      case Alive(jti) => LiveReply(sys, ev, {jti});
      case Rotating => LiveReply(sys, ev, {});
    }
  }

  /** Nothing the relation says about `fam` has changed. */
  ghost predicate SameFor(sys: Sys, sys': Sys, fam: Fam) {
    && sys.now <= sys'.now
    && (fam in sys.store.tombstones <==> fam in sys'.store.tombstones)
    && (fam in sys.store.tombstones ==> sys'.store.tombstones[fam] == sys.store.tombstones[fam])
    && (forall j :: j in sys'.issued && sys'.issued[j].fam == fam ==> j in sys.issued && sys.issued[j] == sys'.issued[j])
    && (forall j :: j in sys.issued && sys.issued[j].fam == fam ==> j in sys'.issued && sys'.issued[j] == sys.issued[j])
    && (forall j :: j in sys.issued && sys.issued[j].fam == fam && j in sys.store.records ==>
          j in sys'.store.records && sys'.store.records[j] == sys.store.records[j])
    && (forall i :: i in sys'.flights && sys'.flights[i].fam == fam ==>
          i in sys.flights && sys'.flights[i] == sys.flights[i])
  }

  lemma FrameFamily(sys: Sys, sys': Sys, fam: Fam, st: Family)
    requires SameFor(sys, sys', fam) && FamilyMatches(sys, fam, st)
    ensures FamilyMatches(sys', fam, st)
  {
  }

  /** Revoking a family leaves every other one alone. */
  lemma RevokedTouchesOneFamily(sys: Sys, sys': Sys, killed: Fam, members: set<Jti>, fam: Fam)
    requires sys' == Sys(sys.now, Revoked(sys.store, sys.now, killed, members), sys.issued, sys'.checks, sys.flights,
                         sys'.revocations, sys'.logouts, sys.usedJtis, sys.knownFams)
    requires fam != killed && forall j :: j in members ==> j in sys.issued && sys.issued[j].fam == killed
    ensures SameFor(sys, sys', fam)
  {
  }

  lemma PresentTouchesOneFamily(sys: Sys, ev: Event, fam: Fam)
    requires KeysOwned(sys) && Enabled(sys, ev) && ev.Present?
    requires SignalOf(sys, ev) == Nothing || SignalOf(sys, ev).fam != fam
    ensures SameFor(sys, Step(sys, ev), fam)
  {
    var t := sys.issued[ev.jti];
    if ReplyTo(sys, ev) == Answer(REUSE) {
      RevokedTouchesOneFamily(sys, Step(sys, ev), t.fam, LiveIds(sys.store.families, t.fam, sys.now), fam);
    }
  }

  lemma RegisterTouchesOneFamily(sys: Sys, ev: Event, fam: Fam)
    requires FlightsFresh(sys) && Enabled(sys, ev) && ev.Register? && sys.flights[ev.id].fam != fam
    ensures SameFor(sys, Step(sys, ev), fam)
  {
  }

  lemma RevokeTouchesOneFamily(sys: Sys, ev: Event, fam: Fam)
    requires KeysOwned(sys) && Enabled(sys, ev) && ev.Revoke? && sys.revocations[ev.id].fam != fam
    ensures SameFor(sys, Step(sys, ev), fam)
  {
    var r := sys.revocations[ev.id];
    RevokedTouchesOneFamily(sys, Step(sys, ev), r.fam, r.members, fam);
  }

  lemma AcceptRefines(sys: Sys, ev: Event, fam: Fam)
    requires Inv(sys) && Enabled(sys, ev) && ev.Present? && Timely(sys, ev) && SignalOf(sys, ev) == Presented(fam, ev.jti)
    requires LiveMatches(sys, fam, {ev.jti})
    ensures LiveMatches(Step(sys, ev), fam, {})
  {
  }

  lemma ReplayRefines(sys: Sys, ev: Event, fam: Fam, live: set<Jti>)
    requires Inv(sys) && Enabled(sys, ev) && ev.Present? && Timely(sys, ev) && SignalOf(sys, ev) == Presented(fam, ev.jti)
    requires LiveMatches(sys, fam, live) && ev.jti !in live
    ensures DeadMatches(Step(sys, ev), fam)
  {
  }

  lemma DeadStaysDead(sys: Sys, ev: Event, fam: Fam)
    requires Inv(sys) && Enabled(sys, ev) && (ev.Present? || ev.Register?) && Timely(sys, ev)
    requires SignalOf(sys, ev) != Nothing && SignalOf(sys, ev).fam == fam
    requires DeadMatches(sys, fam)
    ensures DeadMatches(Step(sys, ev), fam)
  {
    if ev.Present? {
      DeadReply(sys, ev);
    }
  }

  lemma InstallRefines(sys: Sys, ev: Event, fam: Fam)
    requires Inv(sys) && Enabled(sys, ev) && ev.Register? && sys.flights[ev.id].fam == fam
    requires LiveMatches(sys, fam, {})
    ensures LiveMatches(Step(sys, ev), fam, {sys.flights[ev.id].jti})
  {
  }

  lemma RevokeRefines(sys: Sys, ev: Event, fam: Fam)
    requires Inv(sys) && Enabled(sys, ev) && ev.Revoke? && sys.revocations[ev.id].fam == fam
    ensures DeadMatches(Step(sys, ev), fam)
  {
  }

  /** A family with an issue or rotation in flight has no live token. */
  lemma HolderIsTheFlight(sys: Sys, ev: Event, st: Family)
    requires Inv(sys) && Enabled(sys, ev) && ev.Register? && FamilyMatches(sys, sys.flights[ev.id].fam, st)
    ensures !st.Alive?
  {
  }

  lemma OwnFamilyPresented(sys: Sys, fams: Families, ev: Event, fam: Fam)
    requires Inv(sys) && Enabled(sys, ev) && ev.Present? && Timely(sys, ev) && SignalOf(sys, ev) == Presented(fam, ev.jti)
    requires fam in fams && FamilyMatches(sys, fam, fams[fam])
    ensures FamilyMatches(Step(sys, ev), fam, StateOf(NextFamilies(fams, SignalOf(sys, ev)), fam))
  {
    if fams[fam].Dead? {
      DeadStaysDead(sys, ev, fam);
    } else if fams[fam] == Alive(ev.jti) {
      AcceptRefines(sys, ev, fam);
    } else {
      ReplayRefines(sys, ev, fam, if fams[fam].Alive? then {fams[fam].jti} else {});
    }
  }

  lemma OwnFamilyInstalled(sys: Sys, fams: Families, ev: Event, fam: Fam)
    requires Inv(sys) && Enabled(sys, ev) && ev.Register? && sys.flights[ev.id].fam == fam
    requires fam in fams && FamilyMatches(sys, fam, fams[fam])
    ensures FamilyMatches(Step(sys, ev), fam, StateOf(NextFamilies(fams, SignalOf(sys, ev)), fam))
  {
    HolderIsTheFlight(sys, ev, fams[fam]);
    if fams[fam].Dead? {
      DeadStaysDead(sys, ev, fam);
    } else {
      InstallRefines(sys, ev, fam);
    }
  }

  lemma OtherFamilyRefines(sys: Sys, fams: Families, ev: Event, fam: Fam)
    requires FlightsFresh(sys) && KeysOwned(sys) && Enabled(sys, ev) && (ev.Present? || ev.Register? || ev.Revoke?)
    requires SignalOf(sys, ev) == Nothing || SignalOf(sys, ev).fam != fam
    requires fam in fams && FamilyMatches(sys, fam, fams[fam])
    ensures FamilyMatches(Step(sys, ev), fam, StateOf(NextFamilies(fams, SignalOf(sys, ev)), fam))
  {
    if ev.Present? {
      PresentTouchesOneFamily(sys, ev, fam);
    } else if ev.Register? {
      RegisterTouchesOneFamily(sys, ev, fam);
    } else {
      RevokeTouchesOneFamily(sys, ev, fam);
    }
    FrameFamily(sys, Step(sys, ev), fam, fams[fam]);
  }

  lemma StoreRefines(sys: Sys, fams: Families, ev: Event, fam: Fam)
    requires Inv(sys) && Enabled(sys, ev) && Timely(sys, ev) && (ev.Present? || ev.Register? || ev.Revoke?)
    requires fam in fams && FamilyMatches(sys, fam, fams[fam])
    ensures FamilyMatches(Step(sys, ev), fam, StateOf(NextFamilies(fams, SignalOf(sys, ev)), fam))
  {
    if SignalOf(sys, ev) == Nothing || SignalOf(sys, ev).fam != fam {
      OtherFamilyRefines(sys, fams, ev, fam);
    } else if ev.Present? {
      OwnFamilyPresented(sys, fams, ev, fam);
    } else if ev.Register? {
      OwnFamilyInstalled(sys, fams, ev, fam);
    } else {
      RevokeRefines(sys, ev, fam);
    }
  }

  lemma ClientKeepsDead(sys: Sys, ev: Event, fam: Fam)
    requires Enabled(sys, ev)
    requires !ev.Present? && !ev.Register? && !ev.Revoke? && fam in sys.knownFams
    requires DeadMatches(sys, fam)
    ensures DeadMatches(Step(sys, ev), fam)
  {
  }

  lemma ClientKeepsLive(sys: Sys, ev: Event, fam: Fam, live: set<Jti>)
    requires Enabled(sys, ev)
    requires !ev.Present? && !ev.Register? && !ev.Revoke? && fam in sys.knownFams
    requires LiveMatches(sys, fam, live)
    ensures LiveMatches(Step(sys, ev), fam, live)
  {
  }

  lemma ClientRefines(sys: Sys, fams: Families, ev: Event, fam: Fam)
    requires Refines(sys, fams) && Enabled(sys, ev)
    requires !ev.Present? && !ev.Register? && !ev.Revoke? && fam in fams
    ensures FamilyMatches(Step(sys, ev), fam, StateOf(NextFamilies(fams, SignalOf(sys, ev)), fam))
  {
    assert FamilyMatches(sys, fam, fams[fam]);
    assert StateOf(NextFamilies(fams, SignalOf(sys, ev)), fam) == fams[fam];
    match fams[fam]
    case Dead => ClientKeepsDead(sys, ev, fam);
    case Alive(jti) => ClientKeepsLive(sys, ev, fam, {jti});
    case Rotating => ClientKeepsLive(sys, ev, fam, {});
  }

  lemma NewFamilyRefines(sys: Sys, fams: Families, ev: Event, fam: Fam)
    requires Refines(sys, fams) && Enabled(sys, ev) && ev.Login? && ev.fam == fam
    ensures LiveMatches(Step(sys, ev), fam, {})
  {
  }

  lemma FamiliesKnown(sys: Sys, fams: Families, ev: Event)
    requires TokensAccounted(sys) && FlightsFresh(sys) && KeysOwned(sys) && fams.Keys == sys.knownFams && Enabled(sys, ev)
    ensures NextFamilies(fams, SignalOf(sys, ev)).Keys == Step(sys, ev).knownFams
  {
  }

  lemma StepRefines(sys: Sys, fams: Families, ev: Event)
    requires Refines(sys, fams) && Enabled(sys, ev) && Timely(sys, ev)
    ensures Refines(Step(sys, ev), NextFamilies(fams, SignalOf(sys, ev)))
  {
    var next := NextFamilies(fams, SignalOf(sys, ev));
    StepKeepsInv(sys, ev);
    FamiliesKnown(sys, fams, ev);
    forall f | f in next
      ensures FamilyMatches(Step(sys, ev), f, next[f])
    {
      if ev.Present? || ev.Register? || ev.Revoke? {
        StoreRefines(sys, fams, ev, f);
      } else if f !in fams {
        NewFamilyRefines(sys, fams, ev, f);
      } else {
        ClientRefines(sys, fams, ev, f);
      }
    }
  }

  /** The family machine driven by the signals of a run. */
  ghost function FamiliesAt(states: seq<Sys>, evs: seq<Event>, n: nat): Families
    requires IsRun(states, evs) && n < |states|
  {
    if n == 0 then map[] else NextFamilies(FamiliesAt(states, evs, n - 1), SignalOf(states[n - 1], evs[n - 1]))
  }

  ghost predicate TimelyRun(states: seq<Sys>, evs: seq<Event>) {
    IsRun(states, evs) && forall i :: 0 <= i < |evs| ==> Timely(states[i], evs[i])
  }

  /** Every timely run of the store is a run of the family machine, reply by reply. */
  lemma {:induction false} RunRefines(states: seq<Sys>, evs: seq<Event>, n: nat)
    requires TimelyRun(states, evs) && n < |states|
    ensures Refines(states[n], FamiliesAt(states, evs, n))
    ensures n < |evs| ==> ReplyTo(states[n], evs[n]) == ExpectedReply(FamiliesAt(states, evs, n), states[n], evs[n])
  {
    if n > 0 {
      RunRefines(states, evs, n - 1);
      StepRefines(states[n - 1], FamiliesAt(states, evs, n - 1), evs[n - 1]);
    }
    if n < |evs| {
      ReplyRefines(states[n], FamiliesAt(states, evs, n), evs[n]);
    }
  }

  lemma DeadAbsorbs(fams: Families, sys: Sys, ev: Event, fam: Fam)
    requires Enabled(sys, ev) && fams.Keys == sys.knownFams && fam in fams && fams[fam].Dead?
    ensures var next := NextFamilies(fams, SignalOf(sys, ev)); fam in next && next[fam].Dead?
  {
  }

  lemma FamiliesAreKnown(states: seq<Sys>, evs: seq<Event>, n: nat)
    requires TimelyRun(states, evs) && n < |states|
    ensures FamiliesAt(states, evs, n).Keys == states[n].knownFams
  {
    RunRefines(states, evs, n);
  }

  lemma {:induction false} DeadForGood(states: seq<Sys>, evs: seq<Event>, fam: Fam, a: nat, b: nat)
    requires TimelyRun(states, evs) && a <= b < |states|
    requires fam in FamiliesAt(states, evs, a) && FamiliesAt(states, evs, a)[fam].Dead?
    ensures fam in FamiliesAt(states, evs, b) && FamiliesAt(states, evs, b)[fam].Dead?
    decreases b
  {
    if a < b {
      DeadForGood(states, evs, fam, a, b - 1);
      FamiliesAreKnown(states, evs, b - 1);
      DeadAbsorbs(FamiliesAt(states, evs, b - 1), states[b - 1], evs[b - 1], fam);
    }
  }

  /** What kills a family: a replay of a used token, or a logout. */
  predicate Kills(sys: Sys, ev: Event, fam: Fam)
    requires Enabled(sys, ev)
  {
    || (ev.Present? && sys.issued[ev.jti].fam == fam && ReplyTo(sys, ev) == Answer(REUSE))
    || (ev.Revoke? && sys.revocations[ev.id].fam == fam)
  }

  lemma KilledIsDead(sys: Sys, ev: Event, fam: Fam)
    requires Inv(sys) && Enabled(sys, ev) && Kills(sys, ev, fam)
    ensures DeadMatches(Step(sys, ev), fam)
  {
  }

  lemma OthersKeepDead(sys: Sys, ev: Event, fam: Fam)
    requires Inv(sys) && Enabled(sys, ev) && (ev.Present? || ev.Register? || ev.Revoke?) && DeadMatches(sys, fam)
    requires SignalOf(sys, ev) == Nothing || SignalOf(sys, ev).fam != fam
    ensures DeadMatches(Step(sys, ev), fam)
  {
    if ev.Present? {
      PresentTouchesOneFamily(sys, ev, fam);
    } else if ev.Register? {
      RegisterTouchesOneFamily(sys, ev, fam);
    } else {
      RevokeTouchesOneFamily(sys, ev, fam);
    }
    FrameFamily(sys, Step(sys, ev), fam, Dead);
  }

  /** Only an untimely presentation of the family's own could bring it back. */
  lemma StepKeepsDead(sys: Sys, ev: Event, fam: Fam)
    requires Inv(sys) && Enabled(sys, ev) && TimelyFor(sys, ev, fam) && DeadMatches(sys, fam)
    ensures DeadMatches(Step(sys, ev), fam)
  {
    if !ev.Present? && !ev.Register? && !ev.Revoke? {
      ClientKeepsDead(sys, ev, fam);
    } else if SignalOf(sys, ev) == Nothing || SignalOf(sys, ev).fam != fam {
      OthersKeepDead(sys, ev, fam);
    } else if ev.Revoke? {
      RevokeRefines(sys, ev, fam);
    } else {
      DeadStaysDead(sys, ev, fam);
    }
  }

  lemma {:induction false} KilledStaysDead(states: seq<Sys>, evs: seq<Event>, fam: Fam, a: nat, b: nat)
    requires IsRun(states, evs) && a <= b < |states| && DeadMatches(states[a], fam)
    requires forall i :: a <= i < b ==> TimelyFor(states[i], evs[i], fam)
    ensures DeadMatches(states[b], fam)
    decreases b
  {
    if a < b {
      KilledStaysDead(states, evs, fam, a, b - 1);
      RunsKeepInv(states, evs, b - 1);
      StepKeepsDead(states[b - 1], evs[b - 1], fam);
    }
  }

  /** A replay of a used token, or a logout, ends the family: as long as its own tokens are presented in time, whatever
      the others do, nothing of it is ever accepted again. */
  lemma KilledFamilyStaysShut(states: seq<Sys>, evs: seq<Event>, fam: Fam, a: nat, b: nat)
    requires IsRun(states, evs) && a < b < |evs| && evs[b].Present?
    requires states[b].issued[evs[b].jti].fam == fam && Kills(states[a], evs[a], fam)
    requires forall i :: a < i <= b ==> TimelyFor(states[i], evs[i], fam)
    ensures ReplyTo(states[b], evs[b]) == Answer(DEAD)
  {
    RunsKeepInv(states, evs, a);
    RunsKeepInv(states, evs, b);
    KilledIsDead(states[a], evs[a], fam);
    KilledStaysDead(states, evs, fam, a + 1, b);
    DeadReply(states[b], evs[b]);
  }

  /** And in any case not the tokens that were out when it ended. */
  lemma KilledTokensStayOut(states: seq<Sys>, evs: seq<Event>, fam: Fam, a: nat, b: nat)
    requires IsRun(states, evs) && a < b < |evs| && evs[b].Present? && evs[b].jti in states[a].issued
    requires states[b].issued[evs[b].jti].fam == fam && Kills(states[a], evs[a], fam)
    ensures ReplyTo(states[b], evs[b]) != Answer(OK)
  {
    RunsKeepInv(states, evs, a);
    KilledIsDead(states[a], evs[a], fam);
    assert states[a + 1].now == states[a].now && states[a + 1].store.tombstones[fam] == states[a].now + RECORD_TTL;
    DeathCoversIssued(states, evs, a, a + 1, b);
  }

  // ---------------------------------------------------------------------------
  // Why the two delays count
  // ---------------------------------------------------------------------------

  /** How long after its mint the token is presented: at the last second its JWT passes, or sooner if the script,
      `lag` seconds later, would miss its record. */
  function PresentAfter(lag: nat): nat
    requires lag < RECORD_TTL
  {
    if lag <= GRACE then TOKEN_LIFE + LEEWAY - 1 else RECORD_TTL - 1 - lag
  }

  /** Rotate, log out, let the rotation sit for `stall` seconds before it mints, and let its token's script run `lag`
      seconds after its JWT check. */
  function SlowEvents(stall: nat, lag: nat): seq<Event>
    requires lag < RECORD_TTL
  {
    [Login(0, "user", "org", "fam", "first"), Register(0), Decode(1, "first"), Present("first", 1),
     ReadFamily(0, "fam", None), Revoke(0),
     Tick(stall), Mint(1, "second"), Register(1), Tick(PresentAfter(lag)), Decode(2, "second"), Tick(lag), Present("second", 2)]
  }

  /** Logged out at time 0 with the rotation still in flight. */
  const LOGGED_OUT: Sys := Sys(0,
    Store(map[], map[], map["fam" := RECORD_TTL], map["user" := IdSet({"fam"}, RECORD_TTL)]),
    map["first" := Token("user", "org", "fam", 0, 0)], map[], map[1 := Spent("user", "org", "fam", 0)],
    map[], map[], {"first"}, {"fam"})

  const LOGGED_IN: Sys := Sys(0,
    Store(map["first" := Record("user", "org", "fam", true, RECORD_TTL)],
          map["fam" := IdSet({"first"}, RECORD_TTL)], map[], map["user" := IdSet({"fam"}, RECORD_TTL)]),
    map["first" := Token("user", "org", "fam", 0, 0)], map[], map[], map[], map[], {"first"}, {"fam"})

  lemma LoginRegisters(evs: seq<Event>)
    requires evs == [Login(0, "user", "org", "fam", "first"), Register(0)]
    ensures Enabled(INIT, evs[0]) && Enabled(Step(INIT, evs[0]), evs[1])
    ensures Step(Step(INIT, evs[0]), evs[1]) == LOGGED_IN
  {
    var s2 := Step(Step(INIT, evs[0]), evs[1]);
    assert s2.flights == map[] && s2.checks == map[] && s2.issued == LOGGED_IN.issued;
    assert s2.store.records == LOGGED_IN.store.records;
    assert {} + {"first"} == {"first"} && {} + {"fam"} == {"fam"};
    assert s2.store.families == LOGGED_IN.store.families && s2.store.users == LOGGED_IN.store.users;
  }

  /** The rotation has consumed its token. */
  const ROTATING: Sys := LOGGED_IN.(
    store := LOGGED_IN.store.(records := map["first" := Record("user", "org", "fam", false, RECORD_TTL)]),
    flights := map[1 := Spent("user", "org", "fam", 0)])

  lemma RotationConsumes(evs: seq<Event>)
    requires evs == [Decode(1, "first"), Present("first", 1)]
    ensures Enabled(LOGGED_IN, evs[0]) && Enabled(Step(LOGGED_IN, evs[0]), evs[1])
    ensures Step(Step(LOGGED_IN, evs[0]), evs[1]) == ROTATING
  {
    var s1 := Step(LOGGED_IN, evs[0]);
    assert s1 == LOGGED_IN.(checks := map[1 := Check("first", 0)]);
    var s2 := Step(s1, evs[1]);
    assert s2.checks == map[] && s2.store.records == ROTATING.store.records && s2.flights == ROTATING.flights;
  }

  lemma LogoutRevokes(evs: seq<Event>)
    requires evs == [ReadFamily(0, "fam", None), Revoke(0)]
    ensures Enabled(ROTATING, evs[0]) && Enabled(Step(ROTATING, evs[0]), evs[1])
    ensures Step(Step(ROTATING, evs[0]), evs[1]) == LOGGED_OUT
  {
    assert LiveIds(ROTATING.store.families, "fam", 0) == {"first"};
    var s1 := Step(ROTATING, evs[0]);
    assert s1.revocations == map[0 := Revocation("fam", {"first"}, None)];
    var s2 := Step(s1, evs[1]);
    assert s2.store.records == map[] && s2.store.families == map[] && s2.revocations == map[];
    assert s2.store.tombstones == map["fam" := RECORD_TTL];
  }

  lemma LogoutDuringRotation(evs: seq<Event>) returns (states: seq<Sys>)
    requires evs == SlowEvents(0, 0)[..6]
    ensures IsRun(states, evs) && states[6] == LOGGED_OUT
  {
    hide Step, Enabled;
    LoginRegisters(evs[..2]);
    RotationConsumes(evs[2..4]);
    LogoutRevokes(evs[4..]);
    states := [INIT, Step(INIT, evs[0]), LOGGED_IN, Step(LOGGED_IN, evs[2]), ROTATING, Step(ROTATING, evs[4]), LOGGED_OUT];
  }

  /** The rotation has slept for `stall` seconds, minted and registered. */
  function WokenUp(stall: nat): Sys {
    Sys(stall,
      Store(map["second" := Record("user", "org", "fam", true, stall + RECORD_TTL)],
            map["fam" := IdSet({"second"}, stall + RECORD_TTL)], map["fam" := RECORD_TTL],
            map["user" := IdSet({"fam"}, stall + RECORD_TTL)]),
      map["first" := Token("user", "org", "fam", 0, 0), "second" := Token("user", "org", "fam", stall, 0)],
      map[], map[], map[], map[], {"first", "second"}, {"fam"})
  }

  lemma RotationWakes(stall: nat) returns (states: seq<Sys>)
    ensures |states| == 4 && Follows(states, [Tick(stall), Mint(1, "second"), Register(1)])
    ensures states[0] == LOGGED_OUT && states[3] == WokenUp(stall)
  {
    var s1 := Step(LOGGED_OUT, Tick(stall));
    var s2 := Step(s1, Mint(1, "second"));
    assert s2.flights == map[1 := Minted("user", "org", "fam", 0, "second", stall)];
    var s3 := Step(s2, Register(1));
    assert s3.flights == map[] && s3.usedJtis == {"first", "second"};
    assert {} + {"second"} == {"second"} && {"fam"} + {"fam"} == {"fam"} && {} + {"fam"} == {"fam"};
    assert s3.store == WokenUp(stall).store;
    assert s3.issued == WokenUp(stall).issued;
    states := [LOGGED_OUT, s1, s2, s3];
  }

  /** Its token's script runs when the tombstone has gone. */
  lemma SlowTail(stall: nat, lag: nat) returns (states: seq<Sys>)
    requires 0 < stall && GRACE < stall + lag && lag < RECORD_TTL
    ensures |states| == 5 && states[0] == WokenUp(stall)
    ensures Follows(states, [Tick(PresentAfter(lag)), Decode(2, "second"), Tick(lag), Present("second", 2)])
    ensures ReplyTo(states[3], Present("second", 2)) == Answer(OK)
  {
    var woken := WokenUp(stall);
    var s1 := woken.(now := stall + PresentAfter(lag));
    var s2 := s1.(checks := map[2 := Check("second", s1.now)]);
    var s3 := s2.(now := s1.now + lag);
    assert Consumed(s3.store, s3.now, "second", "user", "fam").1 == OK;
    states := [woken, s1, s2, s3, Step(s3, Present("second", 2))];
  }

  ghost predicate Follows(states: seq<Sys>, evs: seq<Event>) {
    && |states| == |evs| + 1
    && forall i :: 0 <= i < |evs| ==> Enabled(states[i], evs[i]) && states[i + 1] == Step(states[i], evs[i])
  }

  lemma FollowsJoin(a: seq<Sys>, xs: seq<Event>, b: seq<Sys>, ys: seq<Event>)
    requires Follows(a, xs) && Follows(b, ys) && b[0] == a[|xs|]
    ensures Follows(a + b[1..], xs + ys)
  {
    var all, es := a + b[1..], xs + ys;
    forall i | 0 <= i < |es|
      ensures Enabled(all[i], es[i]) && all[i + 1] == Step(all[i], es[i])
    {
      if i >= |xs| {
        assert es[i] == ys[i - |xs|] && all[i] == b[i - |xs|] && all[i + 1] == b[i - |xs| + 1];
      }
    }
  }

  lemma RunContinues(states: seq<Sys>, evs: seq<Event>, tail: seq<Sys>, more: seq<Event>)
    requires IsRun(states, evs) && Follows(tail, more) && tail[0] == states[|evs|]
    ensures IsRun(states + tail[1..], evs + more)
  {
    FollowsJoin(states, evs, tail, more);
  }

  /** As soon as the stall and the lag together exceed GRACE, however they divide it, a logged-out family is accepted
      again; only a token minted in the very second of the logout is not. */
  lemma SlowRotationSurvivesLogout(stall: nat, lag: nat) returns (states: seq<Sys>)
    requires 0 < stall && GRACE < stall + lag && lag < RECORD_TTL
    ensures IsRun(states, SlowEvents(stall, lag))
    ensures ReplyTo(states[12], SlowEvents(stall, lag)[12]) == Answer(OK)
  {
    var evs := SlowEvents(stall, lag);
    assert evs[..6] == SlowEvents(0, 0)[..6];
    var early := LogoutDuringRotation(evs[..6]);
    var waking := RotationWakes(stall);
    var late := SlowTail(stall, lag);
    hide Step, Enabled, ReplyTo, WokenUp;
    RunContinues(early, evs[..6], waking, evs[6..9]);
    RunContinues(early + waking[1..], evs[..6] + evs[6..9], late, evs[9..]);
    assert evs[..6] + evs[6..9] + evs[9..] == evs;
    states := early + waking[1..] + late[1..];
    assert states[12] == late[3];
  }

  /** A token nobody has touched, whose script runs too late after its JWT check. */
  function LateScriptEvents(lag: nat): seq<Event> {
    [Login(0, "user", "org", "fam", "first"), Register(0), Tick(TOKEN_LIFE + LEEWAY - 1), Decode(1, "first"), Tick(lag),
     Present("first", 1)]
  }

  /** It is answered unknown, which kills its family. */
  lemma LateScriptIsUnknown(lag: nat) returns (states: seq<Sys>)
    requires GRACE < lag
    ensures IsRun(states, LateScriptEvents(lag))
    ensures ReplyTo(states[5], LateScriptEvents(lag)[5]) == Answer(UNKNOWN)
  {
    var evs := LateScriptEvents(lag);
    LoginRegisters(evs[..2]);
    var s3 := Step(LOGGED_IN, evs[2]);
    var s4 := Step(s3, evs[3]);
    assert s4.checks == map[1 := Check("first", TOKEN_LIFE + LEEWAY - 1)];
    var s5 := Step(s4, evs[4]);
    states := [INIT, Step(INIT, evs[0]), LOGGED_IN, s3, s4, s5, Step(s5, evs[5])];
  }
}
