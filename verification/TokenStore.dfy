/** The Redis side of refresh-token rotation: four key spaces, every key with a TTL.

  A key that is past its expiry may still sit in the maps; Redis treats it as absent,
  and so does every lookup here.  The functions give the effect of one script or one
  MULTI block on the whole store; `RefreshTokenStore` is the code that performs them.
*/
module TokenStore {

  type Jti = string
  type Uid = string
  type Org = string
  type Fam = string

  const TOKEN_LIFE: int := 14 * 86_400
  const TTL_MARGIN: int := 60
  const LEEWAY: int := 10
  const RECORD_TTL: int := TOKEN_LIFE + TTL_MARGIN

  datatype Record = Record(uid: Uid, org: Org, fam: Fam, active: bool, expires: int)
  datatype IdSet = IdSet(ids: set<string>, expires: int)
  datatype Store = Store(
    records: map<Jti, Record>,
    families: map<Fam, IdSet>,
    tombstones: map<Fam, int>,
    users: map<Uid, IdSet>)

  datatype Outcome = OK | REUSE | UNKNOWN | DEAD | MISMATCH

  predicate RecordExists(s: Store, jti: Jti, now: int) {
    jti in s.records && now < s.records[jti].expires
  }

  predicate Tombstoned(s: Store, fam: Fam, now: int) {
    fam in s.tombstones && now < s.tombstones[fam]
  }

  /** SMEMBERS: an absent or expired set has no members. */
  function LiveIds(sets: map<string, IdSet>, key: string, now: int): set<string> {
    if key in sets && now < sets[key].expires then sets[key].ids else {}
  }

  /** SADD followed by EXPIRE. */
  function Added(sets: map<string, IdSet>, key: string, id: string, now: int): map<string, IdSet> {
    sets[key := IdSet(LiveIds(sets, key, now) + {id}, now + RECORD_TTL)]
  }

  function Registered(s: Store, now: int, jti: Jti, uid: Uid, org: Org, fam: Fam): Store {
    s.(records := s.records[jti := Record(uid, org, fam, true, now + RECORD_TTL)],
       families := Added(s.families, fam, jti, now),
       users := Added(s.users, uid, fam, now))
  }

  function Entombed(s: Store, now: int, fam: Fam): Store {
    s.(tombstones := s.tombstones[fam := now + RECORD_TTL])
  }

  /** Tombstone a family, then delete the given member records and the member set. */
  function Revoked(s: Store, now: int, fam: Fam, members: set<Jti>): Store {
    Entombed(s, now, fam).(records := s.records - members, families := s.families - {fam})
  }

  /** The Lua script: the whole decision is one step. */
  function Consumed(s: Store, now: int, jti: Jti, uid: Uid, fam: Fam): (Store, Outcome) {
    if Tombstoned(s, fam, now) then (s, DEAD)
    else if !RecordExists(s, jti, now) then (Entombed(s, now, fam), UNKNOWN)
    else if s.records[jti].uid != uid || s.records[jti].fam != fam then (Entombed(s, now, fam), MISMATCH)
    else if !s.records[jti].active then (Revoked(s, now, fam, LiveIds(s.families, fam, now)), REUSE)
    else (s.(records := s.records[jti := s.records[jti].(active := false)]), OK)
  }

  /** Whatever the store holds and whatever is presented: the store an acceptance leaves never accepts that token
      again under any claims, and anything else leaves the presented family dead for a record's lifetime (or for
      as long as it already was), with every member record gone if it was a replay. */
  lemma ConsumeSpendsOrKills(s: Store, now: int, jti: Jti, uid: Uid, fam: Fam, later: int, uid': Uid, fam': Fam)
    ensures var (s', outcome) := Consumed(s, now, jti, uid, fam);
      if outcome == OK then Consumed(s', later, jti, uid', fam').1 != OK
      else
        && Tombstoned(s', fam, now)
        && (outcome != DEAD && later < now + RECORD_TTL ==> Tombstoned(s', fam, later))
        && (outcome == REUSE ==> forall j :: j in LiveIds(s.families, fam, now) ==> j !in s'.records)
  {
  }

  /** A token is accepted exactly if its family is not dead and its own record is there, unused, and says what the token
      claims; otherwise the answer says which of these fails first, a mismatch before a replay. */
  lemma WhenAccepted(s: Store, now: int, jti: Jti, uid: Uid, fam: Fam)
    ensures var outcome, known := Consumed(s, now, jti, uid, fam).1, RecordExists(s, jti, now);
      && (outcome == DEAD <==> fam in s.tombstones && now < s.tombstones[fam])
      && (outcome == UNKNOWN <==> outcome != DEAD && !known)
      && (outcome == MISMATCH <==> outcome != DEAD && known && (s.records[jti].uid != uid || s.records[jti].fam != fam))
      && (outcome == REUSE <==>
            outcome != DEAD && known && s.records[jti].uid == uid && s.records[jti].fam == fam && !s.records[jti].active)
  {
  }

  /** What a registration writes can be seen for a record's lifetime and no longer, unless something else touches it. */
  lemma RegisteredForItsLifetime(s: Store, now: int, jti: Jti, uid: Uid, org: Org, fam: Fam, later: int)
    ensures var s' := Registered(s, now, jti, uid, org, fam);
      && (later < now + RECORD_TTL ==>
            RecordExists(s', jti, later) && s'.records[jti].(expires := 0) == Record(uid, org, fam, true, 0)
            && jti in LiveIds(s'.families, fam, later) && fam in LiveIds(s'.users, uid, later))
      && (later >= now + RECORD_TTL ==>
            !RecordExists(s', jti, later) && LiveIds(s'.families, fam, later) == {} && LiveIds(s'.users, uid, later) == {})
  {
  }

  /** Whatever the answer, no key appears but the presented family's tombstone, and what stays changes at most its status. */
  lemma ConsumeAddsNoKeys(s: Store, now: int, jti: Jti, uid: Uid, fam: Fam)
    ensures var s' := Consumed(s, now, jti, uid, fam).0;
      && s'.users == s.users
      && (forall j :: j in s'.records ==> j in s.records && s'.records[j] in {s.records[j], s.records[j].(active := false)})
      && (forall f :: f in s'.families ==> f in s.families && s'.families[f] == s.families[f])
      && (forall f :: f in s'.tombstones ==> f == fam || f in s.tombstones)
  {
  }

  /** Every member record of every family in `fams`. */
  ghost function MembersOf(s: Store, now: int, fams: set<Fam>): set<Jti> {
    set f, j | f in fams && j in LiveIds(s.families, f, now) :: j
  }

  /** What revoking a set of families amounts to, whatever the order. */
  ghost function RevokedAll(s: Store, now: int, fams: set<Fam>): Store {
    s.(tombstones := s.tombstones + map f | f in fams :: now + RECORD_TTL,
       families := s.families - fams,
       records := s.records - MembersOf(s, now, fams))
  }

  lemma NothingRevoked(s: Store, now: int)
    ensures RevokedAll(s, now, {}) == s
  {
    assert MembersOf(s, now, {}) == {};
    assert s.records - {} == s.records && s.families - {} == s.families;
    var none: set<Fam> := {};
    assert s.tombstones + (map f | f in none :: now + RECORD_TTL) == s.tombstones;
  }

  lemma OneMoreFamily(s: Store, now: int, done: set<Fam>, fam: Fam)
    ensures MembersOf(s, now, done + {fam}) == MembersOf(s, now, done) + LiveIds(s.families, fam, now)
  {
  }

  lemma OneMoreTombstone(tombstones: map<Fam, int>, done: set<Fam>, fam: Fam, expires: int)
    ensures tombstones + (map f | f in done + {fam} :: expires) == (tombstones + map f | f in done :: expires)[fam := expires]
  {
    var more := tombstones + map f | f in done + {fam} :: expires;
    var less := tombstones + map f | f in done :: expires;
    assert more.Keys == tombstones.Keys + done + {fam} == less[fam := expires].Keys;
  }

  lemma LessAndLess<V>(m: map<string, V>, a: set<string>, b: set<string>)
    ensures m - (a + b) == m - a - b
  {
  }

  lemma RevokeOneMore(s: Store, now: int, done: set<Fam>, fam: Fam)
    requires fam !in done
    ensures var cur := RevokedAll(s, now, done);
      RevokedAll(s, now, done + {fam}) == Revoked(cur, now, fam, LiveIds(cur.families, fam, now))
  {
    var cur := RevokedAll(s, now, done);
    var ids := LiveIds(s.families, fam, now);
    assert LiveIds(cur.families, fam, now) == ids;
    OneMoreFamily(s, now, done, fam);
    hide MembersOf, LiveIds;
    LessAndLess(s.records, MembersOf(s, now, done), ids);
    LessAndLess(s.families, done, {fam});
    OneMoreTombstone(s.tombstones, done, fam, now + RECORD_TTL);
  }

  class RefreshTokenStore {
    var records: map<Jti, Record>
    var families: map<Fam, IdSet>
    var tombstones: map<Fam, int>
    var users: map<Uid, IdSet>

    ghost function View(): Store
      reads this
    {
      Store(records, families, tombstones, users)
    }

    constructor ()
      ensures View() == Store(map[], map[], map[], map[])
    {
      records, families, tombstones, users := map[], map[], map[], map[];
    }

    method Register(now: int, jti: Jti, uid: Uid, org: Org, fam: Fam)
      modifies this
      ensures View() == Registered(old(View()), now, jti, uid, org, fam)
    {
      records := records[jti := Record(uid, org, fam, true, now + RECORD_TTL)];
      families := Added(families, fam, jti, now);
      users := Added(users, uid, fam, now);
    }

    method DeleteRecords(members: set<Jti>)
      modifies this`records
      ensures records == old(records) - members
    {
      var todo := members;
      while todo != {}
        invariant todo <= members
        invariant records == old(records) - (members - todo)
        decreases |todo|
      {
        var member :| member in todo;
        records := records - {member};
        todo := todo - {member};
      }
    }

    method Consume(now: int, jti: Jti, uid: Uid, fam: Fam) returns (outcome: Outcome)
      modifies this
      ensures (View(), outcome) == Consumed(old(View()), now, jti, uid, fam)
    {
      if fam in tombstones && now < tombstones[fam] {
        return DEAD;
      }
      if jti !in records || records[jti].expires <= now {
        tombstones := tombstones[fam := now + RECORD_TTL];
        return UNKNOWN;
      }
      if records[jti].uid != uid || records[jti].fam != fam {
        tombstones := tombstones[fam := now + RECORD_TTL];
        return MISMATCH;
      }
      if !records[jti].active {
        tombstones := tombstones[fam := now + RECORD_TTL];
        DeleteRecords(LiveIds(families, fam, now));
        families := families - {fam};
        return REUSE;
      }
      records := records[jti := records[jti].(active := false)];
      return OK;
    }

    method RevokeFamily(now: int, fam: Fam)
      modifies this
      ensures View() == Revoked(old(View()), now, fam, LiveIds(old(families), fam, now))
    {
      var members := LiveIds(families, fam, now);
      tombstones := tombstones[fam := now + RECORD_TTL];
      DeleteRecords(members);
      families := families - {fam};
    }

    /** Logout everywhere: each family of the user is killed, nobody else's is touched. */
    method RevokeAllForUser(now: int, uid: Uid) returns (killed: nat)
      modifies this
      ensures var fams := LiveIds(old(users), uid, now);
        && killed == |fams|
        && View() == RevokedAll(old(View()), now, fams).(users := old(users) - {uid})
    {
      var fams := LiveIds(users, uid, now);
      var todo := fams;
      NothingRevoked(View(), now);
      while todo != {}
        invariant todo <= fams
        invariant View() == RevokedAll(old(View()), now, fams - todo)
        decreases |todo|
      {
        var fam :| fam in todo;
        RevokeOneMore(old(View()), now, fams - todo, fam);
        RevokeFamily(now, fam);
        assert fams - todo + {fam} == fams - (todo - {fam});
        todo := todo - {fam};
      }
      assert fams - todo == fams;
      users := users - {uid};
      return |fams|;
    }
  }
}
