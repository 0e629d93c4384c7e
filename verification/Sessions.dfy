/**
 Refresh-token rotation (apps/api/src/modules/auth/auth.service.ts).

 Every database statement is one atomic step; any number of requests interleave.
 A request is a thread: `Pc` says which statement it runs next. Hashing is
 injective, so a stored hash is the token it was computed from.
 */
module Sessions {
  import opened Wrappers

  type Sid = nat
  type Fam = nat
  type User = nat
  type Tid = nat

  /** A signed refresh token: the session it was issued for and its owner. */
  datatype Token = Token(sid: Sid, sub: User)

  datatype Hash = OfRandomBytes | OfToken(token: Token)

  datatype Status = PENDING | ACTIVE | ROTATED | REVOKED

  datatype Row = Row(user: User, hash: Hash, fam: Fam, status: Status, replacedBy: Option<Sid>)

  /** Where a request is: the statement it is about to run. */
  datatype Pc =
    | LookUp(token: Token)                      // refresh: findUnique by hash
    | CreateSuccessor(parent: Sid, fam: Fam, user: User)
    | RotateParent(parent: Sid, fam: Fam, succ: Sid)
    | ActivateSuccessor(parent: Sid, succ: Sid)
    | DeleteSuccessor(fam: Fam, succ: Sid)      // lost the compare-and-set
    | RevokeFamily(fam: Fam)
    | LogoutLookUp(token: Token)
    | SignLogin(sid: Sid)                       // login: write the real hash
    | RevokeLookUp(user: User, sid: Sid, current: Option<Sid>)
    | RevokeOne(sid: Sid)
    | RevokeAllBut(user: User, keep: Sid)
    | Exchanged(parent: Sid, succ: Sid)
    | Finished

  /** Where a session sits in its family's rotation history. */
  datatype Place = Place(fam: Fam, index: nat)

  /** `chains` and `places` record the history: the sessions of each family in
      the order the compare-and-sets were won, starting with the login session. */
  datatype State = State(
    rows: map<Sid, Row>,
    threads: map<Tid, Pc>,
    nextSid: Sid,
    chains: seq<seq<Sid>>,
    places: map<Sid, Place>)

  const INIT := State(map[], map[], 0, [], map[])

  /** What a step may depend on besides the database. */
  datatype Env = Env(expired: bool, accountActive: bool)

  datatype Event =
    | Login(tid: Tid, user: User)
    | BeginRefresh(tid: Tid, token: Token)
    | BeginLogout(tid: Tid, token: Token)
    | BeginRevokeSession(tid: Tid, user: User, sid: Sid, current: Option<Sid>)
    | RevokeOthers(user: User, keep: Option<Sid>)  // also password change and reset
    | DeleteAll(user: User)                        // admin password reset
    | Advance(tid: Tid, env: Env)
    | Abort(tid: Tid)                              // a statement threw, the request ends

  // ── the statements ──────────────────────────────────────────────────

  /** findUnique({ refreshTokenHash }); FindsTheOnlyRow shows no other row can match. */
  function FindByToken(rows: map<Sid, Row>, token: Token): Option<Sid> {
    if token.sid in rows && rows[token.sid].hash == OfToken(token) then Some(token.sid) else None
  }

  /** updateMany({ familyId }, REVOKED) */
  function RevokedFamily(rows: map<Sid, Row>, fam: Fam): map<Sid, Row> {
    map sid | sid in rows :: if rows[sid].fam == fam then rows[sid].(status := REVOKED) else rows[sid]
  }

  /** updateMany({ userId, id: { not: keep } }, REVOKED) */
  function RevokedUser(rows: map<Sid, Row>, user: User, keep: Option<Sid>): map<Sid, Row> {
    map sid | sid in rows ::
      if rows[sid].user == user && keep != Some(sid) then rows[sid].(status := REVOKED) else rows[sid]
  }

  /** What refreshTokens does after its look-up. */
  function AfterLookUp(rows: map<Sid, Row>, token: Token, env: Env): Pc {
    match FindByToken(rows, token)
    case None => Finished
    case Some(sid) =>
      var r := rows[sid];
      if r.user != token.sub then RevokeFamily(r.fam)
      else if r.status != ACTIVE then RevokeFamily(r.fam)
      else if env.expired then Finished
      else if !env.accountActive then RevokeFamily(r.fam)
      else CreateSuccessor(sid, r.fam, r.user)
  }

  function LoginStep(s: State, tid: Tid, user: User): State {
    var sid, fam := s.nextSid, |s.chains|;
    s.(rows := s.rows[sid := Row(user, OfRandomBytes, fam, ACTIVE, None)],
       threads := s.threads[tid := SignLogin(sid)],
       nextSid := sid + 1,
       chains := s.chains + [[sid]],
       places := s.places[sid := Place(fam, 0)])
  }

  function SignStep(s: State, tid: Tid, sid: Sid): State {
    s.(rows := if sid in s.rows then s.rows[sid := s.rows[sid].(hash := OfToken(Token(sid, s.rows[sid].user)))] else s.rows,
       threads := s.threads[tid := Finished])
  }

  function CreateStep(s: State, tid: Tid, parent: Sid, fam: Fam, user: User): State {
    s.(rows := s.rows[s.nextSid := Row(user, OfRandomBytes, fam, PENDING, None)],
       threads := s.threads[tid := RotateParent(parent, fam, s.nextSid)],
       nextSid := s.nextSid + 1)
  }

  /** updateMany({ id: parent, status: ACTIVE }, { ROTATED, replacedById }) */
  function RotateStep(s: State, tid: Tid, parent: Sid, fam: Fam, succ: Sid): State {
    if parent in s.rows && s.rows[parent].status == ACTIVE && fam < |s.chains| then
      s.(rows := s.rows[parent := s.rows[parent].(status := ROTATED, replacedBy := Some(succ))],
         threads := s.threads[tid := ActivateSuccessor(parent, succ)],
         chains := s.chains[fam := s.chains[fam] + [succ]],
         places := s.places[succ := Place(fam, |s.chains[fam]|)])
    else
      s.(threads := s.threads[tid := DeleteSuccessor(fam, succ)])
  }

  /** update({ id: succ }, { ACTIVE, refreshTokenHash }), whatever the row's status is. */
  function ActivateStep(s: State, tid: Tid, parent: Sid, succ: Sid): State {
    if succ in s.rows then
      s.(rows := s.rows[succ := s.rows[succ].(status := ACTIVE, hash := OfToken(Token(succ, s.rows[succ].user)))],
         threads := s.threads[tid := Exchanged(parent, succ)])
    else
      s.(threads := s.threads[tid := Finished])
  }

  function AdvanceStep(s: State, tid: Tid, env: Env): State
    requires tid in s.threads
  {
    match s.threads[tid]
    case LookUp(token) => s.(threads := s.threads[tid := AfterLookUp(s.rows, token, env)])
    case CreateSuccessor(parent, fam, user) => CreateStep(s, tid, parent, fam, user)
    case RotateParent(parent, fam, succ) => RotateStep(s, tid, parent, fam, succ)
    case ActivateSuccessor(parent, succ) => ActivateStep(s, tid, parent, succ)
    case DeleteSuccessor(fam, succ) => s.(rows := s.rows - {succ}, threads := s.threads[tid := RevokeFamily(fam)])
    case RevokeFamily(fam) => s.(rows := RevokedFamily(s.rows, fam), threads := s.threads[tid := Finished])
    case LogoutLookUp(token) =>
      var found := FindByToken(s.rows, token);
      s.(threads := s.threads[tid := if found.Some? then RevokeFamily(s.rows[found.value].fam) else Finished])
    case SignLogin(sid) => SignStep(s, tid, sid)
    case RevokeLookUp(user, sid, current) =>
      s.(threads := s.threads[tid :=
        if sid !in s.rows || s.rows[sid].user != user then Finished
        else if current == Some(sid) then RevokeAllBut(user, sid)
        else RevokeOne(sid)])
    case RevokeOne(sid) =>
      s.(rows := if sid in s.rows then s.rows[sid := s.rows[sid].(status := REVOKED)] else s.rows,
         threads := s.threads[tid := Finished])
    case RevokeAllBut(user, keep) =>
      s.(rows := RevokedUser(s.rows, user, Some(keep)), threads := s.threads[tid := Finished])
    case Exchanged(_, _) => s
    case Finished => s
  }

  function Step(s: State, e: Event): State {
    match e
    case Login(tid, user) => if tid in s.threads then s else LoginStep(s, tid, user)
    case BeginRefresh(tid, token) => if tid in s.threads then s else s.(threads := s.threads[tid := LookUp(token)])
    case BeginLogout(tid, token) => if tid in s.threads then s else s.(threads := s.threads[tid := LogoutLookUp(token)])
    case BeginRevokeSession(tid, user, sid, current) =>
      if tid in s.threads then s else s.(threads := s.threads[tid := RevokeLookUp(user, sid, current)])
    case RevokeOthers(user, keep) => s.(rows := RevokedUser(s.rows, user, keep))
    case DeleteAll(user) => s.(rows := map sid | sid in s.rows && s.rows[sid].user != user :: s.rows[sid])
    case Advance(tid, env) => if tid in s.threads then AdvanceStep(s, tid, env) else s
    case Abort(tid) =>
      if tid in s.threads && !s.threads[tid].Exchanged? then s.(threads := s.threads[tid := Finished]) else s
  }

  function Run(s: State, events: seq<Event>): State
    decreases |events|
  {
    if events == [] then s else Run(Step(s, events[0]), events[1..])
  }

  // ── the invariant ───────────────────────────────────────────────────

  ghost predicate HistoryOk(s: State) {
    && (forall f :: 0 <= f < |s.chains| ==> |s.chains[f]| >= 1)
    && (forall f, i :: 0 <= f < |s.chains| && 0 <= i < |s.chains[f]| ==>
          s.chains[f][i] in s.places && s.places[s.chains[f][i]] == Place(f, i))
    && (forall sid :: sid in s.places ==> sid < s.nextSid && PlacedAt(s, sid, s.places[sid]))
  }

  ghost predicate PlacedAt(s: State, sid: Sid, p: Place) {
    p.fam < |s.chains| && p.index < |s.chains[p.fam]| && s.chains[p.fam][p.index] == sid
  }

  /** The session that replaced `sid` in its family's history. */
  ghost function Next(s: State, sid: Sid): Option<Sid>
    requires sid in s.places && PlacedAt(s, sid, s.places[sid])
  {
    var p := s.places[sid];
    if p.index + 1 < |s.chains[p.fam]| then Some(s.chains[p.fam][p.index + 1]) else None
  }

  ghost predicate RowOk(s: State, sid: Sid, r: Row) {
    && sid < s.nextSid
    && r.fam < |s.chains|
    && (r.hash.OfToken? ==> r.hash.token == Token(sid, r.user))
    && (if sid in s.places then
          && PlacedAt(s, sid, s.places[sid])
          && s.places[sid].fam == r.fam
          && r.replacedBy == Next(s, sid)
          && (r.status == ACTIVE ==> r.replacedBy == None)
        else
          && (r.status == PENDING || r.status == REVOKED)
          && r.replacedBy == None
          && r.hash == OfRandomBytes)
  }

  ghost predicate Follows(s: State, parent: Sid, succ: Sid) {
    && succ in s.places && PlacedAt(s, succ, s.places[succ])
    && s.places[succ].index > 0
    && s.chains[s.places[succ].fam][s.places[succ].index - 1] == parent
  }

  ghost predicate InFamily(s: State, sid: Sid, fam: Fam) {
    sid in s.places && s.places[sid].fam == fam
  }

  ghost predicate ThreadOk(s: State, pc: Pc) {
    match pc
    case CreateSuccessor(parent, fam, _) => fam < |s.chains| && InFamily(s, parent, fam)
    case RotateParent(parent, fam, succ) =>
      && fam < |s.chains| && InFamily(s, parent, fam)
      && succ < s.nextSid && succ !in s.places
      && (succ in s.rows ==> s.rows[succ].fam == fam)
    case ActivateSuccessor(parent, succ) =>
      && Follows(s, parent, succ) && Next(s, succ) == None
      && (succ in s.rows ==> s.rows[succ].status != ACTIVE)
    case DeleteSuccessor(_, succ) => succ < s.nextSid && succ !in s.places
    case Exchanged(parent, succ) => Follows(s, parent, succ)
    case SignLogin(sid) => sid in s.places
    case _ => true
  }

  /** The successor row a request created for itself. */
  function Own(pc: Pc): Option<Sid> {
    match pc
    case RotateParent(_, _, succ) => Some(succ)
    case ActivateSuccessor(_, succ) => Some(succ)
    case DeleteSuccessor(_, succ) => Some(succ)
    case Exchanged(_, succ) => Some(succ)
    case _ => None
  }

  ghost predicate OwnersDistinct(s: State) {
    && (forall t :: t in s.threads && Own(s.threads[t]).Some? ==> Own(s.threads[t]).value < s.nextSid)
    && (forall t, u :: t in s.threads && u in s.threads && t != u && Own(s.threads[t]).Some? ==>
          Own(s.threads[t]) != Own(s.threads[u]))
  }

  ghost predicate Inv(s: State) {
    && HistoryOk(s)
    && (forall sid :: sid in s.rows ==> RowOk(s, sid, s.rows[sid]))
    && (forall t :: t in s.threads ==> ThreadOk(s, s.threads[t]))
    && OwnersDistinct(s)
  }

  /** A step that only moves one thread. */
  lemma MoveKeeps(s: State, tid: Tid, pc: Pc)
    requires Inv(s) && tid in s.threads && ThreadOk(s, pc)
    requires Own(pc) == None || Own(pc) == Own(s.threads[tid])
    ensures Inv(s.(threads := s.threads[tid := pc]))
  {
    var s' := s.(threads := s.threads[tid := pc]);
    forall t | t in s'.threads ensures ThreadOk(s', s'.threads[t]) {
      assert ThreadOk(s, s'.threads[t]);
    }
    forall sid | sid in s'.rows ensures RowOk(s', sid, s'.rows[sid]) {
      assert RowOk(s, sid, s.rows[sid]);
    }
  }

  lemma SpawnKeeps(s: State, tid: Tid, pc: Pc)
    requires Inv(s) && tid !in s.threads && ThreadOk(s, pc) && Own(pc) == None
    ensures Inv(s.(threads := s.threads[tid := pc]))
  {
    var s' := s.(threads := s.threads[tid := pc]);
    forall t | t in s'.threads ensures ThreadOk(s', s'.threads[t]) {
      assert ThreadOk(s, s'.threads[t]);
    }
    forall sid | sid in s'.rows ensures RowOk(s', sid, s'.rows[sid]) {
      assert RowOk(s, sid, s.rows[sid]);
    }
  }

  /** A statement that only deletes rows or lowers their status. */
  ghost predicate Weaker(s: State, rows: map<Sid, Row>) {
    forall sid :: sid in rows ==>
      && sid in s.rows
      && rows[sid].fam == s.rows[sid].fam
      && (rows[sid].status == ACTIVE ==> s.rows[sid].status == ACTIVE)
      && RowOk(s, sid, rows[sid])
  }

  lemma WeakenKeeps(s: State, rows: map<Sid, Row>)
    requires Inv(s) && Weaker(s, rows)
    ensures Inv(s.(rows := rows))
  {
    var s' := s.(rows := rows);
    forall t | t in s'.threads ensures ThreadOk(s', s'.threads[t]) {
      assert ThreadOk(s, s.threads[t]);
    }
    forall sid | sid in s'.rows ensures RowOk(s', sid, s'.rows[sid]) {
      assert RowOk(s, sid, rows[sid]);
    }
  }

  lemma RevokedIsWeaker(s: State, rows: map<Sid, Row>)
    requires Inv(s)
    requires forall sid :: sid in rows ==>
      sid in s.rows && (rows[sid] == s.rows[sid] || rows[sid] == s.rows[sid].(status := REVOKED))
    ensures Weaker(s, rows)
  {
    forall sid | sid in rows ensures RowOk(s, sid, rows[sid]) {
      assert RowOk(s, sid, s.rows[sid]);
    }
  }

  lemma LoginKeeps(s: State, tid: Tid, user: User)
    requires Inv(s) && tid !in s.threads
    ensures Inv(LoginStep(s, tid, user))
  {
    var s' := LoginStep(s, tid, user);
    LoginHistory(s, tid, user);
    forall sid | sid in s'.rows ensures RowOk(s', sid, s'.rows[sid]) { LoginRow(s, tid, user, sid); }
    forall t | t in s'.threads ensures ThreadOk(s', s'.threads[t]) { LoginThread(s, tid, user, t); }
    assert OwnersDistinct(s');
  }

  lemma LoginRow(s: State, tid: Tid, user: User, sid: Sid)
    requires Inv(s) && (sid in s.rows || sid == s.nextSid)
    ensures var s' := LoginStep(s, tid, user); RowOk(s', sid, s'.rows[sid])
  {
    var s' := LoginStep(s, tid, user);
    if sid != s.nextSid {
      assert RowOk(s, sid, s.rows[sid]);
      if sid in s.places { assert PlacedAt(s', sid, s.places[sid]); }
    } else {
      assert PlacedAt(s', sid, Place(|s.chains|, 0));
    }
  }

  lemma LoginThread(s: State, tid: Tid, user: User, t: Tid)
    requires Inv(s) && (t in s.threads || t == tid)
    ensures var s' := LoginStep(s, tid, user); ThreadOk(s', s'.threads[t])
  {
    if t != tid { assert ThreadOk(s, s.threads[t]); }
  }

  lemma LoginHistory(s: State, tid: Tid, user: User)
    requires Inv(s) && tid !in s.threads
    ensures HistoryOk(LoginStep(s, tid, user))
  {
    var s' := LoginStep(s, tid, user);
    forall sid | sid in s'.places ensures sid < s'.nextSid && PlacedAt(s', sid, s'.places[sid]) {
      if sid != s.nextSid { assert PlacedAt(s, sid, s.places[sid]); }
    }
  }

  lemma CreateKeeps(s: State, tid: Tid, parent: Sid, fam: Fam, user: User)
    requires Inv(s) && tid in s.threads && s.threads[tid] == CreateSuccessor(parent, fam, user)
    ensures Inv(CreateStep(s, tid, parent, fam, user))
  {
    var s' := CreateStep(s, tid, parent, fam, user);
    assert ThreadOk(s, s.threads[tid]);
    assert s.nextSid !in s.places;
    forall sid | sid in s'.rows ensures RowOk(s', sid, s'.rows[sid]) {
      if sid != s.nextSid { assert RowOk(s, sid, s.rows[sid]); }
    }
    forall t | t in s'.threads ensures ThreadOk(s', s'.threads[t]) {
      if t != tid { assert ThreadOk(s, s.threads[t]); }
    }
    assert HistoryOk(s') by {
      forall sid | sid in s'.places ensures sid < s'.nextSid && PlacedAt(s', sid, s'.places[sid]) {
        assert PlacedAt(s, sid, s.places[sid]);
      }
    }
    assert OwnersDistinct(s');
  }

  lemma RotateKeeps(s: State, tid: Tid, parent: Sid, fam: Fam, succ: Sid)
    requires Inv(s) && tid in s.threads && s.threads[tid] == RotateParent(parent, fam, succ)
    ensures Inv(RotateStep(s, tid, parent, fam, succ))
  {
    assert ThreadOk(s, s.threads[tid]);
    if parent in s.rows && s.rows[parent].status == ACTIVE {
      assert RowOk(s, parent, s.rows[parent]);
      var s' := RotateStep(s, tid, parent, fam, succ);
      RotateHistory(s, tid, parent, fam, succ);
      forall sid | sid in s'.rows ensures RowOk(s', sid, s'.rows[sid]) {
        RotateRow(s, tid, parent, fam, succ, sid);
      }
      forall t | t in s'.threads ensures ThreadOk(s', s'.threads[t]) {
        RotateThread(s, tid, parent, fam, succ, t);
      }
    } else {
      MoveKeeps(s, tid, DeleteSuccessor(fam, succ));
    }
  }

  /** The compare-and-set has won: `parent` is ACTIVE, so it ends its chain. */
  ghost predicate Wins(s: State, tid: Tid, parent: Sid, fam: Fam, succ: Sid) {
    && Inv(s) && tid in s.threads && s.threads[tid] == RotateParent(parent, fam, succ)
    && ThreadOk(s, s.threads[tid])
    && parent in s.rows && s.rows[parent].status == ACTIVE && RowOk(s, parent, s.rows[parent])
  }

  lemma RotateHistory(s: State, tid: Tid, parent: Sid, fam: Fam, succ: Sid)
    requires Wins(s, tid, parent, fam, succ)
    ensures HistoryOk(RotateStep(s, tid, parent, fam, succ))
  {
    var s' := RotateStep(s, tid, parent, fam, succ);
    forall sid | sid in s'.places ensures sid < s'.nextSid && PlacedAt(s', sid, s'.places[sid]) {
      if sid != succ { assert PlacedAt(s, sid, s.places[sid]); }
    }
  }

  lemma RotateRow(s: State, tid: Tid, parent: Sid, fam: Fam, succ: Sid, sid: Sid)
    requires Wins(s, tid, parent, fam, succ) && sid in s.rows
    ensures var s' := RotateStep(s, tid, parent, fam, succ); RowOk(s', sid, s'.rows[sid])
  {
    var s' := RotateStep(s, tid, parent, fam, succ);
    assert RowOk(s, sid, s.rows[sid]);
    if sid in s.places {
      var p := s.places[sid];
      assert PlacedAt(s, sid, p) && PlacedAt(s', sid, p);
      if p.fam == fam && Next(s, sid) == None {
        assert s.places[parent].index == p.index;
        assert sid == parent;
      }
    }
  }

  lemma RotateThread(s: State, tid: Tid, parent: Sid, fam: Fam, succ: Sid, t: Tid)
    requires Wins(s, tid, parent, fam, succ) && t in s.threads
    ensures var s' := RotateStep(s, tid, parent, fam, succ); ThreadOk(s', s'.threads[t])
  {
    var s' := RotateStep(s, tid, parent, fam, succ);
    assert ThreadOk(s, s.threads[t]);
    assert PlacedAt(s, parent, s.places[parent]);
    if t == tid {
    } else if s.threads[t].ActivateSuccessor? {
      var other := s.threads[t].succ;
      assert s.places[other].fam != fam;
    } else {
      assert Own(s.threads[t]) != Own(s.threads[tid]);
    }
  }

  lemma ActivateKeeps(s: State, tid: Tid, parent: Sid, succ: Sid)
    requires Inv(s) && tid in s.threads && s.threads[tid] == ActivateSuccessor(parent, succ)
    ensures Inv(ActivateStep(s, tid, parent, succ))
  {
    assert ThreadOk(s, s.threads[tid]);
    if succ in s.rows {
      var s' := ActivateStep(s, tid, parent, succ);
      forall sid | sid in s'.rows ensures RowOk(s', sid, s'.rows[sid]) {
        assert RowOk(s, sid, s.rows[sid]);
      }
      forall t | t in s'.threads ensures ThreadOk(s', s'.threads[t]) {
        assert ThreadOk(s, s.threads[t]);
        if t != tid { assert Own(s.threads[t]) != Own(s.threads[tid]); }
      }
    } else {
      MoveKeeps(s, tid, Finished);
    }
  }

  lemma SignKeeps(s: State, tid: Tid, sid: Sid)
    requires Inv(s) && tid in s.threads && s.threads[tid] == SignLogin(sid)
    ensures Inv(SignStep(s, tid, sid))
  {
    assert ThreadOk(s, s.threads[tid]);
    if sid in s.rows {
      assert RowOk(s, sid, s.rows[sid]);
      WeakenKeeps(s, SignStep(s, tid, sid).rows);
      MoveKeeps(s.(rows := SignStep(s, tid, sid).rows), tid, Finished);
    } else {
      MoveKeeps(s, tid, Finished);
    }
  }

  /** Rows may only lose, then one thread moves on. */
  lemma RevokeAndMoveKeeps(s: State, tid: Tid, rows: map<Sid, Row>, pc: Pc)
    requires Inv(s) && tid in s.threads && Own(pc) == None && ThreadOk(s.(rows := rows), pc)
    requires forall sid :: sid in rows ==>
      sid in s.rows && (rows[sid] == s.rows[sid] || rows[sid] == s.rows[sid].(status := REVOKED))
    ensures Inv(s.(rows := rows, threads := s.threads[tid := pc]))
  {
    RevokedIsWeaker(s, rows);
    WeakenKeeps(s, rows);
    MoveKeeps(s.(rows := rows), tid, pc);
  }

  lemma RefreshKeeps(s: State, tid: Tid, env: Env)
    requires Inv(s) && tid in s.threads
    requires var pc := s.threads[tid];
             pc.LookUp? || pc.CreateSuccessor? || pc.RotateParent? || pc.ActivateSuccessor? || pc.DeleteSuccessor?
    ensures Inv(AdvanceStep(s, tid, env))
  {
    match s.threads[tid]
    case LookUp(token) =>
      if token.sid in s.rows { assert RowOk(s, token.sid, s.rows[token.sid]); }
      MoveKeeps(s, tid, AfterLookUp(s.rows, token, env));
    case CreateSuccessor(parent, fam, user) => CreateKeeps(s, tid, parent, fam, user);
    case RotateParent(parent, fam, succ) => RotateKeeps(s, tid, parent, fam, succ);
    case ActivateSuccessor(parent, succ) => ActivateKeeps(s, tid, parent, succ);
    case DeleteSuccessor(fam, succ) => RevokeAndMoveKeeps(s, tid, s.rows - {succ}, RevokeFamily(fam));
  }

  lemma AdvanceKeeps(s: State, tid: Tid, env: Env)
    requires Inv(s) && tid in s.threads
    ensures Inv(AdvanceStep(s, tid, env))
  {
    match s.threads[tid]
    case RevokeFamily(fam) => RevokeAndMoveKeeps(s, tid, RevokedFamily(s.rows, fam), Finished);
    case LogoutLookUp(token) => MoveKeeps(s, tid, AdvanceStep(s, tid, env).threads[tid]);
    case SignLogin(sid) => SignKeeps(s, tid, sid);
    case RevokeLookUp(_, _, _) => MoveKeeps(s, tid, AdvanceStep(s, tid, env).threads[tid]);
    case RevokeOne(sid) => RevokeAndMoveKeeps(s, tid, AdvanceStep(s, tid, env).rows, Finished);
    case RevokeAllBut(user, keep) => RevokeAndMoveKeeps(s, tid, RevokedUser(s.rows, user, Some(keep)), Finished);
    case Exchanged(_, _) =>
    case Finished =>
    case _ => RefreshKeeps(s, tid, env);
  }

  lemma StepKeeps(s: State, e: Event)
    requires Inv(s)
    ensures Inv(Step(s, e))
  {
    match e
    case Login(tid, user) => if tid !in s.threads { LoginKeeps(s, tid, user); }
    case BeginRefresh(tid, token) => if tid !in s.threads { SpawnKeeps(s, tid, LookUp(token)); }
    case BeginLogout(tid, token) => if tid !in s.threads { SpawnKeeps(s, tid, LogoutLookUp(token)); }
    case BeginRevokeSession(tid, user, sid, current) =>
      if tid !in s.threads { SpawnKeeps(s, tid, RevokeLookUp(user, sid, current)); }
    case RevokeOthers(user, keep) =>
      RevokedIsWeaker(s, Step(s, e).rows);
      WeakenKeeps(s, Step(s, e).rows);
    case DeleteAll(user) =>
      RevokedIsWeaker(s, Step(s, e).rows);
      WeakenKeeps(s, Step(s, e).rows);
    case Advance(tid, env) => if tid in s.threads { AdvanceKeeps(s, tid, env); }
    case Abort(tid) => if tid in s.threads && !s.threads[tid].Exchanged? { MoveKeeps(s, tid, Finished); }
  }

  /** Every state that any interleaving reaches from an empty database. */
  lemma {:induction false} ReachableInv(s: State, events: seq<Event>)
    requires Inv(s)
    ensures Inv(Run(s, events))
    decreases |events|
  {
    if events != [] {
      StepKeeps(s, events[0]);
      ReachableInv(Step(s, events[0]), events[1..]);
    }
  }

  // ── what holds in every reachable state ─────────────────────────────

  /** The look-up by hash finds every row that stores the token's hash: at most one. */
  lemma FindsTheOnlyRow(events: seq<Event>, token: Token, sid: Sid)
    ensures var s := Run(INIT, events);
            sid in s.rows && s.rows[sid].hash == OfToken(token) <==> FindByToken(s.rows, token) == Some(sid)
  {
    ReachableInv(INIT, events);
    var s := Run(INIT, events);
    if sid in s.rows { assert RowOk(s, sid, s.rows[sid]); }
  }

  /** A request that has won the compare-and-set and not yet activated its successor. */
  ghost predicate MayActivate(s: State, tid: Tid, fam: Fam) {
    && tid in s.threads && s.threads[tid].ActivateSuccessor?
    && s.threads[tid].succ in s.rows && s.rows[s.threads[tid].succ].fam == fam
  }

  ghost predicate HasActive(s: State, fam: Fam, sid: Sid) {
    sid in s.rows && s.rows[sid].fam == fam && s.rows[sid].status == ACTIVE
  }

  /** MAIN RESULT. A family has at most one ACTIVE session, and counting a request
      between its compare-and-set and its activation as a holder, at most one holder. */
  lemma OneHolderPerFamily(events: seq<Event>, fam: Fam, a: Sid, b: Sid, t: Tid, u: Tid)
    ensures var s := Run(INIT, events);
            && (HasActive(s, fam, a) && HasActive(s, fam, b) ==> a == b)
            && (MayActivate(s, t, fam) ==> !HasActive(s, fam, a))
            && (MayActivate(s, t, fam) && MayActivate(s, u, fam) ==> t == u)
  {
    ReachableInv(INIT, events);
    OneHolder(Run(INIT, events), fam, a, b, t, u);
  }

  lemma OneHolder(s: State, fam: Fam, a: Sid, b: Sid, t: Tid, u: Tid)
    requires Inv(s)
    ensures HasActive(s, fam, a) && HasActive(s, fam, b) ==> a == b
    ensures MayActivate(s, t, fam) ==> !HasActive(s, fam, a)
    ensures MayActivate(s, t, fam) && MayActivate(s, u, fam) ==> t == u
  {
    if HasActive(s, fam, a) { EndsChain(s, a); }
    if HasActive(s, fam, b) { EndsChain(s, b); }
    if MayActivate(s, t, fam) { ActivatorEndsChain(s, t, fam); }
    if MayActivate(s, u, fam) { ActivatorEndsChain(s, u, fam); }
  }

  ghost function Last(s: State, fam: Fam): Option<Sid> {
    if fam < |s.chains| && |s.chains[fam]| > 0 then Some(s.chains[fam][|s.chains[fam]| - 1]) else None
  }

  lemma EndsChain(s: State, sid: Sid)
    requires Inv(s) && sid in s.rows && s.rows[sid].status == ACTIVE
    ensures Last(s, s.rows[sid].fam) == Some(sid)
  {
    assert RowOk(s, sid, s.rows[sid]);
  }

  lemma ActivatorEndsChain(s: State, t: Tid, fam: Fam)
    requires Inv(s) && MayActivate(s, t, fam)
    ensures Last(s, fam) == Own(s.threads[t]) == Some(s.threads[t].succ)
    ensures s.rows[s.threads[t].succ].status != ACTIVE
    ensures InFamily(s, s.threads[t].parent, fam)
  {
    assert ThreadOk(s, s.threads[t]);
    assert RowOk(s, s.threads[t].succ, s.rows[s.threads[t].succ]);
  }

  ghost predicate Exchanging(s: State, tid: Tid, parent: Sid) {
    tid in s.threads && (s.threads[tid].Exchanged? || s.threads[tid].ActivateSuccessor?) && s.threads[tid].parent == parent
  }

  lemma SuccessorIsUnique(s: State, parent: Sid, a: Sid, b: Sid)
    requires HistoryOk(s) && Follows(s, parent, a) && Follows(s, parent, b)
    ensures a == b
  {
    var p, q := s.places[a], s.places[b];
    assert s.places[parent] == Place(p.fam, p.index - 1) == Place(q.fam, q.index - 1);
  }

  lemma ExchangerIsUnique(s: State, parent: Sid, t: Tid, u: Tid)
    requires Inv(s) && Exchanging(s, t, parent) && Exchanging(s, u, parent)
    ensures t == u
  {
    assert ThreadOk(s, s.threads[t]) && ThreadOk(s, s.threads[u]);
    SuccessorIsUnique(s, parent, s.threads[t].succ, s.threads[u].succ);
    assert Own(s.threads[t]) == Own(s.threads[u]);
  }

  /** MAIN RESULT. Over any interleaving a token is exchanged at most once. */
  lemma ExchangedAtMostOnce(events: seq<Event>, parent: Sid, t: Tid, u: Tid)
    ensures var s := Run(INIT, events);
            Exchanging(s, t, parent) && Exchanging(s, u, parent) ==> t == u
  {
    ReachableInv(INIT, events);
    var s := Run(INIT, events);
    if Exchanging(s, t, parent) && Exchanging(s, u, parent) { ExchangerIsUnique(s, parent, t, u); }
  }

  /** An exchange that happened stays on record, so the count above is over the whole run. */
  lemma {:induction false} ExchangeIsRecorded(s: State, events: seq<Event>, tid: Tid)
    requires tid in s.threads && s.threads[tid].Exchanged?
    ensures tid in Run(s, events).threads && Run(s, events).threads[tid] == s.threads[tid]
    decreases |events|
  {
    if events != [] {
      assert tid in Step(s, events[0]).threads && Step(s, events[0]).threads[tid] == s.threads[tid];
      ExchangeIsRecorded(Step(s, events[0]), events[1..], tid);
    }
  }

  ghost predicate IsRotationPath(rows: map<Sid, Row>, fam: Fam, path: seq<Sid>) {
    && |path| >= 1
    && (forall i, j :: 0 <= i < j < |path| ==> path[i] != path[j])
    && (forall sid :: sid in rows && rows[sid].fam == fam && rows[sid].replacedBy.Some? ==>
          exists i :: 0 <= i < |path| - 1 && path[i] == sid && path[i + 1] == rows[sid].replacedBy.value)
    && (forall i :: 0 <= i < |path| && path[i] in rows ==>
          && rows[path[i]].fam == fam
          && rows[path[i]].replacedBy == if i + 1 < |path| then Some(path[i + 1]) else None)
  }

  /** MAIN RESULT. The replacedById links of a family are the edges of one simple
      path that starts at the session its login created. */
  lemma RotationLinksFormOnePath(before: seq<Event>, tid: Tid, user: User, after: seq<Event>)
    requires tid !in Run(INIT, before).threads
    ensures var s := Run(INIT, before);
            var s' := Run(Step(s, Login(tid, user)), after);
            exists path :: IsRotationPath(s'.rows, |s.chains|, path) && path[0] == s.nextSid
  {
    ReachableInv(INIT, before);
    var s := Run(INIT, before);
    var s1 := LoginStep(s, tid, user);
    StepKeeps(s, Login(tid, user));
    ReachableInv(s1, after);
    assert s1.chains[|s.chains|][0] == s.nextSid;
    ChainsOnlyGrow(s1, after, |s.chains|);
    ChainIsRotationPath(Run(s1, after), |s.chains|);
  }

  lemma ChainIsRotationPath(s: State, fam: Fam)
    requires Inv(s) && fam < |s.chains|
    ensures IsRotationPath(s.rows, fam, s.chains[fam])
  {
    var path := s.chains[fam];
    forall sid | sid in s.rows && s.rows[sid].fam == fam && s.rows[sid].replacedBy.Some?
      ensures exists i :: 0 <= i < |path| - 1 && path[i] == sid && path[i + 1] == s.rows[sid].replacedBy.value
    {
      assert RowOk(s, sid, s.rows[sid]);
      assert path[s.places[sid].index] == sid;
    }
    forall i | 0 <= i < |path| && path[i] in s.rows
      ensures s.rows[path[i]].fam == fam
      ensures s.rows[path[i]].replacedBy == if i + 1 < |path| then Some(path[i + 1]) else None
    {
      assert RowOk(s, path[i], s.rows[path[i]]);
    }
  }

  lemma StepGrowsChains(s: State, e: Event, fam: Fam)
    requires fam < |s.chains|
    ensures fam < |Step(s, e).chains| && s.chains[fam] <= Step(s, e).chains[fam]
  {
  }

  lemma {:induction false} ChainsOnlyGrow(s: State, events: seq<Event>, fam: Fam)
    requires fam < |s.chains|
    ensures fam < |Run(s, events).chains| && s.chains[fam] <= Run(s, events).chains[fam]
    decreases |events|
  {
    if events != [] {
      StepGrowsChains(s, events[0], fam);
      ChainsOnlyGrow(Step(s, events[0]), events[1..], fam);
    }
  }

  // ── what a revocation is worth ──────────────────────────────────────

  ghost predicate Dead(s: State, fam: Fam) {
    && fam < |s.chains|
    && (forall sid :: !HasActive(s, fam, sid))
    && (forall tid :: !MayActivate(s, tid, fam))
  }

  lemma DeadStays(s: State, e: Event, fam: Fam)
    requires Inv(s) && Dead(s, fam)
    ensures Dead(Step(s, e), fam) && Step(s, e).chains[fam] == s.chains[fam]
  {
    var s' := Step(s, e);
    if e.Advance? && e.tid in s.threads { DeadChain(s, e.tid, e.env, fam); }
    forall sid ensures !HasActive(s', fam, sid) { DeadRow(s, e, fam, sid); }
    forall tid ensures !MayActivate(s', tid, fam) { DeadThread(s, e, fam, tid); }
  }

  lemma DeadRow(s: State, e: Event, fam: Fam, sid: Sid)
    requires Inv(s) && Dead(s, fam)
    ensures !HasActive(Step(s, e), fam, sid)
  {
    assert !HasActive(s, fam, sid);
    if e.Advance? && e.tid in s.threads { assert !MayActivate(s, e.tid, fam) && ThreadOk(s, s.threads[e.tid]); }
  }

  /** No statement moves a session that exists to another family. */
  lemma FamiliesStay(s: State, e: Event, sid: Sid)
    requires sid < s.nextSid
    ensures sid in Step(s, e).rows ==> sid in s.rows && Step(s, e).rows[sid].fam == s.rows[sid].fam
  {
  }

  /** Only a won compare-and-set puts a request before its activation. */
  lemma ActivatorsAreWinners(s: State, e: Event, tid: Tid)
    requires tid in Step(s, e).threads && Step(s, e).threads[tid].ActivateSuccessor?
    ensures var pc := Step(s, e).threads[tid];
            && tid in s.threads
            && (s.threads[tid] == pc
                || (s.threads[tid].RotateParent? && s.threads[tid].succ == pc.succ
                    && s.threads[tid].parent in s.rows && s.rows[s.threads[tid].parent].status == ACTIVE))
  {
  }

  lemma DeadThread(s: State, e: Event, fam: Fam, tid: Tid)
    requires Inv(s) && Dead(s, fam)
    ensures !MayActivate(Step(s, e), tid, fam)
  {
    assert !MayActivate(s, tid, fam);
    if MayActivate(Step(s, e), tid, fam) {
      ActivatorsAreWinners(s, e, tid);
      SuccessorIsOld(s, tid);
      FamiliesStay(s, e, Step(s, e).threads[tid].succ);
      WinnerIsElsewhere(s, tid, fam);
    }
  }

  lemma SuccessorIsOld(s: State, tid: Tid)
    requires Inv(s) && tid in s.threads && (s.threads[tid].ActivateSuccessor? || s.threads[tid].RotateParent?)
    ensures s.threads[tid].succ < s.nextSid
  {
    assert ThreadOk(s, s.threads[tid]);
  }

  lemma WinnerIsElsewhere(s: State, tid: Tid, fam: Fam)
    requires Inv(s) && Dead(s, fam) && tid in s.threads
    ensures var pc := s.threads[tid];
            pc.RotateParent? && pc.parent in s.rows && s.rows[pc.parent].status == ACTIVE && pc.succ in s.rows ==>
              s.rows[pc.succ].fam != fam
  {
    var pc := s.threads[tid];
    assert ThreadOk(s, pc);
    if pc.RotateParent? && pc.parent in s.rows {
      assert RowOk(s, pc.parent, s.rows[pc.parent]) && !HasActive(s, fam, pc.parent);
    }
  }

  lemma DeadChain(s: State, tid: Tid, env: Env, fam: Fam)
    requires Inv(s) && Dead(s, fam) && tid in s.threads
    ensures AdvanceStep(s, tid, env).chains[fam] == s.chains[fam]
  {
    if s.threads[tid].RotateParent? {
      var parent := s.threads[tid].parent;
      assert ThreadOk(s, s.threads[tid]) && !HasActive(s, fam, parent);
      if parent in s.rows { assert RowOk(s, parent, s.rows[parent]); }
    }
  }

  lemma {:induction false} DeadForever(s: State, events: seq<Event>, fam: Fam)
    requires Inv(s) && Dead(s, fam)
    ensures Dead(Run(s, events), fam) && Run(s, events).chains[fam] == s.chains[fam]
    decreases |events|
  {
    if events != [] {
      DeadStays(s, events[0], fam);
      StepKeeps(s, events[0]);
      DeadForever(Step(s, events[0]), events[1..], fam);
    }
  }

  ghost predicate RevivesIn(s: State, events: seq<Event>, fam: Fam) {
    exists sid :: HasActive(Run(s, events), fam, sid)
  }

  lemma RevokedFamilyHasNoActive(s: State, tid: Tid, fam: Fam, env: Env)
    requires Inv(s) && tid in s.threads && s.threads[tid] == RevokeFamily(fam) && fam < |s.chains|
    ensures var after := Step(s, Advance(tid, env));
            Inv(after) && fam < |after.chains| && forall sid :: !HasActive(after, fam, sid)
  {
    StepKeeps(s, Advance(tid, env));
  }

  /** MAIN RESULT. When revokeFamily returns, the family can become ACTIVE again
      exactly when some request stands between its compare-and-set and its activation:
      that last update does not look at the row's status. */
  lemma RevocationHoldsExactlyWhen(before: seq<Event>, tid: Tid, fam: Fam, env: Env)
    requires var s := Run(INIT, before);
             tid in s.threads && s.threads[tid] == RevokeFamily(fam) && fam < |s.chains|
    ensures var s := Step(Run(INIT, before), Advance(tid, env));
            (exists after :: RevivesIn(s, after, fam)) <==> (exists t :: MayActivate(s, t, fam))
  {
    var s := Run(INIT, before);
    ReachableInv(INIT, before);
    RevokedFamilyHasNoActive(s, tid, fam, env);
    RevivalNeedsActivator(Step(s, Advance(tid, env)), fam);
  }

  lemma RevivalNeedsActivator(s: State, fam: Fam)
    requires Inv(s) && fam < |s.chains| && forall sid :: !HasActive(s, fam, sid)
    ensures (exists after :: RevivesIn(s, after, fam)) <==> (exists t :: MayActivate(s, t, fam))
  {
    if t :| MayActivate(s, t, fam) {
      ActivatorRevives(s, t, fam);
    } else {
      forall after ensures !RevivesIn(s, after, fam) {
        DeadForever(s, after, fam);
      }
    }
  }

  lemma ActivatorRevives(s: State, t: Tid, fam: Fam)
    requires MayActivate(s, t, fam)
    ensures RevivesIn(s, [Advance(t, Env(false, true))], fam)
  {
    var after := [Advance(t, Env(false, true))];
    assert after[1..] == [];
    assert Run(s, after) == Step(s, after[0]);
    assert HasActive(Run(s, after), fam, s.threads[t].succ);
  }

  /** Once a family is dead no refresh of any of its tokens is ever answered with a pair. */
  lemma {:induction false} DeadFamilyNeverExchanges(s: State, events: seq<Event>, fam: Fam, tid: Tid)
    requires Inv(s) && Dead(s, fam)
    ensures var s' := Run(s, events);
            tid in s'.threads && s'.threads[tid].Exchanged? && InFamily(s', s'.threads[tid].parent, fam) ==>
              tid in s.threads && s.threads[tid] == s'.threads[tid]
    decreases |events|
  {
    if events != [] {
      var s1 := Step(s, events[0]);
      DeadStays(s, events[0], fam);
      StepKeeps(s, events[0]);
      DeadFamilyNeverExchanges(s1, events[1..], fam, tid);
      ReachableInv(s1, events[1..]);
      if tid in s.threads { assert ThreadOk(s, s.threads[tid]); }
      if tid in s1.threads && s1.threads[tid].Exchanged? {
        ExchangeIsRecorded(s1, events[1..], tid);
        assert ThreadOk(s1, s1.threads[tid]);
        NewExchangeIsElsewhere(s, events[0], fam, tid);
        PlacesStay(s1, events[1..], s1.threads[tid].parent);
      }
    }
  }

  lemma NewExchangeIsElsewhere(s: State, e: Event, fam: Fam, tid: Tid)
    requires Inv(s) && Dead(s, fam)
    ensures var s' := Step(s, e);
            tid in s'.threads && s'.threads[tid].Exchanged? && !(tid in s.threads && s.threads[tid] == s'.threads[tid]) ==>
              !InFamily(s', s'.threads[tid].parent, fam)
  {
    NewExchangeIsAnActivation(s, e, tid);
    if tid in s.threads && s.threads[tid].ActivateSuccessor? && s.threads[tid].succ in s.rows {
      var succ := s.threads[tid].succ;
      assert ThreadOk(s, s.threads[tid]) && RowOk(s, succ, s.rows[succ]);
      assert !MayActivate(s, tid, fam);
    }
  }

  lemma NewExchangeIsAnActivation(s: State, e: Event, tid: Tid)
    ensures var s' := Step(s, e);
            tid in s'.threads && s'.threads[tid].Exchanged? && !(tid in s.threads && s.threads[tid] == s'.threads[tid]) ==>
              && tid in s.threads && s.threads[tid].ActivateSuccessor? && s.threads[tid].succ in s.rows
              && s'.threads[tid].parent == s.threads[tid].parent
              && s'.places == s.places
  {
  }

  lemma PlaceStays(s: State, e: Event, sid: Sid)
    requires Inv(s) && sid in s.places
    ensures sid in Step(s, e).places && Step(s, e).places[sid] == s.places[sid]
  {
    if e.Advance? && e.tid in s.threads { assert ThreadOk(s, s.threads[e.tid]); }
  }

  lemma {:induction false} PlacesStay(s: State, events: seq<Event>, sid: Sid)
    requires Inv(s) && sid in s.places
    ensures sid in Run(s, events).places && Run(s, events).places[sid] == s.places[sid]
    decreases |events|
  {
    if events != [] {
      PlaceStays(s, events[0], sid);
      StepKeeps(s, events[0]);
      PlacesStay(Step(s, events[0]), events[1..], sid);
    }
  }

  function Pairs(pairs: seq<(Event, Event)>): seq<Event> {
    if pairs == [] then [] else [pairs[0].0, pairs[0].1] + Pairs(pairs[1..])
  }

  lemma {:induction false} RunPairs(states: seq<State>, pairs: seq<(Event, Event)>)
    requires |states| == |pairs| + 1
    requires forall i :: 0 <= i < |pairs| ==> Step(Step(states[i], pairs[i].0), pairs[i].1) == states[i + 1]
    ensures Run(states[0], Pairs(pairs)) == states[|pairs|]
  {
    if pairs != [] {
      var (a, b) := pairs[0];
      var rest := Pairs(pairs[1..]);
      assert ([a, b] + rest)[1..] == [b] + rest && ([b] + rest)[1..] == rest;
      assert Run(states[0], [a, b] + rest) == Run(Step(Step(states[0], a), b), rest);
      RunPairs(states[1..], pairs[1..]);
    }
  }

  function Race(user: User): seq<(Event, Event)> {
    var t, ok := Token(0, user), Env(false, true);
    var both := (Advance(1, ok), Advance(2, ok));
    [(Login(0, user), Advance(0, ok)), (BeginRefresh(1, t), BeginRefresh(2, t)), both, both, both, (Advance(2, ok), Advance(2, ok))]
  }

  /** The database and the requests after each pair of events of the race. */
  function RaceState(user: User, leg: nat): State {
    var t := Token(0, user);
    var login := Row(user, OfToken(t), 0, ACTIVE, None);
    var pending := Row(user, OfRandomBytes, 0, PENDING, None);
    if leg == 0 then INIT
    else if leg == 1 then State(map[0 := login], map[0 := Finished], 1, [[0]], map[0 := Place(0, 0)])
    else if leg == 2 then RaceState(user, 1).(threads := map[0 := Finished, 1 := LookUp(t), 2 := LookUp(t)])
    else if leg == 3 then
      RaceState(user, 1).(threads := map[0 := Finished, 1 := CreateSuccessor(0, 0, user), 2 := CreateSuccessor(0, 0, user)])
    else if leg == 4 then
      State(map[0 := login, 1 := pending, 2 := pending],
            map[0 := Finished, 1 := RotateParent(0, 0, 1), 2 := RotateParent(0, 0, 2)],
            3, [[0]], map[0 := Place(0, 0)])
    else if leg == 5 then
      State(map[0 := login.(status := ROTATED, replacedBy := Some(1)), 1 := pending, 2 := pending],
            map[0 := Finished, 1 := ActivateSuccessor(0, 1), 2 := DeleteSuccessor(0, 2)],
            3, [[0, 1]], map[0 := Place(0, 0), 1 := Place(0, 1)])
    else
      State(map[0 := login.(status := REVOKED, replacedBy := Some(1)), 1 := pending.(status := REVOKED)],
            map[0 := Finished, 1 := ActivateSuccessor(0, 1), 2 := Finished],
            3, [[0, 1]], map[0 := Place(0, 0), 1 := Place(0, 1)])
  }

  lemma RaceOpens(user: User, leg: nat)
    requires leg < 3
    ensures Step(Step(RaceState(user, leg), Race(user)[leg].0), Race(user)[leg].1) == RaceState(user, leg + 1)
  {
  }

  lemma RaceCreates(user: User)
    ensures var ok := Env(false, true);
            Step(Step(RaceState(user, 3), Advance(1, ok)), Advance(2, ok)) == RaceState(user, 4)
  {
  }

  lemma RaceBurns(user: User)
    ensures var ok := Env(false, true);
            Step(Step(RaceState(user, 5), Advance(2, ok)), Advance(2, ok)) == RaceState(user, 6)
  {
  }

  /** The fifth leg is the compare-and-set, won by request 1 and lost by request 2. */
  lemma RaceForTheParent(user: User)
    ensures var ok := Env(false, true);
            Step(Step(RaceState(user, 4), Advance(1, ok)), Advance(2, ok)) == RaceState(user, 5)
  {
    assert [0] + [1] == [0, 1];
    assert [[0]][0 := [0, 1]] == [[0, 1]];
  }

  /** Two refreshes of one token: the loser burns the family, and the winner's last
      statement still brings it back. The condition above is met by a real race. */
  lemma LostRaceLeavesFamilyAlive(user: User)
    ensures var s := Run(INIT, Pairs(Race(user)));
            && (2 in s.threads && s.threads[2] == Finished)
            && (forall sid :: !HasActive(s, 0, sid))
            && MayActivate(s, 1, 0)
  {
    var states := seq(7, i requires 0 <= i => RaceState(user, i));
    forall i | 0 <= i < 6
      ensures Step(Step(states[i], Race(user)[i].0), Race(user)[i].1) == states[i + 1]
    {
      if i < 3 { RaceOpens(user, i); }
      else if i == 3 { RaceCreates(user); }
      else if i == 4 { RaceForTheParent(user); }
      else { RaceBurns(user); }
    }
    RunPairs(states, Race(user));
  }

  /** Until its request wins the compare-and-set, a successor can be found by no token whatever. */
  lemma LoserIsNeverFound(events: seq<Event>, sid: Sid, token: Token)
    ensures var s := Run(INIT, events);
            sid in s.rows && sid !in s.places ==> FindByToken(s.rows, token) != Some(sid)
  {
    ReachableInv(INIT, events);
    var s := Run(INIT, events);
    if sid in s.rows { assert RowOk(s, sid, s.rows[sid]); }
  }

  // ── facts about single statements ───────────────────────────────────

  lemma NextIsFresh(s: State)
    requires Inv(s)
    ensures s.nextSid !in s.rows
  {
    forall sid | sid in s.rows ensures sid < s.nextSid {
      assert RowOk(s, sid, s.rows[sid]);
    }
  }

  lemma WinnerLeavesNoActive(s: State, tid: Tid, parent: Sid, fam: Fam, succ: Sid, sid: Sid)
    requires Inv(s) && tid in s.threads && s.threads[tid] == RotateParent(parent, fam, succ)
    ensures fam < |s.chains|
    ensures parent in s.rows ==> s.rows[parent].fam == fam
    ensures HasActive(s, fam, parent) ==> !HasActive(RotateStep(s, tid, parent, fam, succ), fam, sid)
  {
    assert ThreadOk(s, s.threads[tid]);
    if parent in s.rows { assert RowOk(s, parent, s.rows[parent]); }
    OneHolder(s, fam, sid, parent, tid, tid);
  }
}
