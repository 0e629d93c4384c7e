/**
 What whole requests of Sessions do to the rows, from the first look-up to the last write
 (apps/api/src/modules/auth/auth.service.ts): which refreshes burn their family, which are
 answered with a pair and what that pair is, and what logout and the revocations touch. Other
 requests run between the statements.
 */
module SessionOutcomes {
  import opened Wrappers
  import opened Sessions

  // ── one request among others ────────────────────────────────────────

  /** The event is a statement of request `tid`, or ends it. */
  predicate Moves(e: Event, tid: Tid) {
    (e.Advance? || e.Abort?) && e.tid == tid
  }

  ghost predicate Meanwhile(events: seq<Event>, tid: Tid) {
    forall e :: e in events ==> !Moves(e, tid)
  }

  lemma {:induction false} Waits(s: State, events: seq<Event>, tid: Tid)
    requires tid in s.threads && Meanwhile(events, tid)
    ensures tid in Run(s, events).threads && Run(s, events).threads[tid] == s.threads[tid]
    decreases |events|
  {
    if events != [] {
      assert !Moves(events[0], tid);
      Waits(Step(s, events[0]), events[1..], tid);
    }
  }

  /** The row that stores the token's hash, and why the service distrusts who presents it. */
  ghost predicate Stores(s: State, sid: Sid, token: Token) {
    sid in s.rows && s.rows[sid].hash == OfToken(token)
  }

  ghost predicate Distrusted(r: Row, token: Token, env: Env) {
    r.user != token.sub || r.status != ACTIVE || (!env.expired && !env.accountActive)
  }

  /** Every row of the family becomes REVOKED, and nothing else changes. */
  ghost predicate Burns(rows: map<Sid, Row>, after: map<Sid, Row>, fam: Fam) {
    && after.Keys == rows.Keys
    && forall sid :: sid in rows ==>
         after[sid] == if rows[sid].fam == fam then rows[sid].(status := REVOKED) else rows[sid]
  }

  /** How requests begin, and that one that fails halfway changes no row. */
  lemma RequestsBegin(s: State, tid: Tid, token: Token, user: User, sid: Sid, current: Option<Sid>)
    requires tid !in s.threads
    ensures Step(s, BeginRefresh(tid, token)) == s.(threads := s.threads[tid := LookUp(token)])
    ensures Step(s, BeginLogout(tid, token)) == s.(threads := s.threads[tid := LogoutLookUp(token)])
    ensures Step(s, BeginRevokeSession(tid, user, sid, current)) == s.(threads := s.threads[tid := RevokeLookUp(user, sid, current)])
    ensures Step(s, BeginRefresh(tid, token)).threads != s.threads
    ensures forall t :: Step(s, Abort(t)).rows == s.rows && Step(s, Abort(t)).chains == s.chains
  {
  }

  /** MAIN RESULT. A login creates one session, ACTIVE at once in a family of its own, and changes no other row; once it is
      signed, its token is the one that finds it. */
  lemma LoginOpensASession(before: seq<Event>, tid: Tid, user: User, env: Env)
    requires tid !in Run(INIT, before).threads
    ensures var s := Run(INIT, before);
            var begun := Step(s, Login(tid, user));
            var after := Step(begun, Advance(tid, env));
            && s.nextSid !in s.rows && (forall sid :: sid in s.rows ==> s.rows[sid].fam != |s.chains|)
            && begun.rows == s.rows[s.nextSid := Row(user, OfRandomBytes, |s.chains|, ACTIVE, None)]
            && after.rows == s.rows[s.nextSid := Row(user, OfToken(Token(s.nextSid, user)), |s.chains|, ACTIVE, None)]
            && FindByToken(after.rows, Token(s.nextSid, user)) == Some(s.nextSid)
  {
    var s := Run(INIT, before);
    ReachableInv(INIT, before);
    NextIsFresh(s);
    forall sid | sid in s.rows ensures s.rows[sid].fam != |s.chains| { assert RowOk(s, sid, s.rows[sid]); }
    var begun := Step(s, Login(tid, user));
    assert begun.threads[tid] == SignLogin(s.nextSid);
  }

  // ── refresh ─────────────────────────────────────────────────────────

  lemma RevokesItsFamily(s: State, between: seq<Event>, tid: Tid, fam: Fam, env: Env)
    requires tid in s.threads && s.threads[tid] == RevokeFamily(fam) && Meanwhile(between, tid)
    ensures var waited := Run(s, between);
            var after := Step(waited, Advance(tid, env));
            && Burns(waited.rows, after.rows, fam) && (forall sid :: !HasActive(after, fam, sid))
            && tid in after.threads && after.threads[tid] == Finished
  {
    Waits(s, between, tid);
  }

  /** MAIN RESULT. Replay is answered by burning the family. In any reachable state, whatever the other requests do
      between its two statements: a refresh whose token belongs to a session that is not ACTIVE any more, or that is
      somebody else's, or whose account is suspended while the token has not expired, changes nothing but leaves
      every session of that family REVOKED, and the request is refused. */
  lemma ReplayBurnsItsFamily(before: seq<Event>, between: seq<Event>, tid: Tid, token: Token, sid: Sid, env: Env, later: Env)
    requires var s := Run(INIT, before);
             tid in s.threads && s.threads[tid] == LookUp(token) && Stores(s, sid, token) && Distrusted(s.rows[sid], token, env)
    requires Meanwhile(between, tid)
    ensures var s := Run(INIT, before);
            var looked := Step(s, Advance(tid, env));
            var waited := Run(looked, between);
            var after := Step(waited, Advance(tid, later));
            && looked.rows == s.rows
            && Burns(waited.rows, after.rows, s.rows[sid].fam) && (forall x :: !HasActive(after, s.rows[sid].fam, x))
            && tid in after.threads && after.threads[tid] == Finished
  {
    var s := Run(INIT, before);
    FindsTheOnlyRow(before, token, sid);
    RevokesItsFamily(Step(s, Advance(tid, env)), between, tid, s.rows[sid].fam, later);
  }

  /** A token nobody stores, or an expired one of an ACTIVE session of its owner, is refused without a trace. */
  lemma UnknownOrExpiredLeavesNoTrace(before: seq<Event>, tid: Tid, token: Token, env: Env)
    requires var s := Run(INIT, before);
             && tid in s.threads && s.threads[tid] == LookUp(token)
             && forall sid :: Stores(s, sid, token) ==> env.expired && !Distrusted(s.rows[sid], token, env)
    ensures var s := Run(INIT, before); Step(s, Advance(tid, env)) == s.(threads := s.threads[tid := Finished])
  {
    var s := Run(INIT, before);
    FindsTheOnlyRow(before, token, token.sid);
    if token.sid in s.rows && s.rows[token.sid].hash == OfToken(token) { assert Stores(s, token.sid, token); }
  }

  ghost function Fourth(s: State, tid: Tid, env: Env): State {
    var go := Advance(tid, env);
    Step(Step(Step(Step(s, go), go), go), go)
  }

  /** MAIN RESULT. A refresh that is trusted and meets no other request issues a successor: the presented session
      is ROTATED and points to it, it is ACTIVE in the same family for the same user, its new token is the one
      that finds it, and no other row changes. Presenting the old token again burns the family. */
  lemma TrustedRefreshRotates(before: seq<Event>, tid: Tid, token: Token, sid: Sid, env: Env)
    requires var s := Run(INIT, before);
             && tid in s.threads && s.threads[tid] == LookUp(token) && Stores(s, sid, token)
             && !Distrusted(s.rows[sid], token, env) && !env.expired
    ensures var s := Run(INIT, before);
            var after, r, succ := Fourth(s, tid, env), s.rows[sid], s.nextSid;
            && succ !in s.rows
            && after.rows == s.rows[sid := r.(status := ROTATED, replacedBy := Some(succ))]
                                   [succ := Row(r.user, OfToken(Token(succ, r.user)), r.fam, ACTIVE, None)]
            && tid in after.threads && after.threads[tid] == Exchanged(sid, succ)
            && FindByToken(after.rows, Token(succ, r.user)) == Some(succ)
            && Distrusted(after.rows[sid], token, env)
  {
    var s := Run(INIT, before);
    ReachableInv(INIT, before);
    FindsTheOnlyRow(before, token, sid);
    assert RowOk(s, sid, s.rows[sid]);
    TrustedCreates(s, tid, token, sid, env);
    CreatedIsActivated(Step(Step(s, Advance(tid, env)), Advance(tid, env)), tid, sid, s.rows[sid].fam, s.nextSid, env);
  }

  lemma TrustedCreates(s: State, tid: Tid, token: Token, sid: Sid, env: Env)
    requires Inv(s) && tid in s.threads && s.threads[tid] == LookUp(token) && FindByToken(s.rows, token) == Some(sid)
    requires !Distrusted(s.rows[sid], token, env) && !env.expired
    ensures s.nextSid !in s.rows
    ensures var created := Step(Step(s, Advance(tid, env)), Advance(tid, env));
            var r := s.rows[sid];
            && created.rows == s.rows[s.nextSid := Row(r.user, OfRandomBytes, r.fam, PENDING, None)]
            && tid in created.threads && created.threads[tid] == RotateParent(sid, r.fam, s.nextSid)
            && created.chains == s.chains
  {
    NextIsFresh(s);
    assert Step(s, Advance(tid, env)) == s.(threads := s.threads[tid := CreateSuccessor(sid, s.rows[sid].fam, s.rows[sid].user)]);
  }

  lemma CreatedIsActivated(s: State, tid: Tid, parent: Sid, fam: Fam, succ: Sid, env: Env)
    requires tid in s.threads && s.threads[tid] == RotateParent(parent, fam, succ) && parent != succ
    requires parent in s.rows && s.rows[parent].status == ACTIVE && fam < |s.chains| && succ in s.rows
    ensures var after := Step(Step(s, Advance(tid, env)), Advance(tid, env));
            && after.rows == s.rows[parent := s.rows[parent].(status := ROTATED, replacedBy := Some(succ))]
                                   [succ := s.rows[succ].(status := ACTIVE, hash := OfToken(Token(succ, s.rows[succ].user)))]
            && tid in after.threads && after.threads[tid] == Exchanged(parent, succ)
  {
    var rotated := Step(s, Advance(tid, env));
    assert rotated.rows == s.rows[parent := s.rows[parent].(status := ROTATED, replacedBy := Some(succ))];
    assert rotated.threads[tid] == ActivateSuccessor(parent, succ);
  }

  /** MAIN RESULT. A refresh that loses the compare-and-set, whatever others do between its statements, drops its
      successor and burns the family. */
  lemma LostRaceBurnsItsFamily(s: State, tid: Tid, parent: Sid, fam: Fam, succ: Sid,
                               first: seq<Event>, second: seq<Event>, env: Env)
    requires tid in s.threads && s.threads[tid] == RotateParent(parent, fam, succ)
    requires parent in s.rows ==> s.rows[parent].status != ACTIVE
    requires Meanwhile(first, tid) && Meanwhile(second, tid)
    ensures var lost := Step(s, Advance(tid, env));
            var mid := Run(lost, first);
            var dropped := Step(mid, Advance(tid, env));
            var waited := Run(dropped, second);
            var after := Step(waited, Advance(tid, env));
            && lost.rows == s.rows && dropped.rows == mid.rows - {succ}
            && Burns(waited.rows, after.rows, fam) && (forall sid :: !HasActive(after, fam, sid))
            && tid in after.threads && after.threads[tid] == Finished
  {
    var lost := Step(s, Advance(tid, env));
    Waits(lost, first, tid);
    RevokesItsFamily(Step(Run(lost, first), Advance(tid, env)), second, tid, fam, env);
  }

  // ── logout and revocation ───────────────────────────────────────────

  /** MAIN RESULT. Logout with a known token burns the family of its session, and nothing else; with an unknown one it
      does nothing. */
  lemma LogoutBurnsItsFamily(before: seq<Event>, between: seq<Event>, tid: Tid, token: Token, sid: Sid, env: Env, later: Env)
    requires var s := Run(INIT, before); tid in s.threads && s.threads[tid] == LogoutLookUp(token)
    requires Meanwhile(between, tid)
    ensures var s := Run(INIT, before);
            var looked := Step(s, Advance(tid, env));
            var waited := Run(looked, between);
            var after := Step(waited, Advance(tid, later));
            && looked.rows == s.rows
            && (Stores(s, sid, token) ==>
                  Burns(waited.rows, after.rows, s.rows[sid].fam) && forall x :: !HasActive(after, s.rows[sid].fam, x))
            && ((forall x :: !Stores(s, x, token)) ==> after == waited)
            && tid in after.threads && after.threads[tid] == Finished
  {
    var s := Run(INIT, before);
    var looked := Step(s, Advance(tid, env));
    FindsTheOnlyRow(before, token, sid);
    FindsTheOnlyRow(before, token, token.sid);
    Waits(looked, between, tid);
    if FindByToken(s.rows, token).Some? {
      assert Stores(s, token.sid, token);
      RevokesItsFamily(looked, between, tid, s.rows[token.sid].fam, later);
    }
  }

  /** Every other session of the user becomes REVOKED, and nothing else changes. */
  ghost predicate RevokesOthers(rows: map<Sid, Row>, after: map<Sid, Row>, user: User, keep: Option<Sid>) {
    && after.Keys == rows.Keys
    && forall sid :: sid in rows ==>
         after[sid] == if rows[sid].user == user && Some(sid) != keep then rows[sid].(status := REVOKED) else rows[sid]
  }

  /** MAIN RESULT. Revoking one session: nothing happens to a session that is missing or somebody else's; the current one is
      kept and every other session of the user is revoked; any other is revoked alone. */
  lemma RevokeSessionTouchesItsOwn(s: State, between: seq<Event>, tid: Tid, user: User, sid: Sid, current: Option<Sid>,
                                   env: Env, later: Env)
    requires tid in s.threads && s.threads[tid] == RevokeLookUp(user, sid, current) && Meanwhile(between, tid)
    ensures var looked := Step(s, Advance(tid, env));
            var waited := Run(looked, between);
            var after := Step(waited, Advance(tid, later));
            var own := sid in s.rows && s.rows[sid].user == user;
            && looked.rows == s.rows
            && (!own ==> after == waited)
            && (own && current == Some(sid) ==> RevokesOthers(waited.rows, after.rows, user, current))
            && (own && current != Some(sid) ==>
                  && after.rows.Keys == waited.rows.Keys
                  && forall x :: x in waited.rows ==>
                       after.rows[x] == if x == sid then waited.rows[x].(status := REVOKED) else waited.rows[x])
            && tid in after.threads && after.threads[tid] == Finished
  {
    Waits(Step(s, Advance(tid, env)), between, tid);
  }

  /** Revoking the other sessions, a password change and a password reset touch the user's rows only; an
      administrator's reset deletes them. */
  lemma AccountWideRevocation(s: State, user: User, keep: Option<Sid>)
    ensures RevokesOthers(s.rows, Step(s, RevokeOthers(user, keep)).rows, user, keep)
    ensures var after := Step(s, DeleteAll(user)).rows;
            forall sid :: (sid in after <==> sid in s.rows && s.rows[sid].user != user) && (sid in after ==> after[sid] == s.rows[sid])
  {
  }
}
