/**
 The session table and its requests as the service changes them, one database
 statement a method. `Snapshot` ties every method to a step of Sessions, whose
 invariant each of them keeps.
 */
module AuthService {
  import opened Wrappers
  import opened Sessions

  class SessionTable {
    var rows: map<Sid, Row>
    var threads: map<Tid, Pc>
    var nextSid: Sid
    var nextFam: Fam
    ghost var chains: seq<seq<Sid>>
    ghost var places: map<Sid, Place>

    ghost function Snapshot(): State
      reads this
    {
      State(rows, threads, nextSid, chains, places)
    }

    ghost predicate Valid()
      reads this
    {
      nextFam == |chains| && Inv(Snapshot())
    }

    constructor ()
      ensures Valid() && Snapshot() == INIT
    {
      rows, threads, nextSid, nextFam := map[], map[], 0, 0;
      chains, places := [], map[];
    }

    /** issueTokenPair, first statement: the session of a fresh family, ACTIVE at once. */
    method CreateLoginSession(tid: Tid, user: User) returns (sid: Sid)
      requires Valid() && tid !in threads
      modifies this
      ensures Valid() && Snapshot() == Step(old(Snapshot()), Login(tid, user))
      ensures sid !in old(rows) && HasActive(Snapshot(), old(nextFam), sid)
    {
      ghost var after := Step(Snapshot(), Login(tid, user));
      StepKeeps(Snapshot(), Login(tid, user));
      NextIsFresh(Snapshot());
      sid := nextSid;
      nextSid := nextSid + 1;
      rows := rows[sid := Row(user, OfRandomBytes, nextFam, ACTIVE, None)];
      threads := threads[tid := SignLogin(sid)];
      chains, places := chains + [[sid]], places[sid := Place(nextFam, 0)];
      nextFam := nextFam + 1;
      assert Snapshot() == after;
    }

    /** issueTokenPair, second statement: the hash of the signed token. */
    method WriteLoginHash(tid: Tid, ghost env: Env)
      requires Valid() && tid in threads && threads[tid].SignLogin?
      modifies `rows, `threads
      ensures Valid() && Snapshot() == Step(old(Snapshot()), Advance(tid, env))
    {
      StepKeeps(Snapshot(), Advance(tid, env));
      var sid := threads[tid].sid;
      if sid in rows {
        rows := rows[sid := rows[sid].(hash := OfToken(Token(sid, rows[sid].user)))];
      }
      threads := threads[tid := Finished];
    }

    /** refreshTokens up to its first write: the look-up and every early refusal. */
    method FindSession(tid: Tid, env: Env) returns (replay: bool)
      requires Valid() && tid in threads && threads[tid].LookUp?
      modifies `threads
      ensures Valid() && Snapshot() == Step(old(Snapshot()), Advance(tid, env))
      ensures replay <==> var found := FindByToken(rows, old(threads[tid].token));
                          found.Some? && rows[found.value].user == old(threads[tid].token).sub && rows[found.value].status != ACTIVE
      ensures var token := old(threads[tid].token);
              var found := FindByToken(rows, token);
              && rows == old(rows) && tid in threads
              && (threads[tid].RevokeFamily? <==>
                    found.Some? && (rows[found.value].user != token.sub || rows[found.value].status != ACTIVE
                                    || (!env.expired && !env.accountActive)))
              && (threads[tid].RevokeFamily? ==> threads[tid].fam == rows[found.value].fam)
    {
      StepKeeps(Snapshot(), Advance(tid, env));
      replay := false;
      var token := threads[tid].token;
      var found := FindByToken(rows, token);
      if found.None? {
        threads := threads[tid := Finished];
        return;
      }
      var session := rows[found.value];
      if session.user != token.sub {
        threads := threads[tid := Pc.RevokeFamily(session.fam)];
      } else if session.status != ACTIVE {
        replay := true;
        threads := threads[tid := Pc.RevokeFamily(session.fam)];
      } else if env.expired {
        threads := threads[tid := Finished];
      } else if !env.accountActive {
        threads := threads[tid := Pc.RevokeFamily(session.fam)];
      } else {
        threads := threads[tid := Pc.CreateSuccessor(found.value, session.fam, session.user)];
      }
    }

    /** The PENDING successor with a hash no token has. */
    method CreateSuccessor(tid: Tid, ghost env: Env) returns (succ: Sid)
      requires Valid() && tid in threads && threads[tid].CreateSuccessor?
      modifies `rows, `threads, `nextSid
      ensures Valid() && Snapshot() == Step(old(Snapshot()), Advance(tid, env))
      ensures succ !in old(rows) && succ in rows && rows[succ].status == PENDING
      ensures rows[succ].hash == OfRandomBytes
    {
      ghost var after := Step(Snapshot(), Advance(tid, env));
      StepKeeps(Snapshot(), Advance(tid, env));
      NextIsFresh(Snapshot());
      var pc := threads[tid];
      succ := nextSid;
      nextSid := nextSid + 1;
      rows := rows[succ := Row(pc.user, OfRandomBytes, pc.fam, PENDING, None)];
      threads := threads[tid := Pc.RotateParent(pc.parent, pc.fam, succ)];
      assert Snapshot() == after;
    }

    /** The compare-and-set ACTIVE to ROTATED; `count` is the number of rows it changed. */
    method RotateParent(tid: Tid, ghost env: Env) returns (count: nat)
      requires Valid() && tid in threads && threads[tid].RotateParent?
      modifies `rows, `threads, `chains, `places
      ensures Valid() && Snapshot() == Step(old(Snapshot()), Advance(tid, env))
      ensures count == if HasActive(old(Snapshot()), old(threads[tid].fam), old(threads[tid].parent)) then 1 else 0
      ensures count == 1 ==> forall sid :: !HasActive(Snapshot(), old(threads[tid].fam), sid)
    {
      ghost var before, after := Snapshot(), Step(Snapshot(), Advance(tid, env));
      StepKeeps(before, Advance(tid, env));
      var pc := threads[tid];
      forall sid {
        WinnerLeavesNoActive(before, tid, pc.parent, pc.fam, pc.succ, sid);
      }
      if pc.parent in rows && rows[pc.parent].status == ACTIVE {
        count := 1;
        rows := rows[pc.parent := rows[pc.parent].(status := ROTATED, replacedBy := Some(pc.succ))];
        threads := threads[tid := Pc.ActivateSuccessor(pc.parent, pc.succ)];
        places := places[pc.succ := Place(pc.fam, |chains[pc.fam]|)];
        chains := chains[pc.fam := chains[pc.fam] + [pc.succ]];
      } else {
        count := 0;
        threads := threads[tid := Pc.DeleteSuccessor(pc.fam, pc.succ)];
      }
      assert Snapshot() == after;
    }

    /** The last statement of a won refresh: no condition on the status it overwrites. */
    method ActivateSuccessor(tid: Tid, ghost env: Env) returns (issued: Option<Token>)
      requires Valid() && tid in threads && threads[tid].ActivateSuccessor?
      modifies `rows, `threads
      ensures Valid() && Snapshot() == Step(old(Snapshot()), Advance(tid, env))
      ensures issued.Some? ==> FindByToken(rows, issued.value) == Some(old(threads[tid].succ))
      ensures issued.Some? <==> old(threads[tid].succ in rows)
    {
      StepKeeps(Snapshot(), Advance(tid, env));
      var pc := threads[tid];
      if pc.succ !in rows {
        threads := threads[tid := Finished];
        return None;
      }
      var token := Token(pc.succ, rows[pc.succ].user);
      rows := rows[pc.succ := rows[pc.succ].(status := ACTIVE, hash := OfToken(token))];
      threads := threads[tid := Pc.Exchanged(pc.parent, pc.succ)];
      issued := Some(token);
    }

    /** A lost compare-and-set: drop the half-built successor, then burn the family. */
    method DeleteSuccessor(tid: Tid, ghost env: Env)
      requires Valid() && tid in threads && threads[tid].DeleteSuccessor?
      modifies `rows, `threads
      ensures Valid() && Snapshot() == Step(old(Snapshot()), Advance(tid, env))
      ensures rows == old(rows) - {old(threads[tid].succ)}
    {
      StepKeeps(Snapshot(), Advance(tid, env));
      var pc := threads[tid];
      rows := rows - {pc.succ};
      threads := threads[tid := Pc.RevokeFamily(pc.fam)];
    }

    method RevokeFamily(tid: Tid, ghost env: Env)
      requires Valid() && tid in threads && threads[tid].RevokeFamily?
      modifies `rows, `threads
      ensures Valid() && Snapshot() == Step(old(Snapshot()), Advance(tid, env))
      ensures forall sid :: !HasActive(Snapshot(), old(threads[tid].fam), sid)
    {
      StepKeeps(Snapshot(), Advance(tid, env));
      var fam := threads[tid].fam;
      rows := map sid | sid in rows :: if rows[sid].fam == fam then rows[sid].(status := REVOKED) else rows[sid];
      threads := threads[tid := Finished];
    }

    /** revokeOtherSessions, changePassword and resetPassword: one statement over a user. */
    method RevokeOtherSessions(user: User, keep: Option<Sid>)
      requires Valid()
      modifies `rows
      ensures Valid() && Snapshot() == Step(old(Snapshot()), RevokeOthers(user, keep))
      ensures forall sid :: sid in rows && rows[sid].user == user && rows[sid].status == ACTIVE ==> keep == Some(sid)
    {
      StepKeeps(Snapshot(), RevokeOthers(user, keep));
      rows := map sid | sid in rows ::
        if rows[sid].user == user && keep != Some(sid) then rows[sid].(status := REVOKED) else rows[sid];
    }
  }
}
