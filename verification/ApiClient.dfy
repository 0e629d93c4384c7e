/**
 The dashboard's single-flight refresh (apps/dashboard/src/lib/api.ts), run against
 the rotation protocol of Sessions. One browser holds the tokens of one session family;
 the rest of the world, other devices of the same account included, may log in, refresh
 other families, log out, revoke, suspend and delete.
 */
module ApiClient {
  import opened Wrappers
  import opened Sessions

  type Caller = nat

  /** What a caller of tryRefresh holds: the shared promise, or its outcome. */
  datatype Wait = Pending(promise: Tid) | Settled(accessToken: Option<Sid>)

  datatype Client = Client(cookie: Token, refreshPromise: Option<Tid>, callers: map<Caller, Wait>)

  /** tryRefresh: join the promise in flight, or start one (`tid` is the new request). */
  function Join(c: Client, caller: Caller, tid: Tid): Client {
    match c.refreshPromise
    case Some(p) => c.(callers := c.callers[caller := Pending(p)])
    case None => c.(refreshPromise := Some(tid), callers := c.callers[caller := Pending(tid)])
  }

  /** The promise settles: everyone waiting on it gets the outcome, the field is cleared. */
  function Settle(c: Client, answer: Option<Token>): Client {
    Client(
      if answer.Some? then answer.value else c.cookie,
      None,
      map caller | caller in c.callers ::
        if c.callers[caller].Pending? && Some(c.callers[caller].promise) == c.refreshPromise
        then Settled(if answer.Some? then Some(answer.value.sid) else None)
        else c.callers[caller])
  }

  /** The client as the class it is: the promise field is set and cleared in place. */
  class Browser {
    var cookie: Token
    var refreshPromise: Option<Tid>
    var callers: map<Caller, Wait>

    ghost function Snapshot(): Client
      reads this
    {
      Client(cookie, refreshPromise, callers)
    }

    constructor (cookie: Token)
      ensures Snapshot() == Client(cookie, None, map[])
    {
      this.cookie, refreshPromise, callers := cookie, None, map[];
    }

    method TryRefresh(caller: Caller, tid: Tid) returns (started: bool)
      modifies `refreshPromise, `callers
      ensures Snapshot() == Join(old(Snapshot()), caller, tid)
      ensures started <==> old(refreshPromise).None?
      ensures refreshPromise.Some? && callers[caller] == Pending(refreshPromise.value)
    {
      started := refreshPromise.None?;
      if started {
        refreshPromise := Some(tid);
      }
      callers := callers[caller := Pending(refreshPromise.value)];
    }

    method Finally(answer: Option<Token>)
      modifies this
      ensures Snapshot() == Settle(old(Snapshot()), answer)
      ensures forall c :: c in callers && old(refreshPromise).Some? && old(callers)[c] == Pending(old(refreshPromise).value)
                ==> callers[c] == Settled(if answer.Some? then Some(answer.value.sid) else None)
    {
      var outcome := Settled(if answer.Some? then Some(answer.value.sid) else None);
      callers := map caller | caller in callers ::
        if callers[caller].Pending? && Some(callers[caller].promise) == refreshPromise then outcome else callers[caller];
      if answer.Some? {
        cookie := answer.value;
      }
      refreshPromise := None;
    }
  }

  // ── one browser against the server ──────────────────────────────────

  datatype World = World(server: State, client: Client)

  datatype Action =
    | Unauthorized(caller: Caller, tid: Tid)  // some request of this browser got a 401
    | Serve(env: Env)                         // the server runs one statement of the refresh in flight
    | Deliver                                 // its response reaches the browser
    | Elsewhere(event: Event)                 // anything the rest of the world does

  ghost predicate NotIn(s: State, sid: Sid, fam: Fam) {
    sid in s.rows ==> s.rows[sid].fam != fam
  }

  /** The rest of the world does not refresh with a token of this family, nor with one nobody has
      issued yet, and leaves our request alone. Revoking the family is allowed. */
  ghost predicate Permitted(s: State, e: Event, ours: Option<Tid>, fam: Fam) {
    match e
    case BeginRefresh(_, token) => token.sid < s.nextSid && NotIn(s, token.sid, fam)
    case Advance(t, _) => ours != Some(t)
    case Abort(t) => ours != Some(t)
    case _ => true
  }

  function Answer(pc: Pc, user: User): Option<Token> {
    if pc.Exchanged? then Some(Token(pc.succ, user)) else None
  }

  ghost function Act(w: World, a: Action, user: User, fam: Fam): World {
    match a
    case Unauthorized(caller, tid) =>
      if tid in w.server.threads then w
      else World(
        if w.client.refreshPromise.None? then Step(w.server, BeginRefresh(tid, w.client.cookie)) else w.server,
        Join(w.client, caller, tid))
    case Serve(env) =>
      if w.client.refreshPromise.Some? then w.(server := Step(w.server, Advance(w.client.refreshPromise.value, env))) else w
    case Deliver =>
      if w.client.refreshPromise.Some? && w.client.refreshPromise.value in w.server.threads
         && (var pc := w.server.threads[w.client.refreshPromise.value]; pc.Exchanged? || pc.Finished?)
      then w.(client := Settle(w.client, Answer(w.server.threads[w.client.refreshPromise.value], user)))
      else w
    case Elsewhere(e) =>
      if Permitted(w.server, e, w.client.refreshPromise, fam) then w.(server := Step(w.server, e)) else w
  }

  ghost function RunActions(w: World, actions: seq<Action>, user: User, fam: Fam): World
    decreases |actions|
  {
    if actions == [] then w else RunActions(Act(w, actions[0], user, fam), actions[1..], user, fam)
  }

  // ── the branches in question, and what leads to them ────────────────

  ghost predicate Flies(w: World, t: Tid) {
    w.client.refreshPromise == Some(t) && t in w.server.threads
  }

  /** The next statement of our refresh is the replay branch: it finds its row and the row is not ACTIVE. */
  ghost predicate Replays(s: State, pc: Pc) {
    pc.LookUp? &&
    var found := FindByToken(s.rows, pc.token);
    found.Some? && s.rows[found.value].user == pc.token.sub && s.rows[found.value].status != ACTIVE
  }

  /** The next statement of our refresh is the compare-and-set, and it will lose. */
  ghost predicate LosesRace(s: State, pc: Pc) {
    pc.RotateParent? && !(pc.parent in s.rows && s.rows[pc.parent].status == ACTIVE)
  }

  ghost predicate Reaches(w: World) {
    exists t :: Flies(w, t) && (Replays(w.server, w.server.threads[t]) || LosesRace(w.server, w.server.threads[t]))
  }

  /** The session the browser will present next: its cookie's, or the one the answer on its way carries. */
  ghost function SessionOf(w: World, user: User): Token {
    match w.client.refreshPromise
    case None => w.client.cookie
    case Some(t) =>
      if t in w.server.threads && w.server.threads[t].Exchanged? then Token(w.server.threads[t].succ, user) else w.client.cookie
  }

  /** The session is revoked or deleted in this step. */
  ghost predicate IsRevoked(s: State, s': State, sid: Sid) {
    sid in s.rows && (sid !in s'.rows || (s.rows[sid].status == ACTIVE && s'.rows[sid].status == REVOKED))
  }

  ghost function LostAfter(w: World, a: Action, user: User, fam: Fam, lost: bool): bool {
    var w' := Act(w, a, user, fam);
    SessionOf(w', user) == SessionOf(w, user) && (lost || IsRevoked(w.server, w'.server, SessionOf(w, user).sid))
  }

  /** Whether the session the browser presents at the end was revoked or deleted since it was activated. */
  ghost function Lost(w: World, actions: seq<Action>, user: User, fam: Fam, lost: bool): bool
    decreases |actions|
  {
    if actions == [] then lost
    else Lost(Act(w, actions[0], user, fam), actions[1..], user, fam, LostAfter(w, actions[0], user, fam, lost))
  }

  // ── the invariant ───────────────────────────────────────────────────

  /** What any request but ours may be about to do: anything except exchanging a token of this family. */
  ghost predicate OtherPc(s: State, pc: Pc, fam: Fam) {
    match pc
    case LookUp(token) => token.sid < s.nextSid && NotIn(s, token.sid, fam)
    case CreateSuccessor(_, f, _) => f != fam
    case RotateParent(_, f, _) => f != fam
    case ActivateSuccessor(_, succ) => succ in s.places && s.places[succ].fam != fam
    case DeleteSuccessor(_, succ) => succ < s.nextSid && NotIn(s, succ, fam)
    case SignLogin(sid) => sid in s.places && s.places[sid].fam != fam
    case _ => true
  }

  ghost predicate Others(s: State, fam: Fam, ours: Option<Tid>) {
    fam < |s.chains| && forall t :: t in s.threads && ours != Some(t) ==> OtherPc(s, s.threads[t], fam)
  }

  ghost predicate OurRow(s: State, sid: Sid, user: User, fam: Fam) {
    sid in s.rows ==> s.rows[sid].user == user && s.rows[sid].fam == fam
  }

  /** A token the browser holds: its session is ACTIVE, or REVOKED or gone once it is lost. */
  ghost predicate TokenOk(s: State, token: Token, user: User, fam: Fam, lost: bool) {
    && token.sub == user && token.sid in s.places && OurRow(s, token.sid, user, fam)
    && (token.sid in s.rows ==> s.rows[token.sid].hash == OfToken(token))
    && (if lost then token.sid in s.rows ==> s.rows[token.sid].status == REVOKED
        else token.sid in s.rows && s.rows[token.sid].status == ACTIVE)
  }

  /** Between the compare-and-set and the activation: the cookie's session is rotated away. */
  ghost predicate InBetween(s: State, cookie: Token, succ: Sid, user: User, fam: Fam, lost: bool) {
    && cookie.sub == user && cookie.sid in s.places && OurRow(s, cookie.sid, user, fam) && OurRow(s, succ, user, fam)
    && (cookie.sid in s.rows ==> s.rows[cookie.sid].hash == OfToken(cookie) && s.rows[cookie.sid].status != ACTIVE)
    && (cookie.sid in s.rows <==> !lost) && (succ in s.rows <==> !lost)
  }

  /** Where our refresh can be. */
  ghost predicate InFlight(s: State, cookie: Token, pc: Pc, user: User, fam: Fam, lost: bool) {
    match pc
    case LookUp(token) => token == cookie && TokenOk(s, cookie, user, fam, lost)
    case CreateSuccessor(parent, f, u) => parent == cookie.sid && f == fam && u == user && TokenOk(s, cookie, user, fam, lost)
    case RotateParent(parent, f, succ) =>
      && parent == cookie.sid && f == fam && TokenOk(s, cookie, user, fam, lost)
      && OurRow(s, succ, user, fam) && (!lost ==> succ in s.rows)
    case ActivateSuccessor(parent, succ) => parent == cookie.sid && InBetween(s, cookie, succ, user, fam, lost)
    case Exchanged(parent, succ) => TokenOk(s, Token(succ, user), user, fam, lost)
    case DeleteSuccessor(f, succ) => f == fam && lost && TokenOk(s, cookie, user, fam, lost)
    case RevokeFamily(f) => f == fam && TokenOk(s, cookie, user, fam, lost)
    case Finished => TokenOk(s, cookie, user, fam, lost)
    case _ => false
  }

  ghost predicate ClientOk(c: Client) {
    forall k :: k in c.callers && c.callers[k].Pending? ==> c.refreshPromise == Some(c.callers[k].promise)
  }

  /** The cookie while nothing is in flight, our refresh while it is. */
  ghost predicate Held(s: State, c: Client, user: User, fam: Fam, lost: bool) {
    match c.refreshPromise
    case None => TokenOk(s, c.cookie, user, fam, lost)
    case Some(t) => t in s.threads && InFlight(s, c.cookie, s.threads[t], user, fam, lost)
  }

  ghost predicate WorldInv(w: World, user: User, fam: Fam, lost: bool) {
    && Inv(w.server) && Others(w.server, fam, w.client.refreshPromise) && ClientOk(w.client)
    && Held(w.server, w.client, user, fam, lost)
  }

  // ── the other requests ──────────────────────────────────────────────

  /** What a step leaves behind for those who watch sessions that exist. */
  ghost predicate Onwards(s: State, s': State) {
    && s.nextSid <= s'.nextSid && |s.chains| <= |s'.chains|
    && (forall sid :: sid in s.places ==> sid in s'.places && s'.places[sid] == s.places[sid])
    && (forall sid :: sid in s'.rows && sid < s.nextSid ==> sid in s.rows && s'.rows[sid].fam == s.rows[sid].fam)
  }

  lemma StepGoesOn(s: State, e: Event)
    requires Inv(s)
    ensures Onwards(s, Step(s, e))
  {
    forall sid | sid in s.places ensures sid in Step(s, e).places && Step(s, e).places[sid] == s.places[sid] {
      PlaceStays(s, e, sid);
    }
    forall sid | sid in Step(s, e).rows && sid < s.nextSid ensures sid in s.rows && Step(s, e).rows[sid].fam == s.rows[sid].fam {
      FamiliesStay(s, e, sid);
    }
    ChainsDoNotShrink(s, e);
  }

  lemma ChainsDoNotShrink(s: State, e: Event)
    ensures s.nextSid <= Step(s, e).nextSid && |s.chains| <= |Step(s, e).chains|
  {
  }

  lemma OtherPcStays(s: State, s': State, pc: Pc, fam: Fam)
    requires OtherPc(s, pc, fam) && Onwards(s, s')
    ensures OtherPc(s', pc, fam)
  {
  }

  /** A step starts or moves one thread and leaves the others alone. */
  lemma OneThreadMoves(s: State, e: Event, t: Tid)
    requires t in Step(s, e).threads
    requires !(t in s.threads && Step(s, e).threads[t] == s.threads[t])
    ensures (e.Login? || e.BeginRefresh? || e.BeginLogout? || e.BeginRevokeSession? || e.Advance? || e.Abort?) && e.tid == t
    ensures e.Advance? || e.Abort? <==> t in s.threads
  {
  }

  lemma OtherMoves(s: State, t: Tid, env: Env, fam: Fam)
    requires Inv(s) && t in s.threads && OtherPc(s, s.threads[t], fam) && Onwards(s, AdvanceStep(s, t, env))
    ensures var s' := AdvanceStep(s, t, env); OtherPc(s', s'.threads[t], fam)
  {
    assert ThreadOk(s, s.threads[t]);
  }

  lemma OtherStarts(s: State, e: Event, fam: Fam, ours: Option<Tid>)
    requires Inv(s) && Others(s, fam, ours) && Permitted(s, e, ours, fam) && Onwards(s, Step(s, e))
    requires (e.Login? || e.BeginRefresh? || e.BeginLogout? || e.BeginRevokeSession?) && e.tid !in s.threads
    ensures OtherPc(Step(s, e), Step(s, e).threads[e.tid], fam)
  {
  }

  lemma OthersStay(s: State, e: Event, fam: Fam, ours: Option<Tid>)
    requires Inv(s) && Others(s, fam, ours) && Permitted(s, e, ours, fam)
    ensures Others(Step(s, e), fam, ours)
  {
    var s' := Step(s, e);
    StepGoesOn(s, e);
    forall t | t in s'.threads && ours != Some(t) ensures OtherPc(s', s'.threads[t], fam) {
      if t in s.threads && s'.threads[t] == s.threads[t] {
        OtherPcStays(s, s', s.threads[t], fam);
      } else {
        OneThreadMoves(s, e, t);
        if e.Advance? {
          OtherMoves(s, t, e.env, fam);
        } else if !e.Abort? {
          OtherStarts(s, e, fam, ours);
        }
      }
    }
  }

  /** To a session of the family the rest of the world can do two things only: revoke it, or delete it with
      everything its user has. */
  ghost predicate OnlyRevoked(s: State, s': State, e: Event, sid: Sid) {
    sid in s.rows ==>
      if sid in s'.rows then s'.rows[sid] == s.rows[sid] || s'.rows[sid] == s.rows[sid].(status := REVOKED)
      else e == DeleteAll(s.rows[sid].user)
  }

  lemma OthersOnlyRevoke(s: State, e: Event, fam: Fam, ours: Option<Tid>, sid: Sid)
    requires Inv(s) && Others(s, fam, ours) && Permitted(s, e, ours, fam) && (sid in s.rows ==> s.rows[sid].fam == fam)
    ensures OnlyRevoked(s, Step(s, e), e, sid)
  {
    if sid in s.rows {
      assert RowOk(s, sid, s.rows[sid]);
      if e.Advance? && e.tid in s.threads {
        assert OtherPc(s, s.threads[e.tid], fam);
        OtherTouches(s, e.tid, e.env, fam, sid);
      }
    }
  }

  lemma OtherTouches(s: State, t: Tid, env: Env, fam: Fam, sid: Sid)
    requires Inv(s) && t in s.threads && OtherPc(s, s.threads[t], fam) && sid in s.rows && s.rows[sid].fam == fam
    ensures var s' := AdvanceStep(s, t, env);
            sid in s'.rows && (s'.rows[sid] == s.rows[sid] || s'.rows[sid] == s.rows[sid].(status := REVOKED))
  {
    assert ThreadOk(s, s.threads[t]) && RowOk(s, sid, s.rows[sid]);
  }

  lemma OursUnmoved(s: State, e: Event, t: Tid, fam: Fam)
    requires Permitted(s, e, Some(t), fam) && t in s.threads
    ensures t in Step(s, e).threads && Step(s, e).threads[t] == s.threads[t]
  {
    if !(t in Step(s, e).threads && Step(s, e).threads[t] == s.threads[t]) { OneThreadMoves(s, e, t); }
  }

  /** A token the browser holds, after a step of the rest of the world. */
  lemma TokenStays(s: State, s': State, e: Event, token: Token, user: User, fam: Fam, lost: bool)
    requires Inv(s) && Onwards(s, s') && TokenOk(s, token, user, fam, lost) && OnlyRevoked(s, s', e, token.sid)
    ensures TokenOk(s', token, user, fam, lost || IsRevoked(s, s', token.sid))
  {
    assert token.sid < s.nextSid;
  }

  lemma InBetweenStays(s: State, s': State, e: Event, cookie: Token, succ: Sid, user: User, fam: Fam, lost: bool)
    requires Inv(s) && Onwards(s, s') && InBetween(s, cookie, succ, user, fam, lost) && succ < s.nextSid
    requires OnlyRevoked(s, s', e, cookie.sid) && OnlyRevoked(s, s', e, succ)
    requires e.DeleteAll? ==> s' == Step(s, e)
    ensures InBetween(s', cookie, succ, user, fam, lost || IsRevoked(s, s', cookie.sid))
  {
    assert cookie.sid < s.nextSid;
  }

  lemma ActivationStays(s: State, e: Event, cookie: Token, t: Tid, user: User, fam: Fam, lost: bool)
    requires Inv(s) && Others(s, fam, Some(t)) && Permitted(s, e, Some(t), fam) && t in s.threads
    requires s.threads[t].ActivateSuccessor? && InFlight(s, cookie, s.threads[t], user, fam, lost)
    ensures InFlight(Step(s, e), cookie, s.threads[t], user, fam, lost || IsRevoked(s, Step(s, e), cookie.sid))
  {
    var succ := s.threads[t].succ;
    StepGoesOn(s, e);
    assert ThreadOk(s, s.threads[t]);
    OthersOnlyRevoke(s, e, fam, Some(t), cookie.sid);
    OthersOnlyRevoke(s, e, fam, Some(t), succ);
    InBetweenStays(s, Step(s, e), e, cookie, succ, user, fam, lost);
  }

  lemma RotationStays(s: State, e: Event, cookie: Token, t: Tid, user: User, fam: Fam, lost: bool)
    requires Inv(s) && Others(s, fam, Some(t)) && Permitted(s, e, Some(t), fam) && t in s.threads
    requires s.threads[t].RotateParent? && InFlight(s, cookie, s.threads[t], user, fam, lost)
    ensures InFlight(Step(s, e), cookie, s.threads[t], user, fam, lost || IsRevoked(s, Step(s, e), cookie.sid))
  {
    var succ := s.threads[t].succ;
    StepGoesOn(s, e);
    assert ThreadOk(s, s.threads[t]);
    OthersOnlyRevoke(s, e, fam, Some(t), cookie.sid);
    OthersOnlyRevoke(s, e, fam, Some(t), succ);
    TokenStays(s, Step(s, e), e, cookie, user, fam, lost);
    SuccessorStays(s, Step(s, e), e, cookie.sid, succ, user, fam);
  }

  lemma FlightStays(s: State, e: Event, cookie: Token, t: Tid, user: User, fam: Fam, lost: bool)
    requires Inv(s) && Others(s, fam, Some(t)) && Permitted(s, e, Some(t), fam) && t in s.threads
    requires InFlight(s, cookie, s.threads[t], user, fam, lost)
    ensures var pc := s.threads[t];
            var sid := if pc.Exchanged? then pc.succ else cookie.sid;
            InFlight(Step(s, e), cookie, pc, user, fam, lost || IsRevoked(s, Step(s, e), sid))
  {
    var pc, s' := s.threads[t], Step(s, e);
    StepGoesOn(s, e);
    assert ThreadOk(s, pc);
    match pc
    case ActivateSuccessor(_, _) =>
      ActivationStays(s, e, cookie, t, user, fam, lost);
    case Exchanged(_, succ) =>
      OthersOnlyRevoke(s, e, fam, Some(t), succ);
      TokenStays(s, s', e, Token(succ, user), user, fam, lost);
    case RotateParent(_, _, _) =>
      RotationStays(s, e, cookie, t, user, fam, lost);
    case _ =>
      OthersOnlyRevoke(s, e, fam, Some(t), cookie.sid);
      TokenStays(s, s', e, cookie, user, fam, lost);
  }

  /** The successor goes only together with the session it is to replace. */
  lemma SuccessorStays(s: State, s': State, e: Event, sid: Sid, succ: Sid, user: User, fam: Fam)
    requires Onwards(s, s') && OurRow(s, sid, user, fam) && OurRow(s, succ, user, fam) && succ < s.nextSid
    requires OnlyRevoked(s, s', e, sid) && OnlyRevoked(s, s', e, succ) && (e.DeleteAll? ==> s' == Step(s, e))
    ensures OurRow(s', succ, user, fam)
    ensures succ in s.rows && succ !in s'.rows ==> sid !in s'.rows
    ensures succ in s.rows && succ !in s'.rows && sid in s.rows ==> IsRevoked(s, s', sid)
  {
  }

  // ── our own request ─────────────────────────────────────────────────

  ghost function After(s: State, s': State, pc: Pc, pc': Pc, cookie: Token, lost: bool): bool {
    if pc'.Exchanged? && !pc.Exchanged? then false
    else lost || IsRevoked(s, s', if pc.Exchanged? then pc.succ else cookie.sid)
  }

  lemma OwnMove(s: State, tid: Tid, cookie: Token, user: User, fam: Fam, lost: bool, env: Env)
    requires Inv(s) && tid in s.threads && fam < |s.chains| && InFlight(s, cookie, s.threads[tid], user, fam, lost)
    ensures var s' := AdvanceStep(s, tid, env);
            InFlight(s', cookie, s'.threads[tid], user, fam, After(s, s', s.threads[tid], s'.threads[tid], cookie, lost))
  {
    NextIsFresh(s);
    assert ThreadOk(s, s.threads[tid]);
    match s.threads[tid]
    case RotateParent(_, _, _) => OwnRotation(s, tid, cookie, user, fam, lost, env);
    case ActivateSuccessor(_, _) => OwnActivation(s, tid, cookie, user, fam, lost, env);
    case DeleteSuccessor(_, succ) => assert cookie.sid != succ;
    case CreateSuccessor(_, _, _) => assert cookie.sid < s.nextSid;
    case _ =>
  }

  lemma OwnRotation(s: State, tid: Tid, cookie: Token, user: User, fam: Fam, lost: bool, env: Env)
    requires Inv(s) && tid in s.threads && s.threads[tid].RotateParent? && fam < |s.chains|
    requires InFlight(s, cookie, s.threads[tid], user, fam, lost)
    ensures var s' := AdvanceStep(s, tid, env);
            InFlight(s', cookie, s'.threads[tid], user, fam, After(s, s', s.threads[tid], s'.threads[tid], cookie, lost))
  {
    assert ThreadOk(s, s.threads[tid]);
    assert s.threads[tid].succ != cookie.sid;
  }

  lemma OwnActivation(s: State, tid: Tid, cookie: Token, user: User, fam: Fam, lost: bool, env: Env)
    requires Inv(s) && tid in s.threads && s.threads[tid].ActivateSuccessor?
    requires InFlight(s, cookie, s.threads[tid], user, fam, lost)
    ensures var s' := AdvanceStep(s, tid, env);
            InFlight(s', cookie, s'.threads[tid], user, fam, After(s, s', s.threads[tid], s'.threads[tid], cookie, lost))
  {
    assert ThreadOk(s, s.threads[tid]);
  }

  lemma WeMoveUsOnly(s: State, tid: Tid, env: Env, t: Tid)
    requires tid in s.threads && t != tid && t in Step(s, Advance(tid, env)).threads
    ensures t in s.threads && Step(s, Advance(tid, env)).threads[t] == s.threads[t]
  {
    if !(t in s.threads && Step(s, Advance(tid, env)).threads[t] == s.threads[t]) {
      OneThreadMoves(s, Advance(tid, env), t);
    }
  }

  lemma OthersUnmovedByUs(s: State, tid: Tid, env: Env, fam: Fam)
    requires Inv(s) && Others(s, fam, Some(tid)) && tid in s.threads
    ensures Others(Step(s, Advance(tid, env)), fam, Some(tid))
  {
    StepGoesOn(s, Advance(tid, env));
    OthersGoOn(s, Step(s, Advance(tid, env)), tid, fam) by {
      forall t | t != tid && t in Step(s, Advance(tid, env)).threads
        ensures t in s.threads && Step(s, Advance(tid, env)).threads[t] == s.threads[t]
      {
        WeMoveUsOnly(s, tid, env, t);
      }
    }
  }

  lemma OthersGoOn(s: State, s': State, tid: Tid, fam: Fam)
    requires Others(s, fam, Some(tid)) && Onwards(s, s')
    requires forall t :: t != tid && t in s'.threads ==> t in s.threads && s'.threads[t] == s.threads[t]
    ensures Others(s', fam, Some(tid))
  {
    forall t | t in s'.threads && t != tid ensures OtherPc(s', s'.threads[t], fam) {
      OtherPcStays(s, s', s.threads[t], fam);
    }
  }

  // ── every action keeps it ───────────────────────────────────────────

  lemma Assembled(w: World, s': State, user: User, fam: Fam, lost: bool)
    requires ClientOk(w.client) && Inv(s') && Others(s', fam, w.client.refreshPromise) && Held(s', w.client, user, fam, lost)
    ensures WorldInv(w.(server := s'), user, fam, lost)
  {
  }

  lemma StartKeeps(w: World, caller: Caller, tid: Tid, user: User, fam: Fam, lost: bool)
    requires WorldInv(w, user, fam, lost) && tid !in w.server.threads && w.client.refreshPromise.None?
    ensures WorldInv(Act(w, Unauthorized(caller, tid), user, fam), user, fam, lost)
    ensures SessionOf(Act(w, Unauthorized(caller, tid), user, fam), user) == SessionOf(w, user)
  {
    var s, e := w.server, BeginRefresh(tid, w.client.cookie);
    StepKeeps(s, e);
    StepGoesOn(s, e);
    forall t | t in Step(s, e).threads && t != tid ensures OtherPc(Step(s, e), Step(s, e).threads[t], fam) {
      OtherPcStays(s, Step(s, e), s.threads[t], fam);
    }
  }

  /** The loss as the whole world sees it is the loss as our request sees it. */
  lemma LostInFlight(w: World, w': World, t: Tid, user: User, lost: bool)
    requires Flies(w, t) && Flies(w', t) && w'.client == w.client
    requires var pc, pc' := w.server.threads[t], w'.server.threads[t];
             (pc.Exchanged? ==> pc' == pc) && (pc'.Exchanged? && !pc.Exchanged? ==> pc'.succ != w.client.cookie.sid)
    ensures (SessionOf(w', user) == SessionOf(w, user) && (lost || IsRevoked(w.server, w'.server, SessionOf(w, user).sid)))
              == After(w.server, w'.server, w.server.threads[t], w'.server.threads[t], w.client.cookie, lost)
  {
  }

  lemma ExchangedStays(s: State, t: Tid, env: Env)
    requires t in s.threads && s.threads[t].Exchanged?
    ensures AdvanceStep(s, t, env) == s
  {
  }

  lemma AdvanceStaysThere(s: State, t: Tid, env: Env)
    requires t in s.threads
    ensures t in AdvanceStep(s, t, env).threads
  {
  }

  lemma ServeHolds(w: World, env: Env, t: Tid, user: User, fam: Fam, lost: bool)
    requires WorldInv(w, user, fam, lost) && w.client.refreshPromise == Some(t)
    ensures Held(Step(w.server, Advance(t, env)), w.client, user, fam, LostAfter(w, Serve(env), user, fam, lost))
  {
    var s, s' := w.server, Step(w.server, Advance(t, env));
    AdvanceStaysThere(s, t, env);
    OwnMove(s, t, w.client.cookie, user, fam, lost, env);
    ServeLoses(w, env, t, user, fam, lost);
  }

  lemma ServeLoses(w: World, env: Env, t: Tid, user: User, fam: Fam, lost: bool)
    requires Inv(w.server) && Flies(w, t) && t in AdvanceStep(w.server, t, env).threads
    requires Held(w.server, w.client, user, fam, lost)
    ensures var s, s' := w.server, AdvanceStep(w.server, t, env);
            LostAfter(w, Serve(env), user, fam, lost) == After(s, s', s.threads[t], s'.threads[t], w.client.cookie, lost)
  {
    var s, s' := w.server, AdvanceStep(w.server, t, env);
    if s.threads[t].Exchanged? {
      ExchangedStays(s, t, env);
    } else if s'.threads[t].Exchanged? {
      OnlyActivationExchanges(s, t, env);
    }
    LostInFlight(w, w.(server := s'), t, user, lost);
  }

  lemma ServeKeeps(w: World, env: Env, t: Tid, user: User, fam: Fam, lost: bool)
    requires WorldInv(w, user, fam, lost) && w.client.refreshPromise == Some(t)
    ensures WorldInv(w.(server := Step(w.server, Advance(t, env))), user, fam, LostAfter(w, Serve(env), user, fam, lost))
  {
    Assembled(w, Step(w.server, Advance(t, env)), user, fam, LostAfter(w, Serve(env), user, fam, lost)) by {
      StepKeeps(w.server, Advance(t, env));
      OthersUnmovedByUs(w.server, t, env, fam);
      ServeHolds(w, env, t, user, fam, lost);
    }
  }

  lemma OnlyActivationExchanges(s: State, t: Tid, env: Env)
    requires Inv(s) && t in s.threads && AdvanceStep(s, t, env).threads[t].Exchanged? && !s.threads[t].Exchanged?
    ensures s.threads[t].ActivateSuccessor? && s.threads[t].succ in s.rows
    ensures AdvanceStep(s, t, env).threads[t].succ != s.threads[t].parent
  {
    assert ThreadOk(s, s.threads[t]);
  }

  lemma DeliverKeeps(w: World, user: User, fam: Fam, lost: bool)
    requires WorldInv(w, user, fam, lost)
    ensures WorldInv(Act(w, Deliver, user, fam), user, fam, lost)
    ensures SessionOf(Act(w, Deliver, user, fam), user) == SessionOf(w, user)
  {
    if w.client.refreshPromise.Some? {
      var pc := w.server.threads[w.client.refreshPromise.value];
      if pc.Exchanged? || pc.Finished? { assert OtherPc(w.server, pc, fam); }
    }
  }

  lemma IdleStays(s: State, e: Event, cookie: Token, user: User, fam: Fam, lost: bool)
    requires Inv(s) && Others(s, fam, None) && Permitted(s, e, None, fam) && TokenOk(s, cookie, user, fam, lost)
    ensures TokenOk(Step(s, e), cookie, user, fam, lost || IsRevoked(s, Step(s, e), cookie.sid))
  {
    StepGoesOn(s, e);
    OthersOnlyRevoke(s, e, fam, None, cookie.sid);
    TokenStays(s, Step(s, e), e, cookie, user, fam, lost);
  }

  lemma ElsewhereIdle(w: World, e: Event, user: User, fam: Fam, lost: bool)
    requires WorldInv(w, user, fam, lost) && w.client.refreshPromise.None? && Permitted(w.server, e, None, fam)
    ensures Held(Step(w.server, e), w.client, user, fam, LostAfter(w, Elsewhere(e), user, fam, lost))
  {
    IdleStays(w.server, e, w.client.cookie, user, fam, lost);
  }

  lemma ElsewhereInFlight(w: World, e: Event, t: Tid, user: User, fam: Fam, lost: bool)
    requires WorldInv(w, user, fam, lost) && w.client.refreshPromise == Some(t) && Permitted(w.server, e, Some(t), fam)
    ensures Held(Step(w.server, e), w.client, user, fam, LostAfter(w, Elsewhere(e), user, fam, lost))
  {
    var s' := Step(w.server, e);
    OursUnmoved(w.server, e, t, fam);
    FlightStays(w.server, e, w.client.cookie, t, user, fam, lost);
    LostInFlight(w, w.(server := s'), t, user, lost);
  }

  lemma ElsewhereKeeps(w: World, e: Event, user: User, fam: Fam, lost: bool)
    requires WorldInv(w, user, fam, lost) && Permitted(w.server, e, w.client.refreshPromise, fam)
    ensures WorldInv(w.(server := Step(w.server, e)), user, fam, LostAfter(w, Elsewhere(e), user, fam, lost))
  {
    Assembled(w, Step(w.server, e), user, fam, LostAfter(w, Elsewhere(e), user, fam, lost)) by {
      StepKeeps(w.server, e);
      OthersStay(w.server, e, fam, w.client.refreshPromise);
      match w.client.refreshPromise
      case None => ElsewhereIdle(w, e, user, fam, lost);
      case Some(t) => ElsewhereInFlight(w, e, t, user, fam, lost);
    }
  }

  lemma UnauthorizedKeeps(w: World, caller: Caller, tid: Tid, user: User, fam: Fam, lost: bool)
    requires WorldInv(w, user, fam, lost)
    ensures WorldInv(Act(w, Unauthorized(caller, tid), user, fam), user, fam, LostAfter(w, Unauthorized(caller, tid), user, fam, lost))
  {
    if tid !in w.server.threads && w.client.refreshPromise.None? {
      StartKeeps(w, caller, tid, user, fam, lost);
      StartLosesNothing(w, caller, tid, user, fam);
    }
  }

  lemma StartLosesNothing(w: World, caller: Caller, tid: Tid, user: User, fam: Fam)
    requires tid !in w.server.threads && w.client.refreshPromise.None?
    ensures Act(w, Unauthorized(caller, tid), user, fam).server.rows == w.server.rows
  {
  }

  /** Whatever callers, the server, the network and everybody else do: the browser's token stays what it was,
      or the loss is on record. */
  lemma ActKeeps(w: World, a: Action, user: User, fam: Fam, lost: bool)
    requires WorldInv(w, user, fam, lost)
    ensures WorldInv(Act(w, a, user, fam), user, fam, LostAfter(w, a, user, fam, lost))
  {
    match a
    case Unauthorized(caller, tid) => UnauthorizedKeeps(w, caller, tid, user, fam, lost);
    case Serve(env) =>
      if w.client.refreshPromise.Some? { ServeKeeps(w, env, w.client.refreshPromise.value, user, fam, lost); }
    case Deliver => DeliverKeeps(w, user, fam, lost);
    case Elsewhere(e) =>
      if Permitted(w.server, e, w.client.refreshPromise, fam) { ElsewhereKeeps(w, e, user, fam, lost); }
  }

  lemma {:induction false} RunKeeps(w: World, actions: seq<Action>, user: User, fam: Fam, lost: bool)
    requires WorldInv(w, user, fam, lost)
    ensures WorldInv(RunActions(w, actions, user, fam), user, fam, Lost(w, actions, user, fam, lost))
    decreases |actions|
  {
    if actions != [] {
      ActKeeps(w, actions[0], user, fam, lost);
      RunKeeps(Act(w, actions[0], user, fam), actions[1..], user, fam, LostAfter(w, actions[0], user, fam, lost));
    }
  }

  // ── what follows ────────────────────────────────────────────────────

  /** Our refresh is at its look-up and finds its row, or at its compare-and-set. */
  ghost predicate AtRisk(w: World) {
    exists t :: Flies(w, t) &&
      var pc := w.server.threads[t];
      (pc.LookUp? && w.client.cookie.sid in w.server.rows) || pc.RotateParent?
  }

  lemma RiskOfFlight(w: World, t: Tid, user: User, fam: Fam, lost: bool)
    requires WorldInv(w, user, fam, lost) && Flies(w, t)
    ensures var pc := w.server.threads[t];
            Replays(w.server, pc) || LosesRace(w.server, pc) <==>
              lost && ((pc.LookUp? && w.client.cookie.sid in w.server.rows) || pc.RotateParent?)
  {
    assert InFlight(w.server, w.client.cookie, w.server.threads[t], user, fam, lost);
  }

  /** MAIN RESULT. However many requests of one browser get a 401 at once, and whatever other devices of the account
      and other accounts do: its refresh is in the replay branch or loses the compare-and-set if and only if
      the session it presents was revoked or deleted since that session was activated. */
  lemma ReplaysExactlyWhenRevoked(w: World, actions: seq<Action>, user: User, fam: Fam)
    requires WorldInv(w, user, fam, false)
    ensures var w' := RunActions(w, actions, user, fam);
            Reaches(w') <==> Lost(w, actions, user, fam, false) && AtRisk(w')
  {
    RunKeeps(w, actions, user, fam, false);
    ReachesExactlyWhenLost(RunActions(w, actions, user, fam), user, fam, Lost(w, actions, user, fam, false));
  }

  lemma ReachesExactlyWhenLost(w: World, user: User, fam: Fam, lost: bool)
    requires WorldInv(w, user, fam, lost)
    ensures Reaches(w) <==> lost && AtRisk(w)
  {
    if w.client.refreshPromise.Some? {
      var t := w.client.refreshPromise.value;
      assert Flies(w, t);
      RiskOfFlight(w, t, user, fam, lost);
    }
  }

  /** MAIN RESULT. So while nobody revokes it, single flight alone keeps the browser out of both branches, and
      when no refresh is in flight its cookie is the family's one usable token. */
  lemma SingleFlightNeverReplays(w: World, actions: seq<Action>, user: User, fam: Fam)
    requires WorldInv(w, user, fam, false) && !Lost(w, actions, user, fam, false)
    ensures var w' := RunActions(w, actions, user, fam);
            && !Reaches(w')
            && (w'.client.refreshPromise.None? ==>
                  && FindByToken(w'.server.rows, w'.client.cookie) == Some(w'.client.cookie.sid)
                  && HasActive(w'.server, fam, w'.client.cookie.sid))
  {
    ReplaysExactlyWhenRevoked(w, actions, user, fam);
    RunKeeps(w, actions, user, fam, false);
  }

  /** Everyone waiting when the response arrives gets the same outcome, and nobody is left waiting. */
  lemma WaitersAgree(w: World, actions: seq<Action>, user: User, fam: Fam, c: Caller, d: Caller)
    requires WorldInv(w, user, fam, false)
    ensures var before := RunActions(w, actions, user, fam);
            var after := Act(before, Deliver, user, fam);
            && (c in before.client.callers && d in before.client.callers
                && before.client.callers[c].Pending? && before.client.callers[d].Pending? ==>
                  after.client.callers[c] == after.client.callers[d])
            && (after.client.refreshPromise.None? && c in after.client.callers ==> after.client.callers[c].Settled?)
  {
    var before := RunActions(w, actions, user, fam);
    assert ClientOk(before.client) by { RunKeeps(w, actions, user, fam, false); }
    SettledTogether(before, user, fam, c, d);
  }

  lemma SettledTogether(w: World, user: User, fam: Fam, c: Caller, d: Caller)
    requires ClientOk(w.client)
    ensures var w' := Act(w, Deliver, user, fam);
            && (c in w.client.callers && d in w.client.callers
                && w.client.callers[c].Pending? && w.client.callers[d].Pending? ==>
                  w'.client.callers[c] == w'.client.callers[d])
            && (w'.client.refreshPromise.None? && c in w'.client.callers ==> w'.client.callers[c].Settled?)
  {
  }

  /** Nobody presents a token before it is issued. */
  ghost predicate NoFutureTokens(s: State) {
    forall t :: t in s.threads && s.threads[t].LookUp? ==> s.threads[t].token.sid < s.nextSid
  }

  /** MAIN RESULT. The invariant starts with any login, in any reachable state, whose cookie has been delivered. */
  lemma LoginStartsTheWorld(before: seq<Event>, tid: Tid, user: User, env: Env)
    requires var s := Run(INIT, before); tid !in s.threads && NoFutureTokens(s)
    ensures var s := Run(INIT, before);
            var s' := Step(Step(s, Login(tid, user)), Advance(tid, env));
            WorldInv(World(s', Client(Token(s.nextSid, user), None, map[])), user, |s.chains|, false)
  {
    var s := Run(INIT, before);
    ReachableInv(INIT, before);
    LoginStarts(s, tid, user, env);
  }

  lemma LoginStarts(s: State, tid: Tid, user: User, env: Env)
    requires Inv(s) && tid !in s.threads && NoFutureTokens(s)
    ensures var s' := Step(Step(s, Login(tid, user)), Advance(tid, env));
            WorldInv(World(s', Client(Token(s.nextSid, user), None, map[])), user, |s.chains|, false)
  {
    var s1 := Step(s, Login(tid, user));
    StepKeeps(s, Login(tid, user));
    StepKeeps(s1, Advance(tid, env));
    LoginAmongOthers(s, tid, user, env);
    LoginIsHeld(s, tid, user, env);
  }

  lemma LoginIsHeld(s: State, tid: Tid, user: User, env: Env)
    requires Inv(s) && tid !in s.threads
    ensures var s' := Step(Step(s, Login(tid, user)), Advance(tid, env));
            TokenOk(s', Token(s.nextSid, user), user, |s.chains|, false)
  {
    var s1 := Step(s, Login(tid, user));
    assert s1.threads[tid] == SignLogin(s.nextSid);
  }

  lemma LoginAmongOthers(s: State, tid: Tid, user: User, env: Env)
    requires Inv(s) && tid !in s.threads && NoFutureTokens(s)
    requires Inv(Step(s, Login(tid, user)))
    ensures Others(Step(Step(s, Login(tid, user)), Advance(tid, env)), |s.chains|, None)
  {
    var fam, s1 := |s.chains|, Step(s, Login(tid, user));
    LoginLeavesOthers(s, tid, user);
    OthersUnmovedByUs(s1, tid, env, fam);
    LoginIsDone(s, tid, user, env);
  }

  lemma LoginLeavesOthers(s: State, tid: Tid, user: User)
    requires Inv(s) && tid !in s.threads && NoFutureTokens(s)
    ensures Others(Step(s, Login(tid, user)), |s.chains|, Some(tid))
  {
    var s1 := Step(s, Login(tid, user));
    StepGoesOn(s, Login(tid, user));
    forall t | t in s1.threads && t != tid ensures OtherPc(s1, s1.threads[t], |s.chains|) {
      OldRequestsAreOthers(s, s.threads[t]);
      OtherPcStays(s, s1, s.threads[t], |s.chains|);
    }
  }

  lemma LoginIsDone(s: State, tid: Tid, user: User, env: Env)
    requires tid !in s.threads
    ensures var s' := Step(Step(s, Login(tid, user)), Advance(tid, env)); tid in s'.threads && s'.threads[tid] == Finished
  {
    assert Step(s, Login(tid, user)).threads[tid] == SignLogin(s.nextSid);
  }

  lemma OldRequestsAreOthers(s: State, pc: Pc)
    requires Inv(s) && ThreadOk(s, pc) && (pc.LookUp? ==> pc.token.sid < s.nextSid)
    ensures OtherPc(s, pc, |s.chains|)
  {
    match pc
    case LookUp(token) => if token.sid in s.rows { assert RowOk(s, token.sid, s.rows[token.sid]); }
    case DeleteSuccessor(_, succ) => if succ in s.rows { assert RowOk(s, succ, s.rows[succ]); }
    case _ =>
  }
}
