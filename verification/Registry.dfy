/** The bookkeeping of logged-in users as a machine over values: who is logged in, on which session
    and in which room, and which user each session carries. The classes of module PlayerRegistry
    refine it. */
module Registry {
  import opened Options

  type UserId = int

  /** The address of a TcpSession; None of Option<Session> is the null pointer. */
  type Session = nat

  /** The fields of a logged-in player. */
  datatype Entry<+R> = Entry(session: Option<Session>, room: Option<R>)

  datatype State<+R> = State(login: map<UserId, Entry<R>>, online: map<Session, UserId>)

  datatype Event<+R> =
    | Login(user: UserId, session: Session)
    | Close(session: Session)
    | Enter(user: UserId, session: Session, room: R)
    | Leave(user: UserId)

  /** unordered_map::erase with a possibly null key; null is never a key. */
  function Forget<V>(online: map<Session, V>, s: Option<Session>): map<Session, V> {
    if s.Some? then online - {s.value} else online
  }

  /** One event. Leave is offered only to a user who is in a room. */
  function Step<R>(st: State<R>, e: Event<R>): State<R> {
    match e
    case Login(u, s) =>
      if u in st.login then
        State(st.login[u := st.login[u].(session := Some(s))], Forget(st.online, st.login[u].session)[s := u])
      else
        State(st.login[u := Entry(Some(s), None)], st.online[s := u])
    case Close(s) =>
      if s !in st.online then st
      else
        var u := st.online[s];
        if u !in st.login then State(st.login, st.online - {s})
        else if st.login[u].room.None? then State(st.login - {u}, st.online - {s})
        else State(st.login[u := st.login[u].(session := None)], st.online - {s})
    case Enter(u, s, r) =>
      if u !in st.login then
        State(st.login[u := Entry(Some(s), Some(r))], st.online[s := u])
      else if st.login[u].room.None? then
        State(st.login[u := st.login[u].(room := Some(r))], st.online)
      else st
    case Leave(u) =>
      if u in st.login && st.login[u].room.Some? then
        State(st.login - {u}, Forget(st.online, st.login[u].session))
      else st
  }

  function Run<R>(st: State<R>, events: seq<Event<R>>): State<R>
    decreases |events|
  {
    if events == [] then st else Run(Step(st, events[0]), events[1..])
  }

  function Initial<R>(): State<R> { State(map[], map[]) }

  /** Every session carries a logged-in user whose session it is; a user without one is in a room. */
  ghost predicate Inv<R>(st: State<R>) {
    && (forall s :: s in st.online ==>
          st.online[s] in st.login && st.login[st.online[s]].session == Some(s))
    && (forall u :: u in st.login ==> st.login[u].session.Some? || st.login[u].room.Some?)
  }

  /** The session table is the inverse of the session fields. */
  ghost predicate Exact<R>(st: State<R>) {
    forall u :: u in st.login && st.login[u].session.Some? ==>
      st.login[u].session.value in st.online && st.online[st.login[u].session.value] == u
  }

  /** The event binds no session that another user still holds. */
  ghost predicate Clean<R>(st: State<R>, e: Event<R>) {
    match e
    case Login(u, s) => forall v :: v in st.login && st.login[v].session == Some(s) ==> v == u
    case Enter(u, s, r) =>
      u !in st.login ==> forall v :: v in st.login ==> st.login[v].session != Some(s)
    case _ => true
  }

  ghost predicate CleanRun<R>(st: State<R>, events: seq<Event<R>>)
    decreases |events|
  {
    events == [] || (Clean(st, events[0]) && CleanRun(Step(st, events[0]), events[1..]))
  }

  // ----- every step and every run

  lemma StepKeepsInv<R>(st: State<R>, e: Event<R>)
    requires Inv(st)
    ensures Inv(Step(st, e))
  {
  }

  lemma InitialInv<R>()
    ensures Inv(Initial<R>()) && Exact(Initial<R>())
  {
  }

  /** In every reachable state the invariant holds. */
  lemma {:induction false} RunKeepsInv<R>(st: State<R>, events: seq<Event<R>>)
    requires Inv(st)
    ensures Inv(Run(st, events))
    decreases |events|
  {
    if events != [] {
      StepKeepsInv(st, events[0]);
      RunKeepsInv(Step(st, events[0]), events[1..]);
    }
  }

  lemma StepKeepsExact<R>(st: State<R>, e: Event<R>)
    requires Inv(st) && Exact(st) && Clean(st, e)
    ensures Exact(Step(st, e))
  {
  }

  /** A run that never binds a session still bound to another user keeps the two tables inverse. */
  lemma {:induction false} CleanRunKeepsExact<R>(st: State<R>, events: seq<Event<R>>)
    requires Inv(st) && Exact(st) && CleanRun(st, events)
    ensures Exact(Run(st, events))
    decreases |events|
  {
    if events != [] {
      StepKeepsInv(st, events[0]);
      StepKeepsExact(st, events[0]);
      CleanRunKeepsExact(Step(st, events[0]), events[1..]);
    }
  }

  /** The cleanness is needed: one login of a second user on a live session breaks the inverse. */
  lemma SharedSessionBreaksExact()
    ensures var st := Step(Initial<int>(), Login(1, 7));
            Exact(st) && !Clean(st, Login(2, 7)) && !Exact(Step(st, Login(2, 7)))
  {
    var st := Step(Initial<int>(), Login(1, 7));
    var st' := Step(st, Login(2, 7));
    assert st'.login[1].session == Some(7) && st'.online[7] == 2;
  }

  /** From an exact state a step stays exact if and only if it is clean. */
  lemma ExactIffClean<R>(st: State<R>, e: Event<R>)
    requires Inv(st) && Exact(st)
    ensures Exact(Step(st, e)) <==> Clean(st, e)
  {
    if Clean(st, e) {
      StepKeepsExact(st, e);
    } else {
      var s := e.session;
      var v :| v in st.login && st.login[v].session == Some(s) && v != e.user;
      var st' := Step(st, e);
      assert st'.login[v].session == Some(s) && st'.online[s] == e.user;
    }
  }

  /** The user is logged in on a session that carries another user, or none. */
  ghost predicate Ousted<R>(st: State<R>, u: UserId, s: Session) {
    u in st.login && st.login[u].session == Some(s) && !(s in st.online && st.online[s] == u)
  }

  lemma {:induction false} OustedStays<R>(st: State<R>, u: UserId, s: Session, events: seq<Event<R>>)
    requires Inv(st) && Ousted(st, u, s)
    requires forall k :: 0 <= k < |events| ==> !((events[k].Login? || events[k].Leave?) && events[k].user == u)
    ensures Ousted(Run(st, events), u, s)
    decreases |events|
  {
    if events != [] {
      var e := events[0];
      StepKeepsInv(st, e);
      assert !((e.Login? || e.Leave?) && e.user == u);
      OustedStays(Step(st, e), u, s, events[1..]);
    }
  }

  /** What a shared session leaves behind: once another user logs in on it, the first user is reported on
      that session through every later close, the session's own included, until he logs in again or
      leaves a room. */
  lemma TakenOverStaysLoggedIn<R>(st: State<R>, u: UserId, v: UserId, s: Session, events: seq<Event<R>>)
    requires Inv(st) && u != v && u in st.login && st.login[u].session == Some(s)
    requires forall k :: 0 <= k < |events| ==> !((events[k].Login? || events[k].Leave?) && events[k].user == u)
    ensures SessionOf(Run(Step(st, Login(v, s)), events), u) == Some(s)
    ensures var st' := Run(Step(st, Login(v, s)), events); !(s in st'.online && st'.online[s] == u)
  {
    StepKeepsInv(st, Login(v, s));
    OustedStays(Step(st, Login(v, s)), u, s, events);
  }

  // ----- sessions that were given up

  /** The event binds session s. */
  predicate Binds<R>(e: Event<R>, s: Session) { (e.Login? || e.Enter?) && e.session == s }

  /** A relogin takes the old session out of the table. */
  lemma ReloginSupersedes<R>(st: State<R>, u: UserId, s1: Session, s2: Session)
    requires u in st.login && st.login[u].session == Some(s1) && s1 != s2
    ensures s1 !in Step(st, Login(u, s2)).online
    ensures Step(st, Login(u, s2)).online[s2] == u
  {
  }

  /** A session outside the table stays outside through any run that does not bind it, so a late close
      of it changes nothing. */
  lemma {:induction false} LateCloseIsHarmless<R>(st: State<R>, events: seq<Event<R>>, s: Session)
    requires s !in st.online && forall k :: 0 <= k < |events| ==> !Binds(events[k], s)
    ensures s !in Run(st, events).online
    ensures Step(Run(st, events), Close(s)) == Run(st, events)
    decreases |events|
  {
    if events != [] {
      assert !Binds(events[0], s);
      LateCloseIsHarmless(Step(st, events[0]), events[1..], s);
    }
  }

  /** However often a user logs in again, a close of any session he has left changes neither table. */
  lemma CloseAfterRelogin<R>(st: State<R>, u: UserId, s1: Session, s2: Session, events: seq<Event<R>>)
    requires u in st.login && st.login[u].session == Some(s1) && s1 != s2
    requires forall k :: 0 <= k < |events| ==> !Binds(events[k], s1)
    ensures var st' := Run(Step(st, Login(u, s2)), events);
            Step(st', Close(s1)) == st'
  {
    ReloginSupersedes(st, u, s1, s2);
    LateCloseIsHarmless(Step(st, Login(u, s2)), events, s1);
  }

  // ----- the queries

  /** recv_session: the session field of a logged-in user. */
  function SessionOf<R>(st: State<R>, u: UserId): Option<Session> {
    if u in st.login then st.login[u].session else None
  }

  /** In every reachable state a session in the table is the one its user reports; in an exact one the
      two tables answer alike. */
  lemma QueriesAgree<R>(st: State<R>, u: UserId, s: Session)
    requires Inv(st)
    ensures s in st.online && st.online[s] == u ==> SessionOf(st, u) == Some(s)
    ensures Exact(st) ==> (SessionOf(st, u) == Some(s) <==> s in st.online && st.online[s] == u)
  {
  }

  /** The online users are among the logged-in ones, counted with multiplicity one. */
  lemma {:induction false} NoMoreOnlineThanLogin<R>(st: State<R>)
    requires Inv(st)
    ensures |st.online| <= |st.login|
    decreases |st.online|
  {
    if st.online != map[] {
      var s :| s in st.online;
      var u := st.online[s];
      var rest := State(st.login - {u}, st.online - {s});
      assert rest.login.Keys == st.login.Keys - {u};
      assert rest.online.Keys == st.online.Keys - {s};
      NoMoreOnlineThanLogin(rest);
    }
  }

  // ----- the lobby: the same tables without rooms

  ghost predicate Roomless<R>(st: State<R>) {
    forall u :: u in st.login ==> st.login[u].room.None?
  }

  /** The lobby's close forgets session and user together. */
  function LobbyStep<R>(st: State<R>, e: Event<R>): State<R>
    requires e.Login? || e.Close?
  {
    match e
    case Login(u, s) => Step(st, e)
    case Close(s) => if s in st.online then State(st.login - {st.online[s]}, st.online - {s}) else st
  }

  function LobbyRun<R>(st: State<R>, events: seq<Event<R>>): State<R>
    requires forall k :: 0 <= k < |events| ==> events[k].Login? || events[k].Close?
    decreases |events|
  {
    if events == [] then st else LobbyRun(LobbyStep(st, events[0]), events[1..])
  }

  /** The lobby is the game server's machine confined to users who enter no room. */
  lemma {:induction false} LobbyIsRoomless<R>(st: State<R>, events: seq<Event<R>>)
    requires Inv(st) && Roomless(st)
    requires forall k :: 0 <= k < |events| ==> events[k].Login? || events[k].Close?
    ensures LobbyRun(st, events) == Run(st, events) && Roomless(Run(st, events))
    decreases |events|
  {
    if events != [] {
      var e := events[0];
      StepKeepsInv(st, e);
      assert Roomless(Step(st, e));
      LobbyIsRoomless(Step(st, e), events[1..]);
    }
  }

  /** Without rooms, a clean run leaves the two tables in bijection: each user has one session and each
      session one user, and there are as many of the one as of the other. */
  lemma LobbyBijection<R>(events: seq<Event<R>>)
    requires forall k :: 0 <= k < |events| ==> events[k].Login? || events[k].Close?
    requires CleanRun(Initial(), events)
    ensures var st := LobbyRun(Initial(), events);
            && (forall u :: u in st.login ==>
                  st.login[u].session.Some? && st.login[u].session.value in st.online
                  && st.online[st.login[u].session.value] == u)
            && (forall s :: s in st.online ==>
                  st.online[s] in st.login && st.login[st.online[s]].session == Some(s))
            && |st.login| == |st.online|
  {
    LobbyIsRoomless(Initial(), events);
    RunKeepsInv(Initial(), events);
    CleanRunKeepsExact(Initial(), events);
    var st := Run(Initial<R>(), events);
    NoMoreOnlineThanLogin(st);
    NoMoreLoginThanOnline(st);
  }

  lemma {:induction false} NoMoreLoginThanOnline<R>(st: State<R>)
    requires Exact(st) && forall u :: u in st.login ==> st.login[u].session.Some?
    ensures |st.login| <= |st.online|
    decreases |st.login|
  {
    var users := st.login.Keys;
    if users != {} {
      var u := Member(users);
      var s := st.login[u].session.value;
      var rest := State(st.login - {u}, st.online - {s});
      assert rest.login.Keys == st.login.Keys - {u};
      assert rest.online.Keys == st.online.Keys - {s};
      NoMoreLoginThanOnline(rest);
    }
  }

  // ----- what each event does, and to whom alone

  /** Everybody but u is as before. */
  ghost predicate OthersKept<R>(st: State<R>, st': State<R>, u: UserId) {
    forall v :: v != u ==> (v in st'.login <==> v in st.login) && (v in st.login ==> st'.login[v] == st.login[v])
  }

  /** Every session but the two given carries whom it carried. */
  ghost predicate SessionsKept<R>(st: State<R>, st': State<R>, s: Option<Session>, t: Option<Session>) {
    forall x :: Some(x) != s && Some(x) != t ==>
      (x in st'.online <==> x in st.online) && (x in st.online ==> st'.online[x] == st.online[x])
  }

  /** A login puts the user on the session in his room, if he is in one, and takes him off any other. */
  lemma LoginBinds<R>(st: State<R>, u: UserId, s: Session)
    ensures var st' := Step(st, Login(u, s));
            && u in st'.login && st'.login[u].session == Some(s)
            && st'.login[u].room == (if u in st.login then st.login[u].room else None)
            && s in st'.online && st'.online[s] == u
            && (SessionOf(st, u) != Some(s) && SessionOf(st, u).Some? ==> SessionOf(st, u).value !in st'.online)
            && OthersKept(st, st', u) && SessionsKept(st, st', Some(s), SessionOf(st, u))
  {
  }

  /** A close frees the session. Its user stays, without a session, while he is in a room, and is forgotten
      otherwise. */
  lemma CloseReleases<R>(st: State<R>, s: Session)
    requires Inv(st) && s in st.online
    ensures var st', u := Step(st, Close(s)), st.online[s];
            && s !in st'.online
            && (st.login[u].room.Some? ==> u in st'.login && st'.login[u] == Entry(None, st.login[u].room))
            && (st.login[u].room.None? ==> u !in st'.login)
            && OthersKept(st, st', u) && SessionsKept(st, st', Some(s), None)
  {
  }

  /** Entering a room logs a new user in on the session; a logged-in one keeps his session, and his room if
      he has one. */
  lemma EnterSeats<R>(st: State<R>, u: UserId, s: Session, r: R)
    ensures var st' := Step(st, Enter(u, s, r));
            && u in st'.login
            && (u !in st.login ==> st'.login[u] == Entry(Some(s), Some(r)) && s in st'.online && st'.online[s] == u)
            && (u in st.login ==> st'.login[u].session == st.login[u].session && st'.online == st.online)
            && (u in st.login && st.login[u].room.None? ==> st'.login[u].room == Some(r))
            && (u in st.login && st.login[u].room.Some? ==> st'.login[u].room == st.login[u].room)
            && OthersKept(st, st', u) && SessionsKept(st, st', Some(s), None)
  {
  }

  /** Leaving a room logs the user out. */
  lemma LeaveForgets<R>(st: State<R>, u: UserId)
    requires u in st.login && st.login[u].room.Some?
    ensures var st' := Step(st, Leave(u));
            && u !in st'.login && (st.login[u].session.Some? ==> st.login[u].session.value !in st'.online)
            && OthersKept(st, st', u) && SessionsKept(st, st', st.login[u].session, None)
  {
  }
}
