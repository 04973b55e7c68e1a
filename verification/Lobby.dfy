/** The lobby's PlayerManager (server/server/lobbysvr/PlayerManager.cpp): the two tables of the game
    server with players that are never in a room, and a table of connections not yet logged in. */
module Lobby {
  import opened Options
  import opened Registry
  import opened PlayerRegistry

  class LobbyManager {
    const tables: PlayerManager
    var sessionTime: map<Session, int>

    constructor ()
      ensures Valid() && View() == Initial() && sessionTime == map[]
      ensures fresh(tables) && tables.login == map[] && tables.online == map[]
    {
      tables := new PlayerManager();
      sessionTime := map[];
    }

    ghost predicate Valid()
      reads this, tables, tables.login.Values, tables.online.Values
    {
      tables.Valid() && Inv(View()) && Roomless(View())
    }

    ghost function View(): State<GameRoom>
      reads this, tables, tables.login.Values, tables.online.Values
    {
      tables.View()
    }

    /** Logged-in users and online sessions belong to each other one to one. */
    ghost predicate Paired()
      reads this, tables, tables.login.Values, tables.online.Values
    {
      && (forall u :: u in tables.login ==>
            var s := tables.login[u].session;
            s.Some? && s.value in tables.online && tables.online[s.value] == tables.login[u])
      && (forall s :: s in tables.online ==>
            var p := tables.online[s];
            p.session == Some(s) && p.userId in tables.login && tables.login[p.userId] == p)
    }

    lemma PairedByView()
      requires Valid() && Exact(View()) && forall u :: u in View().login ==> View().login[u].session.Some?
      ensures Paired() && |View().login| == |tables.login| && |View().online| == |tables.online|
    {
      assert View().login.Keys == tables.login.Keys && View().online.Keys == tables.online.Keys;
    }

    /** on_session_open. */
    method OnSessionOpen(s: Session, now: int)
      requires Valid()
      modifies this
      ensures Valid() && View() == old(View()) && sessionTime == old(sessionTime)[s := now]
    {
      sessionTime := sessionTime[s := now];
    }

    /** add_user_session. */
    method AddUserSession(u: UserId, s: Session)
      requires Valid()
      modifies tables, tables.login.Values
      ensures Valid() && View() == LobbyStep(old(View()), Login(u, s))
      ensures sessionTime == old(sessionTime)
      ensures forall p :: p in tables.login.Values ==> p in old(tables.login.Values) || fresh(p)
    {
      hide Inv, Step, PlayerManager.View;
      StepKeepsInv(View(), Login(u, s));
      LoginKeepsRoomless(View(), u, s);
      var shutdown := tables.AddUserSession(u, s);
    }

    /** on_session_close: the user goes with the session. */
    method OnSessionClose(s: Session)
      requires Valid()
      modifies this, tables, tables.online.Values
      ensures Valid() && View() == LobbyStep(old(View()), Close(s))
      ensures sessionTime == old(sessionTime) - {s}
      ensures tables.login.Values <= old(tables.login.Values)
    {
      hide Inv, Roomless, PlayerManager.Valid, PlayerManager.LoginView, PlayerManager.OnlineView;
      CloseKeeps(View(), s);
      sessionTime := sessionTime - {s};
      tables.OnlineAt(s);
      if s in tables.online {
        Drop(s);
      }
    }

    /** Forget an online session and its user. */
    method Drop(s: Session)
      requires tables.Valid() && s in tables.online
      modifies tables, tables.online[s]
      ensures tables.Valid()
      ensures tables.LoginView() == old(tables.LoginView()) - {old(tables.online[s].userId)}
      ensures tables.OnlineView() == old(tables.OnlineView()) - {s}
      ensures tables.login.Values <= old(tables.login.Values)
    {
      hide PlayerManager.LoginView, PlayerManager.OnlineView;
      var p := tables.online[s];
      tables.DistinctPlayers(p.userId);
      p.session := None;
      tables.online := tables.online - {s};
      tables.OnlineViewFollows(Some(s));
      tables.login := tables.login - {p.userId};
      tables.LoginViewErased(p.userId);
    }

    /** check_user_msg: the user a session speaks for; in every state his session field is that session. */
    method CheckUserMsg(s: Session) returns (user: Option<UserId>)
      requires Valid()
      ensures user == if s in View().online then Some(View().online[s]) else None
      ensures user.Some? ==> tables.RecvSession(user.value) == Some(s)
    {
      user := None;
      if s in tables.online {
        user := Some(tables.online[s].userId);
      }
    }

    /** Every run over the objects follows the lobby's machine event by event. */
    method Run(events: seq<LobbyEvent>)
      requires Valid()
      modifies this, tables, tables.login.Values
      ensures Valid() && View() == LobbyRun(old(View()), TableEvents(events))
      ensures sessionTime == TimesAfter(old(sessionTime), events)
      ensures forall p :: p in tables.login.Values ==> p in old(tables.login.Values) || fresh(p)
    {
      hide Valid, View, Step, LobbyStep;
      var i := 0;
      ghost var last := LobbyRun(View(), TableEvents(events));
      assert events[0..] == events;
      while i < |events|
        invariant 0 <= i <= |events| && Valid()
        invariant LobbyRun(View(), TableEvents(events[i..])) == last
        invariant TimesAfter(sessionTime, events[i..]) == TimesAfter(old(sessionTime), events)
        invariant forall p :: p in tables.login.Values ==> p in old(tables.login.Values) || fresh(p)
      {
        assert events[i..][1..] == events[i + 1..];
        ghost var rest := TableEvents(events[i + 1..]);
        match events[i] {
          case Opened(s, now) => OnSessionOpen(s, now);
          case LoggedIn(u, s) =>
            LobbyRunFirst(View(), Login(u, s), rest);
            AddUserSession(u, s);
          case Closed(s) =>
            LobbyRunFirst(View(), Close(s), rest);
            OnlineAreLogin();
            OnSessionClose(s);
        }
        i := i + 1;
      }
    }

    lemma OnlineAreLogin()
      requires Valid()
      ensures tables.online.Values <= tables.login.Values
    {
    }
  }

  datatype LobbyEvent =
    | Opened(session: Session, now: int)
    | LoggedIn(user: UserId, session: Session)
    | Closed(session: Session)

  /** What the two tables see of a run. */
  function TableEvents(events: seq<LobbyEvent>): (es: seq<Event<GameRoom>>)
    ensures forall k :: 0 <= k < |es| ==> es[k].Login? || es[k].Close?
  {
    if events == [] then []
    else
      var rest := TableEvents(events[1..]);
      match events[0]
      case Opened(_, _) => rest
      case LoggedIn(u, s) => [Login(u, s)] + rest
      case Closed(s) => [Close(s)] + rest
  }

  lemma LobbyRunFirst<R>(st: State<R>, e: Event<R>, rest: seq<Event<R>>)
    requires (e.Login? || e.Close?) && forall k :: 0 <= k < |rest| ==> rest[k].Login? || rest[k].Close?
    ensures LobbyRun(st, [e] + rest) == LobbyRun(LobbyStep(st, e), rest)
  {
    assert ([e] + rest)[1..] == rest;
  }

  function TimesAfter(times: map<Session, int>, events: seq<LobbyEvent>): map<Session, int>
    decreases |events|
  {
    if events == [] then times
    else
      match events[0]
      case Opened(s, now) => TimesAfter(times[s := now], events[1..])
      case LoggedIn(_, _) => TimesAfter(times, events[1..])
      case Closed(s) => TimesAfter(times - {s}, events[1..])
  }

  /** From a new lobby through any run that never shares a live session: users and sessions are in
      bijection through the shared player objects. */
  method ServeFromStart(events: seq<LobbyEvent>) returns (lobby: LobbyManager)
    ensures fresh(lobby) && lobby.Valid() && lobby.View() == LobbyRun(Initial(), TableEvents(events))
    ensures CleanRun(Initial<GameRoom>(), TableEvents(events)) ==>
              lobby.Paired() && |lobby.tables.login| == |lobby.tables.online|
  {
    hide LobbyRun, CleanRun;
    lobby := new LobbyManager();
    lobby.Run(events);
    if CleanRun(Initial<GameRoom>(), TableEvents(events)) {
      LobbyBijection<GameRoom>(TableEvents(events));
      lobby.PairedByView();
    }
  }

  lemma LoginKeepsRoomless<R>(st: State<R>, u: UserId, s: Session)
    requires Roomless(st)
    ensures Roomless(Step(st, Login(u, s)))
  {
  }

  lemma CloseKeeps<R>(st: State<R>, s: Session)
    requires Inv(st) && Roomless(st)
    ensures Inv(LobbyStep(st, Close(s))) && Roomless(LobbyStep(st, Close(s)))
  {
  }
}
