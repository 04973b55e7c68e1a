/** PlayerManager and GameRoom of server/server/gamesvr: three tables over shared Player objects. */
module PlayerRegistry {
  import opened Options
  import opened Registry

  class Player {
    var userId: UserId
    var session: Option<Session>
    var room: GameRoom?

    constructor (id: UserId, s: Session)
      ensures userId == id && session == Some(s) && room == null
    {
      userId, session, room := id, Some(s), null;
    }
  }

  /** m_login_user and m_online_user. */
  class PlayerManager {
    var login: map<UserId, Player>
    var online: map<Session, Player>

    constructor ()
      ensures login == map[] && online == map[]
    {
      login, online := map[], map[];
    }

    /** Players are filed under their id; an online player is the login entry of its id and points back. */
    ghost predicate Valid()
      reads this, login.Values, online.Values
    {
      && (forall u :: u in login ==> login[u].userId == u)
      && (forall s :: s in online ==>
            online[s].userId in login && login[online[s].userId] == online[s] && online[s].session == Some(s))
    }

    /** The fields of the logged-in players, as values. */
    ghost function LoginView(): map<UserId, Entry<GameRoom>>
      reads this`login, login.Values
    {
      map u | u in login :: EntryOf(login[u])
    }

    ghost function OnlineView(): map<Session, UserId>
      reads this`online, online.Values
    {
      map s | s in online :: online[s].userId
    }

    /** The value state these objects represent. */
    ghost function View(): State<GameRoom>
      reads this, login.Values, online.Values
    {
      State(LoginView(), OnlineView())
    }

    /** Only the player of u changed. */
    twostate lemma LoginViewUpdated(u: UserId)
      requires u in login && login == old(login)
      requires forall v :: v in login && v != u ==> unchanged(login[v])
      ensures LoginView() == old(LoginView())[u := EntryOf(login[u])]
    {
      assert forall v :: v in login && v != u ==> EntryOf(login[v]) == old(EntryOf(login[v]));
    }

    /** Only u was erased. */
    twostate lemma LoginViewErased(u: UserId)
      requires login == old(login) - {u}
      requires forall v :: v in login ==> unchanged(login[v])
      ensures LoginView() == old(LoginView()) - {u}
    {
      assert forall v :: v in login ==> EntryOf(login[v]) == old(EntryOf(login[v]));
    }

    /** Players never change their id. */
    twostate lemma OnlineViewFollows(forgotten: Option<Session>)
      requires online == Forget(old(online), forgotten)
      requires forall s :: s in online ==> online[s].userId == old(online[s].userId)
      ensures OnlineView() == Forget(old(OnlineView()), forgotten)
    {
    }

    twostate lemma OnlineViewBound(s: Session)
      requires s in online && online == old(online)[s := online[s]]
      requires forall t :: t in online && t != s ==> online[t].userId == old(online[t].userId)
      ensures OnlineView() == old(OnlineView())[s := online[s].userId]
    {
    }

    lemma ViewAt(u: UserId)
      ensures u in LoginView() <==> u in login
      ensures u in login ==> LoginView()[u] == EntryOf(login[u])
    {
    }

    lemma OnlineAt(s: Session)
      ensures s in OnlineView() <==> s in online
      ensures s in online ==> OnlineView()[s] == online[s].userId
    {
    }

    lemma DistinctPlayers(u: UserId)
      requires Valid() && u in login
      ensures forall v :: v in login && v != u ==> login[v] != login[u]
    {
    }

    /** add_user_session for a user already logged in. */
    method Relogin(u: UserId, s: Session) returns (oldSession: Option<Session>)
      requires Valid() && u in login
      modifies this`online, login[u]
      ensures Valid()
      ensures oldSession == old(login[u].session)
      ensures online == Forget(old(online), oldSession)[s := login[u]]
      ensures login[u].session == Some(s) && login[u].room == old(login[u].room) && login[u].userId == u
      ensures LoginView() == old(LoginView())[u := Entry(Some(s), old(LoginView())[u].room)]
      ensures OnlineView() == Forget(old(OnlineView()), oldSession)[s := u]
    {
      hide LoginView, OnlineView;
      ViewAt(u);
      DistinctPlayers(u);
      var p := login[u];
      oldSession := p.session;
      p.session := Some(s);
      LoginViewUpdated(u);
      online := Forget(online, oldSession);
      OnlineViewFollows(oldSession);
      label Erased:
      online := online[s := p];
      OnlineViewBound@Erased(s);
    }

    /** add_user_session for a new user. */
    method NewPlayer(u: UserId, s: Session) returns (p: Player)
      requires Valid() && u !in login
      modifies this
      ensures Valid()
      ensures fresh(p) && p.userId == u && p.session == Some(s) && p.room == null
      ensures login == old(login)[u := p] && online == old(online)[s := p]
      ensures LoginView() == old(LoginView())[u := Entry(Some(s), None)]
      ensures OnlineView() == old(OnlineView())[s := u]
    {
      p := new Player(u, s);
      login := login[u := p];
      online := online[s := p];
    }

    /** add_user_session. The returned value is the old session that is told to shut down, if any. */
    method AddUserSession(u: UserId, s: Session) returns (shutdown: Option<Session>)
      requires Valid()
      modifies this, if u in login then {login[u]} else {}
      ensures Valid()
      ensures u in old(login) ==> login == old(login) && login[u].room == old(login[u].room)
      ensures u !in old(login) ==>
                u in login && fresh(login[u]) && login == old(login)[u := login[u]] && login[u].room == null
      ensures shutdown == old(if u in login && login[u].session != Some(s) then login[u].session else None)
      ensures View() == Step(old(View()), Login(u, s))
    {
      hide Valid;
      var oldSession := None;
      if u in login {
        oldSession := Relogin(u, s);
      } else {
        var p := NewPlayer(u, s);
      }
      shutdown := if oldSession.Some? && oldSession != Some(s) then oldSession else None;
    }

    /** on_session_close. The branch of the first assert(0) is never taken. */
    method OnSessionClose(s: Session)
      requires Valid()
      modifies this, if s in online then {online[s]} else {}
      ensures Valid()
      ensures s !in old(online) ==> login == old(login) && online == old(online)
      ensures s in old(online) ==>
                var p := old(online[s]);
                && p.session == None && p.room == old(p.room) && p.userId == old(p.userId)
                && online == old(online) - {s}
                && login == if p.room == null then old(login) - {p.userId} else old(login)
      ensures View() == Step(old(View()), Close(s))
    {
      if s in online {
        var p := online[s];
        DistinctPlayers(p.userId);
        p.session := None;
        online := online - {s};
        OnlineViewFollows(Some(s));
        if p.room == null {
          if p.userId in login {
            login := login - {p.userId};
            LoginViewErased(p.userId);
          } else {
            assert false;
          }
        } else {
          LoginViewUpdated(p.userId);
        }
      }
    }

    /** make_player: a new player, or the one logged in if it is in no room, or none. */
    method MakePlayer(u: UserId, s: Session) returns (player: Player?)
      requires Valid()
      modifies this
      ensures Valid()
      ensures u !in old(login) ==>
                && player != null && fresh(player)
                && player.userId == u && player.session == Some(s) && player.room == null
                && login == old(login)[u := player] && online == old(online)[s := player]
                && LoginView() == old(LoginView())[u := Entry(Some(s), None)]
                && OnlineView() == old(OnlineView())[s := u]
      ensures u in old(login) ==>
                && login == old(login) && online == old(online)
                && LoginView() == old(LoginView()) && OnlineView() == old(OnlineView())
                && player == if login[u].room == null then login[u] else null
    {
      hide LoginView, OnlineView;
      player := null;
      if u !in login {
        player := NewPlayer(u, s);
      } else if login[u].room == null {
        player := login[u];
      }
    }

    /** destory_player. The branch of the second assert(0) is never taken for a logged-in player. */
    method DestroyPlayer(p: Player)
      requires Valid() && p.userId in login
      modifies this
      ensures Valid()
      ensures login == old(login) - {p.userId}
      ensures online == Forget(old(online), old(login[p.userId].session))
      ensures LoginView() == old(LoginView()) - {p.userId}
      ensures OnlineView() == Forget(old(OnlineView()), old(login[p.userId].session))
    {
      hide LoginView, OnlineView;
      if p.userId in login {
        online := Forget(online, login[p.userId].session);
        OnlineViewFollows(login[p.userId].session);
        login := login - {p.userId};
        LoginViewErased(p.userId);
      } else {
        assert false;
      }
    }

    /** recv_session. */
    function RecvSession(u: UserId): Option<Session>
      reads this, login.Values
    {
      if u in login then login[u].session else None
    }

    /** is_player_online. */
    predicate IsPlayerOnline(u: UserId)
      reads this, login.Values
    {
      RecvSession(u).Some?
    }

    /** check_player_session. */
    predicate CheckPlayerSession(u: UserId, s: Session)
      reads this, login.Values
    {
      u in login && login[u].session == Some(s)
    }

    /** The queries read the value state. */
    lemma QueriesReadView(u: UserId, s: Session)
      ensures RecvSession(u) == SessionOf(View(), u)
      ensures IsPlayerOnline(u) <==> SessionOf(View(), u).Some?
      ensures CheckPlayerSession(u, s) <==> SessionOf(View(), u) == Some(s)
    {
    }
  }

  /** A room and its members; the player manager is the process-wide singleton. */
  class GameRoom {
    const roomId: int
    const players: PlayerManager
    var allPlayer: map<UserId, Player>

    constructor (id: int, manager: PlayerManager)
      ensures roomId == id && players == manager && allPlayer == map[]
    {
      roomId, players, allPlayer := id, manager, map[];
    }

    /** The end of add_player: file a logged-in player under this room. */
    method Admit(p: Player)
      requires players.Valid() && p.userId in players.login && players.login[p.userId] == p
      modifies this, p
      ensures players.Valid()
      ensures p.room == this && p.session == old(p.session) && p.userId == old(p.userId)
      ensures allPlayer == old(allPlayer)[p.userId := p]
      ensures players.LoginView() == old(players.LoginView())[p.userId := Entry(p.session, Some(this))]
      ensures players.OnlineView() == old(players.OnlineView())
    {
      hide PlayerManager.LoginView, PlayerManager.OnlineView;
      players.DistinctPlayers(p.userId);
      p.room := this;
      players.LoginViewUpdated(p.userId);
      players.OnlineViewFollows(None);
      allPlayer := allPlayer[p.userId := p];
    }

    /** add_player. */
    method AddPlayer(u: UserId, s: Session) returns (player: Player?)
      requires players.Valid()
      modifies this, players, if u in players.login then {players.login[u]} else {}
      ensures players.Valid()
      ensures u in old(allPlayer) ==>
                && player == old(allPlayer[u]) && allPlayer == old(allPlayer)
                && players.login == old(players.login) && players.online == old(players.online)
                && (u in players.login ==> unchanged(players.login[u]))
      ensures u !in old(allPlayer) && u !in old(players.login) ==>
                && player != null && fresh(player)
                && player.userId == u && player.session == Some(s) && player.room == this
                && players.login == old(players.login)[u := player]
                && players.online == old(players.online)[s := player]
                && allPlayer == old(allPlayer)[u := player]
      ensures u !in old(allPlayer) && u in old(players.login) ==>
                var p := old(players.login[u]);
                && players.login == old(players.login) && players.online == old(players.online)
                && p.session == old(p.session) && p.userId == old(p.userId)
                && (old(p.room) == null ==> player == p && p.room == this && allPlayer == old(allPlayer)[u := p])
                && (old(p.room) != null ==> player == null && p.room == old(p.room) && allPlayer == old(allPlayer))
      ensures old(u in allPlayer ==> u in players.login && players.login[u].room == this) ==>
                players.View() == Step(old(players.View()), Enter(u, s, this))
    {
      hide PlayerManager.LoginView, PlayerManager.OnlineView;
      if u !in allPlayer {
        players.ViewAt(u);
        var newPlayer := players.MakePlayer(u, s);
        if newPlayer == null { return null; }
        players.ViewAt(u);
        Admit(newPlayer);
        return newPlayer;
      }
      players.ViewAt(u);
      return allPlayer[u];
    }

    /** destroy_player, called on a member of the room. */
    method DestroyPlayer(p: Player)
      requires players.Valid() && p.userId in players.login
      modifies this, players
      ensures players.Valid()
      ensures allPlayer == old(allPlayer) - {p.userId}
      ensures players.login == old(players.login) - {p.userId}
      ensures players.online == Forget(old(players.online), old(players.login[p.userId].session))
      ensures old(players.login[p.userId].room) != null ==>
                players.View() == Step(old(players.View()), Leave(p.userId))
    {
      hide PlayerManager.LoginView, PlayerManager.OnlineView;
      players.ViewAt(p.userId);
      allPlayer := allPlayer - {p.userId};
      players.DestroyPlayer(p);
    }
  }

  /** The whole server: the manager and the rooms filed under their ids (m_game_room). Each operation is
      one step of the value machine. */
  class Server {
    const players: PlayerManager
    var gameRooms: map<int, GameRoom>
    ghost var rooms: set<GameRoom>

    constructor ()
      ensures Valid() && View() == Initial() && gameRooms == map[] && rooms == {}
      ensures fresh(players) && players.login == map[] && players.online == map[]
    {
      players := new PlayerManager();
      gameRooms, rooms := map[], {};
    }

    /** The three tables agree: a user is in a room's table if and only if its login player names that
        room, and then it is the same object. */
    ghost predicate Valid()
      reads this, players, rooms, players.login.Values, players.online.Values
    {
      && players.Valid()
      && (forall id :: id in gameRooms ==> gameRooms[id] in rooms && gameRooms[id].roomId == id)
      && (forall r :: r in rooms ==> r.players == players && r.roomId in gameRooms && gameRooms[r.roomId] == r)
      && (forall u :: u in players.login && players.login[u].room != null ==> players.login[u].room in rooms)
      && (forall r, u :: r in rooms ==>
            (u in r.allPlayer <==> u in players.login && players.login[u].room == r))
      && (forall r, u :: r in rooms && u in r.allPlayer && u in players.login ==> r.allPlayer[u] == players.login[u])
      && Inv(View())
    }

    ghost function View(): State<GameRoom>
      reads this, players, players.login.Values, players.online.Values
    {
      players.View()
    }

    /** RoomManager::add_room: a new, empty room, filed unless its id is taken. */
    method AddRoom(id: int) returns (room: GameRoom)
      requires Valid()
      modifies this
      ensures Valid() && View() == old(View()) && fresh(room) && room.roomId == id
      ensures id in old(gameRooms) ==> gameRooms == old(gameRooms) && rooms == old(rooms)
      ensures id !in old(gameRooms) ==> gameRooms == old(gameRooms)[id := room] && rooms == old(rooms) + {room}
    {
      hide Inv, PlayerManager.View, PlayerManager.Valid;
      room := new GameRoom(id, players);
      if id !in gameRooms {
        gameRooms := gameRooms[id := room];
        rooms := rooms + {room};
      }
    }

    /** A token login that passed its checks. */
    method Login(u: UserId, s: Session)
      requires Valid()
      modifies players, players.login.Values
      ensures Valid() && View() == Step(old(View()), Event.Login(u, s)) && rooms == old(rooms)
      ensures forall p :: p in players.login.Values ==> p in old(players.login.Values) || fresh(p)
    {
      hide Inv, Step, PlayerManager.View;
      StepKeepsInv(View(), Event.Login(u, s));
      var shutdown := players.AddUserSession(u, s);
    }

    /** The close notification of a session. */
    method Close(s: Session)
      requires Valid()
      modifies players, players.online.Values
      ensures Valid() && View() == Step(old(View()), Event.Close(s)) && rooms == old(rooms)
      ensures forall p :: p in players.login.Values ==> p in old(players.login.Values) || fresh(p)
    {
      hide Inv, Step, PlayerManager.View;
      StepKeepsInv(View(), Event.Close(s));
      players.OnSessionClose(s);
    }

    /** A user enters a room. */
    method Enter(room: GameRoom, u: UserId, s: Session) returns (player: Player?)
      requires Valid() && room in rooms
      modifies players, room, players.login.Values
      ensures Valid() && View() == Step(old(View()), Event.Enter(u, s, room)) && rooms == old(rooms)
      ensures forall p :: p in players.login.Values ==> p in old(players.login.Values) || fresh(p)
      ensures player != null <==> u in players.login && players.login[u].room == room
      ensures player != null ==> player == players.login[u] == room.allPlayer[u]
    {
      hide Inv, Step, PlayerManager.View;
      StepKeepsInv(View(), Event.Enter(u, s, room));
      player := room.AddPlayer(u, s);
    }

    /** A member leaves its room. */
    method Leave(room: GameRoom, p: Player)
      requires Valid() && room in rooms
      requires p.userId in room.allPlayer && room.allPlayer[p.userId] == p
      modifies players, room
      ensures Valid() && View() == Step(old(View()), Event.Leave(p.userId)) && rooms == old(rooms)
      ensures old(p.userId) !in players.login && players.login.Values <= old(players.login.Values)
    {
      hide Inv, Step, PlayerManager.View;
      StepKeepsInv(View(), Event.Leave(p.userId));
      room.DestroyPlayer(p);
    }

    /** In an exact state both tables answer the online queries alike. */
    lemma OnlineQueriesAgree(u: UserId, s: Session)
      requires Valid() && Exact(View())
      ensures players.CheckPlayerSession(u, s) <==> s in players.online && players.online[s].userId == u
      ensures players.IsPlayerOnline(u) <==> exists t :: t in players.online && players.online[t].userId == u
    {
      hide PlayerManager.LoginView, PlayerManager.OnlineView;
      players.QueriesReadView(u, s);
      QueriesAgree(View(), u, s);
      players.OnlineAt(s);
      if players.IsPlayerOnline(u) {
        var t := players.RecvSession(u).value;
        players.QueriesReadView(u, t);
        QueriesAgree(View(), u, t);
        players.OnlineAt(t);
      }
    }

    /** is_player_in_room: the room is the only one whose table holds the user. */
    method IsPlayerInRoom(u: UserId) returns (roomId: Option<int>)
      requires Valid()
      ensures roomId.Some? ==> roomId.value in gameRooms && u in gameRooms[roomId.value].allPlayer
      ensures forall id :: id in gameRooms && u in gameRooms[id].allPlayer ==> roomId == Some(id)
    {
      roomId := None;
      if u in players.login && players.login[u].room != null {
        roomId := Some(players.login[u].room.roomId);
      }
    }

    /** One event of any kind; Leave reaches destroy_player only for a member of a room. */
    method Handle(e: Event<GameRoom>)
      requires Valid() && (e.Enter? ==> e.room in rooms)
      modifies players, rooms, players.login.Values
      ensures Valid() && View() == Step(old(View()), e) && rooms == old(rooms)
      ensures forall p :: p in players.login.Values ==> p in old(players.login.Values) || fresh(p)
    {
      hide Inv, Step, PlayerManager.View;
      match e {
        case Login(u, s) => Login(u, s);
        case Close(s) =>
          OnlineAreLogin();
          Close(s);
        case Enter(u, s, r) => var p := Enter(r, u, s);
        case Leave(u) =>
          if u in players.login && players.login[u].room != null {
            Leave(players.login[u].room, players.login[u]);
          } else {
            NoSuchMember(u);
          }
      }
    }

    lemma OnlineAreLogin()
      requires Valid()
      ensures players.online.Values <= players.login.Values
    {
    }

    lemma NoSuchMember(u: UserId)
      requires !(u in players.login && players.login[u].room != null)
      ensures Step(View(), Event.Leave(u)) == View()
    {
    }

    /** Every run over the objects stays valid and follows the value machine event by event. */
    method Run(events: seq<Event<GameRoom>>)
      requires Valid() && forall k :: 0 <= k < |events| && events[k].Enter? ==> events[k].room in rooms
      modifies players, rooms, players.login.Values
      ensures Valid() && View() == Registry.Run(old(View()), events)
      ensures rooms == old(rooms) && gameRooms == old(gameRooms)
      ensures forall p :: p in players.login.Values ==> p in old(players.login.Values) || fresh(p)
    {
      hide Valid, View, Step;
      var i := 0;
      assert events[0..] == events;
      while i < |events|
        invariant 0 <= i <= |events| && Valid() && rooms == old(rooms)
        invariant Registry.Run(View(), events[i..]) == Registry.Run(old(View()), events)
        invariant forall p :: p in players.login.Values ==> p in old(players.login.Values) || fresh(p)
      {
        assert events[i..][1..] == events[i + 1..];
        Handle(events[i]);
        i := i + 1;
      }
    }
  }

  ghost function EntryOf(p: Player): Entry<GameRoom>
    reads p
  {
    Entry(p.session, if p.room == null then None else Some(p.room))
  }

  /** An event that names its room by id, on the room filed under it. */
  function Placed(rooms: map<int, GameRoom>, e: Event<int>): Event<GameRoom>
    requires e.Enter? ==> e.room in rooms
  {
    match e
    case Login(u, s) => Login(u, s)
    case Close(s) => Close(s)
    case Enter(u, s, id) => Enter(u, s, rooms[id])
    case Leave(u) => Leave(u)
  }

  function RoomIds(events: seq<Event<int>>): set<int> { set e | e in events && e.Enter? :: e.room }

  function AllPlaced(rooms: map<int, GameRoom>, events: seq<Event<int>>): (placed: seq<Event<GameRoom>>)
    requires RoomIds(events) <= rooms.Keys
    ensures |placed| == |events| && forall k :: 0 <= k < |events| ==> placed[k] == Placed(rooms, events[k])
  {
    seq(|events|, k requires 0 <= k < |events| => Placed(rooms, events[k]))
  }

  /** A new server that opens its rooms. */
  method OpenRooms(ids: seq<int>) returns (server: Server)
    ensures fresh(server) && fresh(server.players) && fresh(server.rooms)
    ensures server.Valid() && server.View() == Initial() && server.players.login == map[]
    ensures server.gameRooms.Keys == set id | id in ids
  {
    hide Inv, PlayerManager.View, PlayerManager.Valid;
    server := new Server();
    for i := 0 to |ids|
      invariant fresh(server) && fresh(server.players) && fresh(server.rooms)
      invariant server.Valid() && server.View() == Initial() && server.players.login == map[]
      invariant server.gameRooms.Keys == set id | id in ids[..i]
    {
      assert ids[..i + 1] == ids[..i] + [ids[i]];
      var room := server.AddRoom(ids[i]);
    }
    assert ids[..|ids|] == ids;
  }

  /** From a new server through any run in the rooms it opened: the state is the machine's from the empty
      one, the invariant holds, and in a clean run the session table is the inverse of the session fields. */
  method ServeFromStart(ids: seq<int>, events: seq<Event<int>>) returns (server: Server)
    requires RoomIds(events) <= set id | id in ids
    ensures fresh(server) && server.Valid() && server.gameRooms.Keys == set id | id in ids
    ensures var placed := AllPlaced(server.gameRooms, events);
            && server.View() == Run(Initial(), placed) && Inv(server.View())
            && (CleanRun(Initial(), placed) ==> Exact(server.View()))
  {
    hide Inv, CleanRun, Exact, PlayerManager.View, PlayerManager.Valid;
    server := OpenRooms(ids);
    var placed := AllPlaced(server.gameRooms, events);
    InitialInv<GameRoom>();
    RunKeepsInv(Initial<GameRoom>(), placed);
    if CleanRun(Initial(), placed) { CleanRunKeepsExact(Initial<GameRoom>(), placed); }
    server.Run(placed);
  }
}
