/** The bounded table of live sessions in server/common/libserver/ServerSessionManager.cpp: first as a
    machine over values, then over the session objects. */
module SessionTable {
  import opened Options

  const INT_MAX: int := 0x7fff_ffff

  // ----- the machine

  datatype Event<S(==)> =
    | Add(session: S)
    | Close(session: S)
    | Sweep(expired: set<S>)

  /** The table, the id each session carries once it has been offered or closed, and every id issued. */
  datatype State<S(==)> = State(limit: nat, current: int, table: map<int, S>, ids: map<S, int>, issued: seq<int>)

  function Initial<S>(limit: nat): State<S> { State(limit, 0, map[], map[], []) }

  /** A session carries 0 until it is given an id. */
  function Carried<S>(s: State<S>, x: S): int { if x in s.ids then s.ids[x] else 0 }

  function Step<S>(s: State<S>, e: Event<S>): State<S> {
    match e
    case Add(x) =>
      if |s.table| >= s.limit then s.(ids := s.ids[x := Carried(s, x)])
      else
        var id := s.current + 1 % INT_MAX;
        State(s.limit, id, Inserted(s.table, id, x), s.ids[x := id], s.issued + [id])
    case Close(x) => s.(table := s.table - {Carried(s, x)}, ids := s.ids[x := -1])
    case Sweep(expired) => s.(table := map id | id in s.table && s.table[id] !in expired :: s.table[id])
  }

  /** A map's insert keeps what is there already. */
  function Inserted<S>(table: map<int, S>, id: int, x: S): map<int, S> {
    if id in table then table else table[id := x]
  }

  function Run<S>(s: State<S>, events: seq<Event<S>>): State<S>
    decreases |events|
  {
    if events == [] then s else Run(Step(s, events[0]), events[1..])
  }

  /** The ids count up from 1. */
  ghost predicate InOrder(issued: seq<int>) { forall k :: 0 <= k < |issued| ==> issued[k] == k + 1 }

  /** No two sessions carry the same issued id, and none one that is not yet issued. */
  ghost predicate Distinct<S>(s: State<S>) {
    && (forall x :: x in s.ids ==> s.ids[x] <= s.current)
    && (forall x, y :: x in s.ids && y in s.ids && x != y && s.ids[x] > 0 ==> s.ids[x] != s.ids[y])
  }

  /** Keys are issued ids. */
  ghost predicate Filed<S>(s: State<S>) {
    forall id :: id in s.table ==> 0 < id <= s.current && s.table[id] in s.ids
  }

  /** What every run keeps. */
  ghost predicate Inv<S>(s: State<S>) {
    s.current == |s.issued| && InOrder(s.issued) && |s.table| <= s.limit && Filed(s) && Distinct(s)
  }

  /** Every session is filed under the id it carries. */
  ghost predicate Exact<S>(s: State<S>) {
    forall id :: id in s.table ==> Carried(s, s.table[id]) == id
  }

  /** The event admits no session that is in the table already. */
  predicate Clean<S>(s: State<S>, e: Event<S>) {
    e.Add? && |s.table| < s.limit ==> Carried(s, e.session) !in s.table
  }

  lemma StepKeepsInv<S>(s: State<S>, e: Event<S>)
    requires Inv(s)
    ensures Inv(Step(s, e))
    ensures s.issued <= Step(s, e).issued
    ensures e.Add? && |s.table| < s.limit ==>
              var id := s.current + 1;
              id !in s.issued && id !in s.table && Step(s, e).issued == s.issued + [id]
  {
    DistinctKept(s, e);
    FiledKept(s, e);
    SizeKept(s, e);
    NextUnused(s);
    hide Distinct, Filed;
  }

  lemma NextUnused<S>(s: State<S>)
    requires Filed(s) && InOrder(s.issued) && s.current == |s.issued|
    ensures s.current + 1 !in s.table && s.current + 1 !in s.issued
  {
  }

  lemma DistinctKept<S>(s: State<S>, e: Event<S>)
    requires Distinct(s) && s.current >= 0
    ensures Distinct(Step(s, e))
  {
    hide Inserted;
  }

  lemma FiledKept<S>(s: State<S>, e: Event<S>)
    requires Filed(s) && s.current >= 0
    ensures Filed(Step(s, e))
  {
  }

  lemma SizeKept<S>(s: State<S>, e: Event<S>)
    requires |s.table| <= s.limit
    ensures |Step(s, e).table| <= s.limit
  {
    var n := Step(s, e);
    if !e.Add? {
      Shrunk(n.table, s.table);
    } else if |s.table| < s.limit {
      var id := s.current + 1;
      assert n.table.Keys == s.table.Keys + {id};
    }
  }

  lemma {:induction false} Shrunk<S>(part: map<int, S>, whole: map<int, S>)
    requires part.Keys <= whole.Keys
    ensures |part| <= |whole|
  {
    SubsetSize(part.Keys, whole.Keys);
  }

  lemma {:induction false} SubsetSize(a: set<int>, b: set<int>)
    requires a <= b
    ensures |a| <= |b|
  {
    if a != {} {
      var x := Member(a);
      SubsetSize(a - {x}, b - {x});
    }
  }

  /** Over every run of adds, closes and sweeps, whatever they name. */
  lemma {:induction false} RunKeepsInv<S>(s: State<S>, events: seq<Event<S>>)
    requires Inv(s)
    ensures Inv(Run(s, events)) && s.issued <= Run(s, events).issued
    decreases |events|
  {
    hide Inv;
    if events != [] {
      StepKeepsInv(s, events[0]);
      RunKeepsInv(Step(s, events[0]), events[1..]);
    }
  }

  /** An event issues at most one id. */
  lemma {:induction false} IssuedAtMost<S>(s: State<S>, events: seq<Event<S>>)
    ensures |Run(s, events).issued| <= |s.issued| + |events|
    decreases |events|
  {
    if events != [] {
      IssuedAtMost(Step(s, events[0]), events[1..]);
    }
  }

  lemma InitialInv<S>(limit: nat)
    ensures Inv<S>(Initial(limit)) && Exact<S>(Initial(limit))
  {
  }

  /** The table's promise: in every run the issued ids are positive and pairwise distinct, closed and
      swept ones included; the table keeps to its limit and holds issued ids only; and no two sessions
      carry the same id. */
  lemma IdsNeverReused<S>(limit: nat, events: seq<Event<S>>)
    ensures var s := Run(Initial(limit), events);
            && (forall k :: 0 <= k < |s.issued| ==> s.issued[k] > 0)
            && (forall j, k :: 0 <= j < k < |s.issued| ==> s.issued[j] != s.issued[k])
            && |s.table| <= limit && (forall id :: id in s.table ==> id in s.issued)
            && (forall x, y :: x in s.ids && y in s.ids && x != y && s.ids[x] > 0 ==> s.ids[x] != s.ids[y])
  {
    InitialInv<S>(limit);
    RunKeepsInv<S>(Initial(limit), events);
    RunKeepsLimit<S>(Initial(limit), events);
    var s := Run(Initial(limit), events);
    forall id | id in s.table
      ensures id in s.issued
    {
      assert s.issued[id - 1] == id;
    }
  }

  lemma {:induction false} RunKeepsLimit<S>(s: State<S>, events: seq<Event<S>>)
    ensures Run(s, events).limit == s.limit
    decreases |events|
  {
    if events != [] {
      RunKeepsLimit(Step(s, events[0]), events[1..]);
    }
  }

  /** A step keeps every session filed under its own id if and only if it admits none that is filed. */
  lemma ExactIffClean<S>(s: State<S>, e: Event<S>)
    requires Inv(s) && Exact(s)
    ensures Exact(Step(s, e)) <==> Clean(s, e)
  {
    var n := Step(s, e);
    if !Clean(s, e) {
      var was := Carried(s, e.session);
      assert s.table[was] == e.session;
      assert n.table[was] == e.session && Carried(n, e.session) != was;
    }
  }

  ghost predicate CleanRun<S>(s: State<S>, events: seq<Event<S>>)
    decreases |events|
  {
    events != [] ==> Clean(s, events[0]) && CleanRun(Step(s, events[0]), events[1..])
  }

  lemma {:induction false} CleanRunKeepsExact<S>(s: State<S>, events: seq<Event<S>>)
    requires Inv(s) && Exact(s) && CleanRun(s, events)
    ensures Exact(Run(s, events))
    decreases |events|
  {
    hide Inv, Exact, Clean;
    if events != [] {
      StepKeepsInv(s, events[0]);
      ExactIffClean(s, events[0]);
      CleanRunKeepsExact(Step(s, events[0]), events[1..]);
    }
  }

  /** No session is offered twice. */
  ghost predicate OfferedOnce<S>(events: seq<Event<S>>) {
    forall j, k :: 0 <= j < k < |events| && events[j].Add? && events[k].Add? ==> events[j].session != events[k].session
  }

  /** No later event offers a session that is filed now. */
  ghost predicate NoneFiled<S>(s: State<S>, events: seq<Event<S>>) {
    forall k, id :: 0 <= k < |events| && events[k].Add? && id in s.table ==> s.table[id] != events[k].session
  }

  lemma {:induction false} OfferedOnceIsClean<S>(s: State<S>, events: seq<Event<S>>)
    requires Inv(s) && Exact(s) && OfferedOnce(events) && NoneFiled(s, events)
    ensures CleanRun(s, events)
    decreases |events|
  {
    if events != [] {
      var e, rest := events[0], events[1..];
      assert Clean(s, e) by {
        if e.Add? && Carried(s, e.session) in s.table {
          FiledIsItself(s, e.session);
        }
      }
      ExactIffClean(s, e);
      StepKeepsInv(s, e);
      LaterUnfiled(s, events);
      assert forall k :: 0 <= k < |rest| ==> rest[k] == events[k + 1];
      OfferedOnceIsClean(Step(s, e), rest);
    }
  }

  lemma LaterUnfiled<S>(s: State<S>, events: seq<Event<S>>)
    requires OfferedOnce(events) && NoneFiled(s, events) && events != []
    ensures NoneFiled(Step(s, events[0]), events[1..])
  {
    var e, rest := events[0], events[1..];
    assert forall k :: 0 <= k < |rest| ==> rest[k] == events[k + 1];
  }

  /** Of the sessions offered or closed, the one filed under an id is the only one to carry it. */
  lemma FiledIsItself<S>(s: State<S>, x: S)
    requires Inv(s) && Exact(s) && Carried(s, x) in s.table
    ensures s.table[Carried(s, x)] == x
  {
  }

  /** When the server offers each accepted session once, keys and carried ids agree in every run. */
  lemma OfferedOnceKeepsExact<S>(limit: nat, events: seq<Event<S>>)
    requires OfferedOnce(events)
    ensures Exact(Run(Initial(limit), events))
    ensures var s := Run(Initial(limit), events);
            forall x :: x in s.ids && s.ids[x] in s.table ==> s.table[s.ids[x]] == x
  {
    InitialInv<S>(limit);
    OfferedOnceIsClean<S>(Initial(limit), events);
    CleanRunKeepsExact<S>(Initial(limit), events);
    RunKeepsInv<S>(Initial(limit), events);
    var s := Run(Initial(limit), events);
    forall x | x in s.ids && s.ids[x] in s.table
      ensures s.table[s.ids[x]] == x
    {
      FiledIsItself(s, x);
    }
  }

  /** Offering one session twice, with room for two, leaves a key its session does not carry. */
  lemma SecondOfferBreaksExact<S>(x: S, limit: nat)
    requires limit >= 2
    ensures !Exact(Run(Initial(limit), [Add(x), Add(x)]))
  {
    var events := [Add(x), Add(x)];
    var one := Step(Initial(limit), events[0]);
    var two := Step(one, events[1]);
    assert one == State(limit, 1, map[1 := x], map[x := 1], [1]);
    assert two.table[1] == x && two.ids[x] == 2;
    assert events[1..] == [Add(x)] && [Add(x)][1..] == [];
    assert Run(one, [Add(x)]) == Run(two, []);
  }

  // ----- the objects

  /** The part of TcpSession the table touches. */
  class TcpSession {
    var sessionId: int
    var started: bool
    var closed: bool

    constructor ()
      ensures sessionId == 0 && !started && !closed
    {
      sessionId, started, closed := 0, false, false;
    }
  }

  class SessionManager {
    const maxSessionCount: nat
    var currentSession: int
    var sessionAll: map<int, TcpSession>
    /** Every session offered or closed so far. */
    ghost var known: set<TcpSession>
    /** Every id given out so far, in order. */
    ghost var issued: seq<int>

    constructor (limit: nat)
      ensures Valid() && View() == Initial(limit) && known == {}
    {
      maxSessionCount, currentSession, sessionAll := limit, 0, map[];
      known, issued := {}, [];
    }

    ghost function View(): State<TcpSession>
      reads this, known
    {
      State(maxSessionCount, currentSession, sessionAll, map x | x in known :: x.sessionId, issued)
    }

    ghost predicate Valid()
      reads this, known
    {
      Inv(View())
    }

    /** A session this manager has not met carries no id. */
    ghost predicate Offerable(session: TcpSession)
      reads this, session
    {
      session !in known ==> session.sessionId == 0
    }

    /** do_add_session: turned away at the limit, else given the next id and filed under it. The modulus
        binds tighter than the sum, so the id is a plain increment. INT_MAX ids can be issued. */
    method AddSession(session: TcpSession)
      requires Valid() && Offerable(session)
      requires |sessionAll| < maxSessionCount ==> currentSession < INT_MAX
      modifies this, session
      ensures Valid() && View() == Step(old(View()), Add(session)) && known == old(known) + {session}
      ensures old(|sessionAll|) >= maxSessionCount ==>
                && session.closed && session.started == old(session.started)
                && session.sessionId == old(session.sessionId)
                && sessionAll == old(sessionAll) && currentSession == old(currentSession) && issued == old(issued)
      ensures old(|sessionAll|) < maxSessionCount ==>
                && session.sessionId !in old(issued) && issued == old(issued) + [session.sessionId]
                && session.sessionId !in old(sessionAll) && sessionAll == old(sessionAll)[session.sessionId := session]
                && session.started && session.closed == old(session.closed)
      ensures old(Exact(View())) ==> (Exact(View()) <==> old(Clean(View(), Add(session))))
    {
      hide Inv, Exact, Clean, Step;
      ghost var was := View();
      if |sessionAll| >= maxSessionCount {
        TurnAway(session);
      } else {
        Admit(session);
      }
      StepKeepsInv(was, Add(session));
      StepsUnfolded(was, session);
      if Exact(was) { ExactIffClean(was, Add(session)); }
    }

    /** At the limit. */
    method TurnAway(session: TcpSession)
      requires Offerable(session)
      modifies this`known, session`closed
      ensures known == old(known) + {session} && session.closed
      ensures View() == old(View()).(ids := old(View().ids)[session := session.sessionId])
    {
      ghost var ids := View().ids;
      known := known + {session};
      session.closed := true;
      assert View().ids == ids[session := session.sessionId];
    }

    /** Below the limit. */
    method Admit(session: TcpSession)
      requires Offerable(session) && currentSession < INT_MAX
      modifies this, session
      ensures known == old(known) + {session}
      ensures session.started && session.closed == old(session.closed) && session.sessionId == old(currentSession) + 1
      ensures View() == State(maxSessionCount, session.sessionId, Inserted(old(sessionAll), session.sessionId, session),
                              old(View().ids)[session := session.sessionId], old(issued) + [session.sessionId])
    {
      ghost var ids := View().ids;
      known := known + {session};
      currentSession := currentSession + 1 % INT_MAX;
      session.sessionId := currentSession;
      issued := issued + [currentSession];
      if currentSession !in sessionAll {
        sessionAll := sessionAll[currentSession := session];
      }
      session.started := true;
      assert View().ids == ids[session := session.sessionId];
    }

    /** do_close_session. A session that is in the table leaves it; any other close, a second one
        included, removes nothing. */
    method CloseSession(session: TcpSession)
      requires Valid() && Offerable(session)
      modifies this, session
      ensures Valid() && View() == Step(old(View()), Close(session)) && known == old(known) + {session}
      ensures session.sessionId == -1
      ensures sessionAll == old(sessionAll) - {old(session.sessionId)}
      ensures currentSession == old(currentSession) && issued == old(issued)
      ensures old(Exact(View())) ==>
                && Exact(View()) && (forall id :: id in sessionAll ==> sessionAll[id] != session)
                && (old(session.sessionId) in old(sessionAll) ==> old(sessionAll[session.sessionId]) == session)
    {
      hide Inv, Exact, Step;
      ghost var was := View();
      Forget(session);
      StepKeepsInv(was, Close(session));
      StepsUnfolded(was, session);
      if Exact(was) { CloseRemoves(was, session); }
    }

    /** The statements of do_close_session. */
    method Forget(session: TcpSession)
      requires Offerable(session)
      modifies this, session
      ensures known == old(known) + {session} && session.sessionId == -1
      ensures View() == old(View()).(table := old(sessionAll) - {old(session.sessionId)},
                                     ids := old(View().ids)[session := -1])
    {
      ghost var ids := View().ids;
      known := known + {session};
      sessionAll := sessionAll - {session.sessionId};
      session.sessionId := -1;
      assert View().ids == ids[session := -1];
    }

    /** A session closed twice: the second close changes nothing. */
    method CloseTwice(session: TcpSession)
      requires Valid() && Offerable(session)
      modifies this, session
      ensures Valid() && View() == Step(old(View()), Close(session))
    {
      hide Inv, Exact, Step, View;
      CloseAgain(View(), session);
      CloseSession(session);
      CloseSession(session);
    }

    /** check_session_alive: exactly the entries whose session has expired go. */
    method CheckSessionAlive(expired: set<TcpSession>)
      requires Valid()
      modifies this`sessionAll
      ensures Valid() && View() == Step(old(View()), Sweep(expired))
      ensures forall id :: id in sessionAll <==> id in old(sessionAll) && old(sessionAll)[id] !in expired
      ensures forall id :: id in sessionAll ==> sessionAll[id] == old(sessionAll)[id]
      ensures old(Exact(View())) ==> Exact(View())
    {
      hide Inv, Exact;
      ghost var was := View();
      EraseExpired(expired);
      StepKeepsInv(was, Sweep(expired));
      if Exact(was) { ExactIffClean(was, Sweep(expired)); }
      assert View() == Step(was, Sweep(expired));
    }

    /** Any run over the objects that issues no more than INT_MAX ids follows the machine, so its ids are
        all different. */
    method Serve(events: seq<Event<TcpSession>>)
      requires Valid() && (forall x :: x in Sessions(events) ==> Offerable(x))
      requires |Run(View(), events).issued| <= INT_MAX
      modifies this, Sessions(events)
      ensures Valid() && View() == Run(old(View()), events) && known == old(known) + Sessions(events)
      ensures forall j, k :: 0 <= j < k < |issued| ==> issued[j] != issued[k]
    {
      hide Inv, Exact, Step;
      var i := 0;
      ghost var last := Run(View(), events);
      assert events[0..] == events;
      while i < |events|
        invariant 0 <= i <= |events|
        invariant Valid() && Run(View(), events[i..]) == last
        invariant forall x :: x in Sessions(events) ==> Offerable(x)
        invariant known == old(known) + Sessions(events[..i])
      {
        var e := events[i];
        assert events[i..][1..] == events[i + 1..];
        assert !e.Sweep? ==> e.session in Sessions(events);
        assert events[..i + 1] == events[..i] + [e];
        match e {
          case Add(x) =>
            IdsLeft(View(), events[i..]);
            AddSession(x);
          case Close(x) =>
            CloseSession(x);
          case Sweep(expired) =>
            CheckSessionAlive(expired);
        }
        i := i + 1;
      }
      assert events[..i] == events;
      IssuedDiffer(View());
    }

    /** The loop of check_session_alive. */
    method EraseExpired(expired: set<TcpSession>)
      modifies this`sessionAll
      ensures sessionAll == map id | id in old(sessionAll) && old(sessionAll)[id] !in expired :: old(sessionAll)[id]
    {
      var keys := sessionAll.Keys;
      ghost var was := sessionAll;
      while keys != {}
        invariant keys <= was.Keys
        invariant sessionAll == map id | id in was && (id in keys || was[id] !in expired) :: was[id]
        decreases |keys|
      {
        assert exists id :: id in keys by { var some := Member(keys); }
        var id :| id in keys;
        keys := keys - {id};
        if sessionAll[id] in expired {
          sessionAll := sessionAll - {id};
        }
      }
    }
  }

  lemma IssuedDiffer<S>(s: State<S>)
    requires Inv(s)
    ensures forall j, k :: 0 <= j < k < |s.issued| ==> s.issued[j] != s.issued[k]
  {
  }

  ghost function Sessions<S>(events: seq<Event<S>>): set<S> {
    set e | e in events && !e.Sweep? :: e.session
  }

  /** There is an id left for every admission of the run. */
  lemma IdsLeft<S>(s: State<S>, events: seq<Event<S>>)
    requires Inv(s) && events != [] && events[0].Add? && |Run(s, events).issued| <= INT_MAX
    ensures |s.table| < s.limit ==> s.current < INT_MAX
  {
    StepKeepsInv(s, events[0]);
    RunKeepsInv(Step(s, events[0]), events[1..]);
  }

  lemma NegativeUnfiled<S>(s: State<S>)
    requires Inv(s)
    ensures -1 !in s.table
  {
  }

  lemma SameMap<K, V>(m: map<K, V>, n: map<K, V>)
    requires forall k :: k in m <==> k in n
    requires forall k :: k in m ==> m[k] == n[k]
    ensures m == n
  {
  }

  lemma CloseAgain<S>(s: State<S>, x: S)
    requires Inv(s)
    ensures var once := Step(s, Close(x)); Step(once, Close(x)) == once
  {
    hide Inv, Step;
    var once := Step(s, Close(x));
    StepKeepsInv(s, Close(x));
    StepsUnfolded(s, x);
    StepsUnfolded(once, x);
    NegativeUnfiled(once);
    SameMap(once.table, once.table - {-1});
    SameMap(once.ids, once.ids[x := -1]);
  }

  /** The step of a session that is let in, of one turned away, and of a close. */
  lemma StepsUnfolded<S>(s: State<S>, x: S)
    requires Inv(s)
    ensures Step(s, Add(x)) ==
            if |s.table| >= s.limit then s.(ids := s.ids[x := Carried(s, x)])
            else
              var id := s.current + 1;
              State(s.limit, id, s.table[id := x], s.ids[x := id], s.issued + [id])
    ensures Step(s, Close(x)) == s.(table := s.table - {Carried(s, x)}, ids := s.ids[x := -1])
    ensures s.current + 1 !in s.table && s.current + 1 !in s.issued
  {
    NextUnused(s);
  }

  /** A close takes out the session it names and no other. */
  lemma CloseRemoves<S>(s: State<S>, x: S)
    requires Inv(s) && Exact(s)
    ensures Exact(Step(s, Close(x)))
    ensures forall id :: id in Step(s, Close(x)).table ==> s.table[id] != x
    ensures Carried(s, x) in s.table ==> s.table[Carried(s, x)] == x
  {
    ExactIffClean(s, Close(x));
    if Carried(s, x) in s.table { FiledIsItself(s, x); }
  }

  /** A new manager serves any list of at most INT_MAX events on new sessions. */
  method ServeFromStart(limit: nat, events: seq<Event<TcpSession>>) returns (manager: SessionManager)
    requires |events| <= INT_MAX && forall x :: x in Sessions(events) ==> x.sessionId == 0
    modifies Sessions(events)
    ensures fresh(manager) && manager.Valid() && manager.View() == Run(Initial(limit), events)
    ensures OfferedOnce(events) ==> Exact(manager.View())
  {
    hide Inv, Exact, OfferedOnce, Step;
    manager := new SessionManager(limit);
    IssuedAtMost<TcpSession>(Initial(limit), events);
    if OfferedOnce(events) { OfferedOnceKeepsExact<TcpSession>(limit, events); }
    manager.Serve(events);
  }
}
