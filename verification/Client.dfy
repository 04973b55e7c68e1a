/** The write loop of server/common/libclient/Client.cpp: at most one asynchronous write at a time, the
    next one started by the completion of the last. */
module Client {
  import opened Options
  import opened SendQueue

  /** What the client and the network hold: messages accepted into the queue, messages whose write
      completed, and the writes handed to the socket and not yet completed. */
  datatype State<+M> = State(connected: bool, ring: Ring<M>, outstanding: seq<M>,
                             accepted: seq<M>, completed: seq<M>, failed: bool)

  datatype Event<+M> =
    | Connected
    | ConnectFailed
    | ReadFailed
    | Send(msg: M)
    | WriteOk
    | WriteFailed

  /** The socket reports a completion only for a write it was given. */
  predicate Enabled<M>(st: State<M>, e: Event<M>) {
    e.WriteOk? || e.WriteFailed? ==> st.outstanding != []
  }

  function Step<M>(st: State<M>, e: Event<M>): State<M>
    requires Enabled(st, e)
  {
    match e
    case Connected => st.(connected := true)
    case ConnectFailed => st.(connected := false)
    case ReadFailed => st.(connected := false)
    case Send(msg) =>
      if !st.connected then st
      else
        var inWrite := st.ring.contents != [];
        var (ok, ring) := Push(st.ring, msg);
        st.(ring := ring,
            accepted := if ok then st.accepted + [msg] else st.accepted,
            outstanding := if inWrite then st.outstanding else st.outstanding + [msg])
    case WriteOk =>
      var ring := if st.ring.contents == [] then st.ring else st.ring.PopFront();
      var left := st.outstanding[1..];
      st.(ring := ring,
          completed := st.completed + [st.outstanding[0]],
          outstanding := if ring.contents == [] then left else left + [ring.contents[0]])
    case WriteFailed =>
      st.(connected := false, outstanding := st.outstanding[1..], failed := true)
  }

  function Initial<M>(): State<M> {
    State(false, Ring([], INIT_SIZE), [], [], [], false)
  }

  ghost predicate RunOk<M>(st: State<M>, events: seq<Event<M>>)
    decreases |events|
  {
    events == [] || (Enabled(st, events[0]) && RunOk(Step(st, events[0]), events[1..]))
  }

  function Run<M>(st: State<M>, events: seq<Event<M>>): State<M>
    requires RunOk(st, events)
    decreases |events|
  {
    if events == [] then st else Run(Step(st, events[0]), events[1..])
  }

  /** The write protocol: one write outstanding exactly while the queue is not empty, always of its
      front; what was completed and what is queued are what was accepted, in order. */
  ghost predicate Protocol<M>(st: State<M>) {
    && WellGrown(st.ring)
    && st.outstanding == (if st.ring.contents == [] then [] else [st.ring.contents[0]])
    && st.completed + st.ring.contents == st.accepted
  }

  /** After a failed write the queue keeps its messages and no write is outstanding. */
  ghost predicate Stuck<M>(st: State<M>) {
    WellGrown(st.ring) && st.failed && st.outstanding == [] && st.ring.contents != []
  }

  ghost predicate Inv<M>(st: State<M>) {
    if st.failed then Stuck(st) else Protocol(st)
  }

  lemma InitialInv<M>()
    ensures Inv(Initial<M>())
  {
    assert Grown(Initial<M>().ring, 0);
  }

  lemma StepKeepsInv<M>(st: State<M>, e: Event<M>)
    requires Inv(st) && Enabled(st, e)
    ensures Inv(Step(st, e))
    ensures st.failed ==> Step(st, e).failed && Step(st, e).completed == st.completed
    ensures st.failed ==> st.ring.contents <= Step(st, e).ring.contents
    ensures !st.failed ==> (Step(st, e).failed <==> e.WriteFailed?)
  {
    match e
    case Send(msg) =>
      PushAppends(st.ring, msg);
    case WriteOk =>
      PopShrinks(st.ring);
      var c := st.ring.contents;
      assert c == [c[0]] + c[1..];
      assert st.completed + ([c[0]] + c[1..]) == (st.completed + [c[0]]) + c[1..];
    case _ =>
  }

  /** In every run: until the first failed write the protocol holds; from then on nothing is ever
      written or completed again and the queued messages stay. */
  lemma {:induction false} RunKeepsInv<M>(st: State<M>, events: seq<Event<M>>)
    requires Inv(st) && RunOk(st, events)
    ensures Inv(Run(st, events))
    ensures st.failed ==> Run(st, events).failed && Run(st, events).completed == st.completed
    ensures st.failed ==> st.ring.contents <= Run(st, events).ring.contents
    ensures !st.failed ==> (Run(st, events).failed <==> exists k :: 0 <= k < |events| && events[k].WriteFailed?)
    decreases |events|
  {
    hide Inv, Step;
    if events != [] {
      StepKeepsInv(st, events[0]);
      RunKeepsInv(Step(st, events[0]), events[1..]);
      assert forall k :: 0 < k < |events| ==> events[k] == events[1..][k - 1];
      assert forall k :: 0 <= k < |events| - 1 ==> events[1..][k] == events[k + 1];
    }
  }

  /** First in, first out, exactly once: in every run without a failed write the completed messages are
      a prefix of the accepted ones, the rest is the queue, and the only write outstanding is its front. */
  lemma FifoExactlyOnce<M>(events: seq<Event<M>>)
    requires RunOk(Initial(), events) && forall k :: 0 <= k < |events| ==> !events[k].WriteFailed?
    ensures var st := Run(Initial(), events);
            && st.accepted == st.completed + st.ring.contents
            && |st.outstanding| <= 1
            && (st.outstanding != [] <==> st.ring.contents != [])
            && (st.outstanding != [] ==> st.outstanding[0] == st.ring.contents[0])
            && |st.ring.contents| <= LIMIT
  {
    InitialInv<M>();
    RunKeepsInv(Initial(), events);
    var st := Run(Initial(), events);
    if st.ring.contents != [] {
      PushAppends(st.ring, st.ring.contents[0]);
    }
  }

  /** A connect success opens the connection and any failure closes it; neither touches a message. */
  lemma ConnectionMoves<M>(st: State<M>)
    ensures Step(st, Connected) == st.(connected := true) && Step(st, ConnectFailed) == st.(connected := false)
    ensures Step(st, ReadFailed) == st.(connected := false)
    ensures st.outstanding != [] ==>
              !Step(st, WriteFailed).connected && Step(st, WriteFailed).ring == st.ring
              && Step(st, WriteFailed).accepted == st.accepted && Step(st, WriteFailed).completed == st.completed
  {
  }

  /** A message sent while not connected is dropped; into an empty queue it is written at once. */
  lemma SendStarts<M>(st: State<M>, m: M)
    requires Inv(st) && st.ring.contents == []
    ensures !st.connected ==> Step(st, Send(m)) == st
    ensures st.connected ==> Step(st, Send(m)).outstanding == st.outstanding + [m] == [m]
  {
    PushAppends(st.ring, m);
  }

  /** A message sent while connected is accepted, queued or not, unless the queue is at its limit. */
  lemma SendAccepted<M>(st: State<M>, m: M)
    requires Inv(st) && st.connected
    ensures |st.ring.contents| < LIMIT ==>
              && Step(st, Send(m)).accepted == st.accepted + [m]
              && Step(st, Send(m)).ring.contents == st.ring.contents + [m]
    ensures |st.ring.contents| >= LIMIT ==>
              Step(st, Send(m)).accepted == st.accepted && Step(st, Send(m)).ring.contents == st.ring.contents
  {
    PushAppends(st.ring, m);
  }

  /** The messages sent while connected, from the events alone: a connect success opens the connection, any
      failure closes it. */
  function Sent<M>(connected: bool, events: seq<Event<M>>): seq<M>
    decreases |events|
  {
    if events == [] then []
    else
      match events[0]
      case Connected => Sent(true, events[1..])
      case ConnectFailed => Sent(false, events[1..])
      case ReadFailed => Sent(false, events[1..])
      case WriteFailed => Sent(false, events[1..])
      case WriteOk => Sent(connected, events[1..])
      case Send(m) => (if connected then [m] else []) + Sent(connected, events[1..])
  }

  /** How many writes completed. */
  function Completions<M>(events: seq<Event<M>>): nat
    decreases |events|
  {
    if events == [] then 0 else (if events[0].WriteOk? then 1 else 0) + Completions(events[1..])
  }

  lemma {:induction false} RunDelivers<M>(st: State<M>, events: seq<Event<M>>)
    requires Inv(st) && !st.failed && RunOk(st, events) && forall k :: 0 <= k < |events| ==> !events[k].WriteFailed?
    requires |st.accepted| + |Sent(st.connected, events)| <= LIMIT
    ensures Run(st, events).accepted == st.accepted + Sent(st.connected, events)
    ensures |Run(st, events).completed| == |st.completed| + Completions(events)
    decreases |events|
  {
    if events == [] {
      assert st.accepted + [] == st.accepted;
    } else {
      var e, rest := events[0], events[1..];
      var next := Step(st, e);
      StepKeepsInv(st, e);
      assert !e.WriteFailed? && forall k :: 0 <= k < |rest| ==> rest[k] == events[k + 1];
      if e.Send? && st.connected {
        assert |st.ring.contents| <= |st.accepted|;
        SendAccepted(st, e.msg);
      }
      RunDelivers(next, rest);
      if e.Send? && st.connected {
        assert st.accepted + [e.msg] + Sent(true, rest) == st.accepted + ([e.msg] + Sent(true, rest));
      } else {
        assert [] + Sent(st.connected, rest) == Sent(st.connected, rest);
      }
    }
  }

  /** Over every run without a failed write that sends at most LIMIT messages while connected: those are the
      messages accepted, in order, and as many of them as writes completed are completed, in order. */
  lemma SentAreDelivered<M>(events: seq<Event<M>>)
    requires RunOk(Initial(), events) && forall k :: 0 <= k < |events| ==> !events[k].WriteFailed?
    requires |Sent(false, events)| <= LIMIT
    ensures var st, sent := Run(Initial(), events), Sent(false, events);
            && st.accepted == sent
            && Completions(events) <= |sent|
            && st.completed == sent[..Completions(events)]
            && st.ring.contents == sent[Completions(events)..]
  {
    InitialInv<M>();
    RunDelivers(Initial(), events);
    FifoExactlyOnce(events);
    var st := Run(Initial(), events);
    assert st.accepted == Sent(false, events);
  }

  lemma RunFirst<M>(st: State<M>, e: Event<M>, rest: seq<Event<M>>)
    requires Enabled(st, e) && RunOk(Step(st, e), rest)
    ensures RunOk(st, [e] + rest) && Run(st, [e] + rest) == Run(Step(st, e), rest)
  {
    assert ([e] + rest)[1..] == rest;
  }

  lemma AfterTwoSends<M>(a: M, b: M) returns (s1: State<M>, s2: State<M>, s3: State<M>)
    ensures s1 == Step(Initial(), Connected) && s2 == Step(s1, Send(a)) && s3 == Step(s2, Send(b))
    ensures s3.ring.contents == [a, b] && s3.outstanding == [a] && s3.completed == []
  {
    InitialInv<M>();
    StepKeepsInv(Initial<M>(), Connected);
    s1 := Step(Initial<M>(), Connected);
    SendAccepted(s1, a);
    StepKeepsInv(s1, Send(a));
    s2 := Step(s1, Send(a));
    SendAccepted(s2, b);
    s3 := Step(s2, Send(b));
  }

  /** Two messages, the second while the first is being written: both are completed, in order. */
  lemma SecondMessageDelivered<M>(a: M, b: M)
    ensures var events := [Connected, Send(a), Send(b), WriteOk, WriteOk];
            RunOk(Initial(), events) && Run(Initial(), events).completed == [a, b]
  {
    var s1, s2, s3 := AfterTwoSends(a, b);
    var s4 := Step(s3, WriteOk);
    assert s4.outstanding == [b] && s4.completed == [a];
    var s5 := Step(s4, WriteOk);
    assert s5.completed == [a, b];
    hide Step;
    RunFirst(s4, WriteOk, []);
    RunFirst(s3, WriteOk, [WriteOk] + []);
    RunFirst(s2, Send(b), [WriteOk] + ([WriteOk] + []));
    RunFirst(s1, Send(a), [Send(b)] + ([WriteOk] + ([WriteOk] + [])));
    RunFirst(Initial<M>(), Connected, [Send(a)] + ([Send(b)] + ([WriteOk] + ([WriteOk] + []))));
    assert [Connected] + ([Send(a)] + ([Send(b)] + ([WriteOk] + ([WriteOk] + []))))
        == [Connected, Send(a), Send(b), WriteOk, WriteOk];
  }

  /** A failed write is never made up for: whatever happens later, reconnects included, no message is
      completed any more. */
  lemma NothingAfterFailure<M>(before: seq<Event<M>>, after: seq<Event<M>>)
    requires RunOk(Initial(), before) && exists k :: 0 <= k < |before| && before[k].WriteFailed?
    requires RunOk(Run(Initial(), before), after)
    ensures var st := Run(Initial(), before);
            var st' := Run(st, after);
            st'.completed == st.completed && st'.outstanding == [] && st.ring.contents <= st'.ring.contents
            && st.ring.contents != []
  {
    InitialInv<M>();
    RunKeepsInv(Initial(), before);
    RunKeepsInv(Run(Initial(), before), after);
  }

  /** The write protocol holds after a run if and only if no write failed in it. */
  lemma ProtocolIffNoFailure<M>(events: seq<Event<M>>)
    requires RunOk(Initial(), events)
    ensures Protocol(Run(Initial(), events)) <==> forall k :: 0 <= k < |events| ==> !events[k].WriteFailed?
  {
    InitialInv<M>();
    RunKeepsInv(Initial(), events);
  }

  /** A shortest run into the stuck state: connect, send, fail. */
  lemma FailingRun<M>(m: M)
    ensures var events := [Connected, Send(m), WriteFailed];
            && RunOk(Initial(), events) && events[2].WriteFailed?
            && Stuck(Run(Initial(), events)) && Run(Initial(), events).ring.contents == [m]
  {
    var events: seq<Event<M>> := [Connected, Send(m), WriteFailed];
    var s1 := Step(Initial<M>(), Connected);
    PushAppends(s1.ring, m) by { InitialInv<M>(); }
    var s2 := Step(s1, Send(m));
    var s3 := Step(s2, WriteFailed);
    assert events[1..] == [Send(m), WriteFailed] && events[1..][1..] == [WriteFailed];
    assert events[1..][1..][1..] == [];
    assert RunOk(s3, []) && RunOk(s2, [WriteFailed]) && RunOk(s1, [Send(m), WriteFailed]);
    assert Run(s2, [WriteFailed]) == Run(s3, []) == s3;
    assert Run(s1, [Send(m), WriteFailed]) == Run(s2, [WriteFailed]);
  }

  // ----- the object

  class Connection<M> {
    var isConnected: bool
    const sendQueue: Queue<M>
    /** The writes given to the socket, oldest first, each with the message in the send buffer. */
    var inFlight: seq<M>
    ghost var accepted: seq<M>
    ghost var completed: seq<M>
    ghost var failed: bool

    constructor ()
      ensures View() == Initial() && Valid() && fresh(sendQueue)
    {
      isConnected, inFlight := false, [];
      sendQueue := new Queue<M>();
      accepted, completed, failed := [], [], false;
      new;
      InitialInv<M>();
    }

    ghost function View(): State<M>
      reads this, sendQueue
    {
      State(isConnected, sendQueue.ring, inFlight, accepted, completed, failed)
    }

    ghost predicate Valid()
      reads this, sendQueue
    {
      sendQueue.Valid() && Inv(View())
    }

    /** on_connet_complete. */
    method OnConnectComplete(error: bool)
      requires Valid()
      modifies this
      ensures Valid() && View() == Step(old(View()), if error then ConnectFailed else Connected)
    {
      StepKeepsInv(View(), if error then ConnectFailed else Connected);
      isConnected := !error;
    }

    /** A failed read leads to the reconnect timer. */
    method OnReadFailed()
      requires Valid()
      modifies this
      ensures Valid() && View() == Step(old(View()), ReadFailed)
    {
      StepKeepsInv(View(), ReadFailed);
      if isConnected {
        isConnected := false;
      }
    }

    /** do_write. The answer of push is not looked at. */
    method DoWrite(msg: M)
      requires Valid()
      modifies this, sendQueue
      ensures Valid() && View() == Step(old(View()), Send(msg))
    {
      StepKeepsInv(View(), Send(msg));
      if !isConnected { return; }
      var inWrite := sendQueue.ring.contents != [];
      var pushed := sendQueue.PushMessage(msg);
      if pushed { accepted := accepted + [msg]; }
      if !inWrite {
        inFlight := inFlight + [msg];
      }
    }

    /** on_write_complete. */
    method OnWriteComplete(error: bool)
      requires Valid() && inFlight != []
      modifies this, sendQueue
      ensures Valid() && View() == Step(old(View()), if error then WriteFailed else WriteOk)
    {
      StepKeepsInv(View(), if error then WriteFailed else WriteOk);
      var written := inFlight[0];
      inFlight := inFlight[1..];
      if !error {
        completed := completed + [written];
        var popped := sendQueue.Pop();
        if sendQueue.ring.contents != [] {
          var msg := sendQueue.Front();
          inFlight := inFlight + [msg.value];
        }
      } else {
        failed := true;
        if isConnected {
          isConnected := false;
        }
      }
    }
  }
}
