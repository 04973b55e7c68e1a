/** The outgoing queue of server/common/libmessage/SendQueue.cpp over a boost circular buffer. */
module SendQueue {
  import opened Options

  const INIT_SIZE: nat := 0x100
  const MAX_SIZE: nat := 100000

  /** boost::circular_buffer: push_back on a full buffer overwrites the oldest element. */
  datatype Ring<+T> = Ring(contents: seq<T>, capacity: nat) {
    predicate Full() { |contents| == capacity }

    function PushBack(x: T): Ring<T> {
      if capacity == 0 then this
      else if Full() then Ring(contents[1..] + [x], capacity)
      else Ring(contents + [x], capacity)
    }

    function PopFront(): Ring<T>
      requires contents != []
    {
      Ring(contents[1..], capacity)
    }

    function SetCapacity(n: nat): Ring<T> {
      Ring(if |contents| <= n then contents else contents[..n], n)
    }
  }

  function Doubled(k: nat): nat {
    if k == 0 then INIT_SIZE else 2 * Doubled(k - 1)
  }

  /** The capacity is INIT_SIZE doubled at most nine times. */
  ghost predicate Grown<T>(r: Ring<T>, k: nat) {
    k <= 9 && r.capacity == Doubled(k) && |r.contents| <= r.capacity
  }

  ghost predicate WellGrown<T>(r: Ring<T>) {
    exists k: nat :: Grown(r, k)
  }

  const LIMIT: nat := 131072

  lemma DoubledValues()
    ensures Doubled(0) == 0x100 && Doubled(1) == 0x200 && Doubled(2) == 0x400 && Doubled(3) == 0x800
    ensures Doubled(4) == 0x1000 && Doubled(5) == 0x2000 && Doubled(6) == 0x4000 && Doubled(7) == 0x8000
    ensures Doubled(8) == 0x10000 && Doubled(9) == LIMIT
  {
    assert Doubled(2) == 0x400;
    assert Doubled(4) == 0x1000;
    assert Doubled(6) == 0x4000;
    assert Doubled(8) == 0x10000;
  }

  /** The bound of the guard sits between the eighth and the ninth doubling. */
  lemma GuardMeansLimit(k: nat)
    requires k <= 9
    ensures MAX_SIZE < Doubled(k) <==> k == 9
    ensures Doubled(k) <= LIMIT
  {
    DoubledValues();
    if k == 0 {} else if k == 1 {} else if k == 2 {} else if k == 3 {} else if k == 4 {}
    else if k == 5 {} else if k == 6 {} else if k == 7 {} else if k == 8 {} else { assert k == 9; }
  }

  /** push, as a function of the ring: refused only when the limit is reached. */
  function Push<T>(r: Ring<T>, x: T): (bool, Ring<T>) {
    if r.Full() then
      if MAX_SIZE < |r.contents| then (false, r)
      else (true, r.SetCapacity(|r.contents| + |r.contents|).PushBack(x))
    else (true, r.PushBack(x))
  }

  /** No push ever overwrites: it appends, or it refuses at exactly the limit and changes nothing. */
  lemma PushAppends<T>(r: Ring<T>, x: T)
    requires WellGrown(r)
    ensures WellGrown(Push(r, x).1) && |r.contents| <= LIMIT
    ensures Push(r, x).0 <==> |r.contents| < LIMIT == 131072
    ensures Push(r, x).0 ==> Push(r, x).1.contents == r.contents + [x]
    ensures !Push(r, x).0 ==> Push(r, x).1 == r
  {
    var k: nat :| Grown(r, k);
    GuardMeansLimit(k);
    var pushed := Push(r, x).1;
    if r.Full() && k < 9 {
      assert Doubled(k + 1) == 2 * Doubled(k);
      assert Grown(pushed, k + 1);
    } else {
      assert Grown(pushed, k);
    }
  }

  lemma PopShrinks<T>(r: Ring<T>)
    requires WellGrown(r) && r.contents != []
    ensures WellGrown(r.PopFront())
  {
    var k: nat :| Grown(r, k);
    assert Grown(r.PopFront(), k);
  }

  datatype Op<+T> = PushOp(msg: T) | PopOp

  function RingStep<T>(r: Ring<T>, op: Op<T>): Ring<T> {
    match op
    case PushOp(x) => Push(r, x).1
    case PopOp => if r.contents == [] then r else r.PopFront()
  }

  function RingRun<T>(r: Ring<T>, ops: seq<Op<T>>): Ring<T>
    decreases |ops|
  {
    if ops == [] then r else RingRun(RingStep(r, ops[0]), ops[1..])
  }

  /** The reference: a plain bounded first-in first-out queue. */
  function FifoRun<T>(q: seq<T>, ops: seq<Op<T>>): seq<T>
    decreases |ops|
  {
    if ops == [] then q
    else
      var next := match ops[0]
        case PushOp(x) => if |q| < LIMIT then q + [x] else q
        case PopOp => if q == [] then q else q[1..];
      FifoRun(next, ops[1..])
  }

  /** In every run of pushes and pops the growing circular buffer is a first-in first-out queue bounded by
      131072, with a capacity that is 256 doubled at most nine times. */
  lemma {:induction false} RunIsFifo<T>(r: Ring<T>, ops: seq<Op<T>>)
    requires WellGrown(r)
    ensures WellGrown(RingRun(r, ops))
    ensures RingRun(r, ops).contents == FifoRun(r.contents, ops)
    decreases |ops|
  {
    hide WellGrown;
    if ops != [] {
      match ops[0] {
        case PushOp(x) => PushAppends(r, x);
        case PopOp => if r.contents != [] { PopShrinks(r); }
      }
      RunIsFifo(RingStep(r, ops[0]), ops[1..]);
    }
  }

  class Queue<T> {
    var ring: Ring<T>

    ghost predicate Valid()
      reads this
    {
      WellGrown(ring)
    }

    constructor ()
      ensures Valid() && ring == Ring([], INIT_SIZE)
    {
      ring := Ring([], INIT_SIZE);
      new;
      assert Grown(ring, 0);
    }

    method Pop() returns (msg: Option<T>)
      requires Valid()
      modifies this
      ensures Valid()
      ensures old(ring.contents) == [] ==> msg == None && ring == old(ring)
      ensures old(ring.contents) != [] ==>
                msg == Some(old(ring.contents[0])) && ring.contents == old(ring.contents[1..])
                && ring.capacity == old(ring.capacity)
    {
      if ring.contents == [] { return None; }
      PopShrinks(ring);
      msg := Some(ring.contents[0]);
      ring := ring.PopFront();
    }

    method PushMessage(msg: T) returns (accepted: bool)
      requires Valid()
      modifies this
      ensures Valid() && (accepted, ring) == Push(old(ring), msg)
      ensures accepted <==> old(|ring.contents|) < LIMIT
      ensures ring.contents == if accepted then old(ring.contents) + [msg] else old(ring.contents)
    {
      PushAppends(ring, msg);
      var allSize := |ring.contents|;
      if ring.Full() {
        if MAX_SIZE < allSize { return false; }
        ring := ring.SetCapacity(allSize + allSize);
        assert !ring.Full();
      }
      ring := ring.PushBack(msg);
      return true;
    }

    method Front() returns (msg: Option<T>)
      requires Valid()
      ensures msg == if ring.contents == [] then None else Some(ring.contents[0])
    {
      msg := if ring.contents == [] then None else Some(ring.contents[0]);
    }
  }
}
