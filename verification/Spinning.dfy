/**
 What becomes of a client one of whose connections is reported ready although nothing
 complete is buffered, as little-endian words allow (sommelier/src/connection.rs).
 */
module Spinning {
  import opened Prelude
  import opened Wire
  import opened Closing
  import opened Dispatch
  import opened Lifetimes

  /** Reported ready, yet the next step waits for more bytes. */
  predicate Stuck(order: ByteOrder, buf: seq<byte>) {
    Ready(order, buf) && NextFrame(order, buf).Incomplete?
  }

  /** Exactly a header whose opcode passes for a settled length while its length does not. */
  lemma StuckIff(buf: seq<byte>)
    requires |buf| >= 8
    ensures !Stuck(BigEndian, buf)
    ensures Stuck(LittleEndian, buf) <==>
            Settled(buf, HeaderOpcode(LittleEndian, buf)) && !Settled(buf, HeaderLength(LittleEndian, buf))
  {
    ReadyIsProgressBigEndian(buf);
    LittleEndianOpcode(buf);
    hide BytesU16, BytesU32;
  }

  /** A batch for a stuck side changes nothing at all, and nothing is sent. */
  lemma StuckBatchIsIdle<C>(h: Handlers<C>, l: Link<C>, side: Direction)
    requires !l.over && Stuck(h.order, l.Source(side).buf)
    ensures l.Next(h, side) == Exit(l.Pending(side), true, [])
    ensures Advance(h, l, Serves(side, true)) == l
  {
    var e := l.Next(h, side);
    assert Step(h.For(side), l.Pending(side)).Waiting?;
    assert e == Exit(l.Pending(side), true, []);
    assert Shuts(e) == multiset{};
  }

  /** Only a side that is not reported ready is received from. */
  ghost predicate ReceivesWhenIdle<C>(h: Handlers<C>, l: Link<C>, es: seq<Event>)
    decreases |es|
  {
    es != [] ==>
      && (es[0].Arrives? ==> !Ready(h.order, l.Source(es[0].direction).buf))
      && ReceivesWhenIdle(h, Advance(h, l, es[0]), es[1..])
  }

  lemma {:induction false} ReceivesFurther<C>(h: Handlers<C>, l: Link<C>, es: seq<Event>, more: seq<Event>)
    requires ReceivesWhenIdle(h, l, es) && ReceivesWhenIdle(h, AdvanceAll(h, l, es), more)
    ensures ReceivesWhenIdle(h, l, es + more)
    decreases |es|
  {
    hide Advance, Ready;
    if es == [] {
      assert es + more == more;
    } else {
      ReceivesFurther(h, Advance(h, l, es[0]), es[1..], more);
      assert (es + more)[1..] == es[1..] + more;
    }
  }

  lemma StuckStays<C>(h: Handlers<C>, l: Link<C>, e: Event, side: Direction)
    requires Stuck(h.order, l.Source(side).buf) && !(e.Arrives? && e.direction == side)
    ensures Advance(h, l, e).Source(side) == l.Source(side)
  {
    if !l.over && e.Serves? && e.direction == side {
      StuckBatchIsIdle(h, l, side);
    }
    hide Loop, Shuts, AllQueuedFds, Ready, NextFrame;
  }

  /** A stuck side is never received from again, whatever the other side does, so the
      message it waits for can never be completed. */
  lemma {:induction false} StuckForever<C>(h: Handlers<C>, l: Link<C>, es: seq<Event>, side: Direction)
    requires ReceivesWhenIdle(h, l, es) && Stuck(h.order, l.Source(side).buf)
    ensures AdvanceAll(h, l, es).Source(side) == l.Source(side)
    ensures forall e :: e in es && e.Arrives? ==> e.direction != side
    decreases |es|
  {
    hide Advance, Ready, NextFrame;
    if es != [] {
      assert Ready(h.order, l.Source(side).buf);
      StuckStays(h, l, es[0], side);
      StuckForever(h, Advance(h, l, es[0]), es[1..], side);
    }
  }

  /** One side is stuck, and the other has nothing to offer. */
  predicate Spins<C>(order: ByteOrder, l: Link<C>, side: Direction) {
    !l.over && Stuck(order, l.Source(side).buf) && !Ready(order, l.Target(side).buf)
  }
}
