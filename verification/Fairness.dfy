/**
 How long a buffered message waits while the client alternates between its two
 connections (sommelier/src/proxy.rs).
 */
module Fairness {
  import opened Prelude
  import opened Wire
  import opened Dispatch

  /** Complete messages at the front of a stream. */
  function Backlog(order: ByteOrder, buf: seq<byte>): nat {
    |Split(order, buf).0|
  }

  /** One batch: which side it served, whether the other side was reported ready when it
      was chosen, how many messages were complete on either side, and how many were handled. */
  datatype Turn = Turn(direction: Direction, otherReady: bool, fromHost: nat, fromClient: nat, handled: nat)
  {
    function Queue(side: Direction): nat {
      if side.HostToClient? then fromHost else fromClient
    }
  }

  /** The host is preferred first; after that a side gets two turns in a row only while
      the other has nothing to offer. */
  predicate Fair(turns: seq<Turn>) {
    && (turns != [] && turns[0].direction.ClientToHost? ==> !turns[0].otherReady)
    && forall k | 0 < k < |turns| :: turns[k].direction == turns[k - 1].direction ==> !turns[k].otherReady
  }

  /** A complete message makes its side ready, every batch but a last, failing one handles
      as much as it may, and a queue shrinks only by what is handled. */
  predicate Steady(turns: seq<Turn>) {
    && (forall k | 0 <= k < |turns| :: turns[k].Queue(Opposite(turns[k].direction)) > 0 ==> turns[k].otherReady)
    && (forall k | 0 <= k < |turns| - 1 :: Handles(turns[k]))
    && (forall k | 0 < k < |turns| :: Follows(turns[k - 1], turns[k]))
  }

  predicate Handles(t: Turn) {
    t.handled == if t.Queue(t.direction) <= MAX_MESSAGES_PER_BATCH then t.Queue(t.direction) else MAX_MESSAGES_PER_BATCH
  }

  predicate Follows(t: Turn, next: Turn) {
    && next.Queue(t.direction) + t.handled >= t.Queue(t.direction)
    && next.Queue(Opposite(t.direction)) >= t.Queue(Opposite(t.direction))
  }

  function Opposite(side: Direction): Direction {
    if side.HostToClient? then ClientToHost else HostToClient
  }

  /** Messages of one side handled in turns k to m - 1. */
  function Served(turns: seq<Turn>, side: Direction, k: nat, m: nat): nat
    requires k <= m <= |turns|
    decreases m
  {
    if k == m then 0
    else Served(turns, side, k, m - 1) + if turns[m - 1].direction == side then turns[m - 1].handled else 0
  }

  /** Turns the other side gets from turn k up to m - 1. */
  function Passed(turns: seq<Turn>, side: Direction, k: nat, m: nat): nat
    requires k <= m <= |turns|
    decreases m
  {
    if k == m then 0
    else Passed(turns, side, k, m - 1) + if turns[m - 1].direction == side then 0 else 1
  }

  function Got(turns: seq<Turn>, side: Direction, k: nat, m: nat): nat
    requires k <= m <= |turns|
    decreases m
  {
    if k == m then 0
    else Got(turns, side, k, m - 1) + if turns[m - 1].direction == side then 1 else 0
  }

  /** Whether a side is favoured when turn k is chosen. */
  function Favoured(turns: seq<Turn>, side: Direction, k: nat): nat
    requires k <= |turns|
  {
    if k == 0 then (if side.HostToClient? then 1 else 0)
    else if turns[k - 1].direction == side then 0 else 1
  }

  /** While a side has more to offer, it and the other take turns, and each of its turns is full. */
  lemma {:induction false} TakesTurns(turns: seq<Turn>, side: Direction, k: nat, m: nat)
    requires Fair(turns) && Steady(turns) && k <= m < |turns|
    requires Served(turns, side, k, m) < turns[k].Queue(side)
    ensures Served(turns, side, k, m) == MAX_MESSAGES_PER_BATCH * Got(turns, side, k, m)
    ensures turns[m].Queue(side) + Served(turns, side, k, m) >= turns[k].Queue(side)
    ensures Passed(turns, side, k, m) + Favoured(turns, side, k) <= Got(turns, side, k, m) + Favoured(turns, side, m)
    decreases m
  {
    if k < m {
      TakesTurns(turns, side, k, m - 1);
      assert Follows(turns[m - 1], turns[m]);
      assert Handles(turns[m - 1]);
      FavouredGoesFirst(turns, side, m - 1);
    }
  }

  lemma FavouredGoesFirst(turns: seq<Turn>, side: Direction, m: nat)
    requires Fair(turns) && Steady(turns) && m < |turns| && turns[m].Queue(side) > 0
    ensures Favoured(turns, side, m) == 1 ==> turns[m].direction == side
  {
  }

  /** The j-th message complete at turn k has been handled, or the other side has had at
      most j / 32 turns rounded up since then, one fewer if this side was favoured. */
  predicate Bounded(turns: seq<Turn>, side: Direction, k: nat, m: nat, j: nat)
    requires k <= m <= |turns|
  {
    Served(turns, side, k, m) >= j
    || Passed(turns, side, k, m) + Favoured(turns, side, k) <= (j + 31) / MAX_MESSAGES_PER_BATCH
  }

  lemma WaitIsBounded(turns: seq<Turn>, side: Direction, k: nat, m: nat, j: nat)
    requires Fair(turns) && Steady(turns) && k <= m <= |turns| && k < |turns|
    requires 1 <= j <= turns[k].Queue(side)
    ensures Bounded(turns, side, k, m, j)
  {
    if Served(turns, side, k, m) < j {
      var n := if m == |turns| && k < m then m - 1 else m;
      TakesTurns(turns, side, k, n);
      FavouredGoesFirst(turns, side, n);
    }
  }

  ghost predicate WaitsAreBounded(turns: seq<Turn>) {
    forall side, k: nat, m: nat, j | k <= m <= |turns| && k < |turns| && 1 <= j <= turns[k].Queue(side) ::
      Bounded(turns, side, k, m, j)
  }

  lemma FairTurnsBoundWaits(turns: seq<Turn>)
    requires Fair(turns) && Steady(turns)
    ensures WaitsAreBounded(turns)
  {
    forall side, k: nat, m: nat, j | k <= m <= |turns| && k < |turns| && 1 <= j <= turns[k].Queue(side)
      ensures Bounded(turns, side, k, m, j)
    {
      WaitIsBounded(turns, side, k, m, j);
    }
  }

  // ---- one more turn ----

  predicate CanFollow(turns: seq<Turn>, t: Turn) {
    turns != [] ==> Handles(turns[|turns| - 1]) && Follows(turns[|turns| - 1], t)
  }

  lemma MoreCanFollow(turns: seq<Turn>, seen: Turn, now: Turn)
    requires CanFollow(turns, seen) && now.fromHost >= seen.fromHost && now.fromClient >= seen.fromClient
    ensures CanFollow(turns, now)
  {
  }

  lemma NextCanFollow(turns: seq<Turn>, t: Turn, now: Turn, ok: bool)
    requires ok ==> Handles(t) && Follows(t, now)
    ensures ok ==> CanFollow(turns + [t], now)
  {
  }

  lemma OneMoreIsSteady(turns: seq<Turn>, t: Turn)
    requires Steady(turns) && CanFollow(turns, t) && (t.Queue(Opposite(t.direction)) > 0 ==> t.otherReady)
    ensures Steady(turns + [t])
  {
  }

  lemma OneMoreIsFair(turns: seq<Turn>, t: Turn)
    requires Fair(turns) && (Favoured(turns, t.direction, |turns|) == 0 ==> !t.otherReady)
    ensures Fair(turns + [t])
  {
  }

  // ---- the streams behind the queues ----

  /** Bytes that arrive only add to what is complete. */
  lemma {:induction false} ArrivalsOnlyAdd(order: ByteOrder, buf: seq<byte>, more: seq<byte>)
    ensures Backlog(order, buf + more) >= Backlog(order, buf)
    decreases |buf|
  {
    var frame := NextFrame(order, buf);
    if frame.Complete? {
      FrameIgnoresWhatFollows(order, buf, more);
      assert (buf + more)[frame.length..] == buf[frame.length..] + more;
      ArrivalsOnlyAdd(order, buf[frame.length..], more);
    }
  }

  lemma MoreIsComplete(order: ByteOrder, before: seq<byte>, after: seq<byte>)
    requires before <= after
    ensures Backlog(order, after) >= Backlog(order, before)
  {
    ArrivalsOnlyAdd(order, before, after[|before|..]);
    assert before + after[|before|..] == after;
  }

  lemma ReadyHasBytes(order: ByteOrder, buf: seq<byte>)
    ensures Ready(order, buf) ==> buf != []
  {
  }

  lemma CompleteIsReady(buf: seq<byte>)
    ensures Backlog(BigEndian, buf) > 0 ==> Ready(BigEndian, buf)
  {
    ReadyIsProgressBigEndian(buf);
  }

  /** What a batch does to its stream: it never grows; a batch that goes through handles
      what it may, and shortens a ready stream when words are big-endian. */
  lemma BatchAdvances<C>(p: Proxy<C>, w: Work<C>)
    ensures var e := Loop(p, w, MAX_MESSAGES_PER_BATCH);
            e.ok ==>
              && |e.work.buf| <= |w.buf|
              && (p.order.BigEndian? && Ready(p.order, w.buf) ==> |e.work.buf| < |w.buf|)
              && (!e.work.fatal ==>
                    var before, after := Backlog(p.order, w.buf), Backlog(p.order, e.work.buf);
                    after == if before <= MAX_MESSAGES_PER_BATCH then 0 else before - MAX_MESSAGES_PER_BATCH)
  {
    LoopIsBatch(p, w, MAX_MESSAGES_PER_BATCH);
    if p.order.BigEndian? && Ready(p.order, w.buf) {
      ReadyIsProgressBigEndian(w.buf);
      ReadyBatchesShorten(p, w);
    }
    hide Loop, Ready, Batch, Split;
    if Batch(p, w, MAX_MESSAGES_PER_BATCH).Some? {
      BatchShortens(p, w, MAX_MESSAGES_PER_BATCH);
      if !Batch(p, w, MAX_MESSAGES_PER_BATCH).value.fatal {
        BatchHandles(p, w, MAX_MESSAGES_PER_BATCH);
      }
    }
  }
}
