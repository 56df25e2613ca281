/**
 The turns of the client loop as values: which side is chosen, what a turn does to the
 two connections, and what is left to come (sommelier/src/proxy.rs).
 */
module Turns {
  import opened Prelude
  import opened Wire
  import opened Closing
  import opened Dispatch
  import opened Lifetimes
  import opened Fairness
  import opened Relays
  import opened Spinning

  /** What one receive yields, and the turn from which a probe finds it; no bytes mean
      that the peer has closed the connection. */
  datatype Arrival = Arrival(bytes: seq<byte>, fds: seq<Fd>, from: nat)
  {
    function On(direction: Direction): Event {
      Arrives(direction, bytes, fds)
    }
  }

  ghost function Budget(arrivals: seq<Arrival>): nat {
    if arrivals == [] then 0 else 1 + |arrivals[0].bytes| + Budget(arrivals[1..])
  }

  /** Bytes not yet dispatched, and one for each receive still to come. */
  ghost function Left<C>(l: Link<C>, client: seq<Arrival>, host: seq<Arrival>): nat {
    Budget(client) + Budget(host) + |l.client.buf| + |l.host.buf|
  }

  /** No probe in a turn up to `n` finds anything. */
  predicate Quiet(arrivals: seq<Arrival>, n: nat) {
    arrivals == [] || arrivals[0].from > n
  }

  /** One side is ready, the other is not, and its peer is silent. */
  predicate ReadyAlone<C>(order: ByteOrder, l: Link<C>, side: Direction, client: seq<Arrival>, host: seq<Arrival>, n: nat) {
    && Ready(order, l.Source(side).buf) && !Ready(order, l.Target(side).buf)
    && Quiet(if side.HostToClient? then client else host, n)
  }

  /** One side is stuck, the other has nothing to offer, and its peer is silent. */
  predicate SpinsAlone<C>(order: ByteOrder, l: Link<C>, side: Direction, client: seq<Arrival>, host: seq<Arrival>, n: nat) {
    Spins(order, l, side) && Quiet(if side.HostToClient? then client else host, n)
  }

  /** The choice of a side, after at most one receive. */
  ghost predicate Chosen<C>(h: Handlers<C>, l: Link<C>, m: Link<C>, preferHost: bool, n: nat,
      fromClient: seq<Arrival>, fromHost: seq<Arrival>, client: seq<Arrival>, host: seq<Arrival>,
      direction: Option<Direction>, arrived: seq<Event>)
  {
    && m == AdvanceAll(h, l, arrived) && !m.over
    && TakesFirst(fromClient, fromHost, client, host, arrived)
    && (arrived != [] ==> arrived[0].Arrives? && !Ready(h.order, l.Source(arrived[0].direction).buf))
    && (direction.Some? && arrived == [] ==> Ready(h.order, m.Source(direction.value).buf))
    && (direction.Some? && direction.value != Preferred(preferHost) ==> !Ready(h.order, m.Source(Preferred(preferHost)).buf))
    && (forall side | ReadyAlone(h.order, l, side, fromClient, fromHost, n) :: direction == Some(side) && arrived == [])
  }

  /** One batch, and what it found and handled. */
  ghost predicate TurnDoes<C>(h: Handlers<C>, l: Link<C>, m: Link<C>, direction: Direction, ok: bool, turn: Turn,
      delivered: bool)
  {
    && m == Advance(h, l, Serves(direction, delivered))
    && ok == !m.over && turn == Finds(h.order, l, direction).(handled := turn.handled)
    && m.Target(direction) == l.Target(direction)
    && |m.Source(direction).buf| <= |l.Source(direction).buf|
    && (ok && h.order.BigEndian? && Ready(h.order, l.Source(direction).buf) ==>
          |m.Source(direction).buf| < |l.Source(direction).buf|)
    && (ok ==> Handles(turn) && Follows(turn, Finds(h.order, m, ClientToHost)))
    && (Stuck(h.order, l.Source(direction).buf) ==> ok && delivered)
  }

  /** A turn chosen between the two sides, and what is known of it. */
  ghost predicate RoundDoes<C>(h: Handlers<C>, l: Link<C>, m: Link<C>, preferHost: bool, n: nat,
      fromClient: seq<Arrival>, fromHost: seq<Arrival>, client: seq<Arrival>, host: seq<Arrival>,
      direction: Option<Direction>, ok: bool, turn: Turn, es: seq<Event>)
  {
    && m == AdvanceAll(h, l, es)
    && (ok ==> direction.Some? && !m.over)
    && (direction.Some? ==>
          && turn.direction == direction.value
          && (direction.value != Preferred(preferHost) ==> !turn.otherReady)
          && turn.fromHost >= Finds(h.order, l, ClientToHost).fromHost
          && turn.fromClient >= Finds(h.order, l, ClientToHost).fromClient)
    && (ok ==> Handles(turn) && Follows(turn, Finds(h.order, m, ClientToHost)))
    && (direction.Some? && h.order.BigEndian? ==>
          && (turn.Queue(Opposite(turn.direction)) > 0 ==> turn.otherReady)
          && Left(l, fromClient, fromHost) > 0
          && (ok ==> Left(m, client, host) < Left(l, fromClient, fromHost)))
    && ReceivesWhenIdle(h, l, es)
    && (forall side | SpinsAlone(h.order, l, side, fromClient, fromHost, n) ::
          ok && m == l && client == fromClient && host == fromHost && es == [Serves(side, true)])
  }

  lemma ChosenMeans<C>(h: Handlers<C>, l: Link<C>, m: Link<C>, preferHost: bool, n: nat, fromClient: seq<Arrival>,
      fromHost: seq<Arrival>, client: seq<Arrival>, host: seq<Arrival>, direction: Option<Direction>, arrived: seq<Event>)
    requires Chosen(h, l, m, preferHost, n, fromClient, fromHost, client, host, direction, arrived) && !l.over
    ensures !m.over && Left(m, client, host) + |arrived| == Left(l, fromClient, fromHost)
    ensures Finds(h.order, m, ClientToHost).fromHost >= Finds(h.order, l, ClientToHost).fromHost
    ensures Finds(h.order, m, ClientToHost).fromClient >= Finds(h.order, l, ClientToHost).fromClient
    ensures |arrived| <= 1 && ReceivesWhenIdle(h, l, arrived)
    ensures forall side | SpinsAlone(h.order, l, side, fromClient, fromHost, n) ::
              direction == Some(side) && arrived == [] && m == l && client == fromClient && host == fromHost
              && Stuck(h.order, l.Source(side).buf)
  {
    ArrivalAdds(h, l, fromClient, fromHost, client, host, arrived);
    MoreIsComplete(h.order, l.client.buf, m.client.buf);
    MoreIsComplete(h.order, l.host.buf, m.host.buf);
    ReceivesFirst(h, l, arrived, Serves(ClientToHost, true));
    NoEvent(h, l);
    hide Ready, Backlog, TakesFirst, AdvanceAll, Left, Stuck, ReceivesWhenIdle, ReadyAlone, SpinsAlone;
    forall side | SpinsAlone(h.order, l, side, fromClient, fromHost, n)
      ensures direction == Some(side) && arrived == [] && Stuck(h.order, l.Source(side).buf)
    {
      SpinsIs(h.order, l, side, fromClient, fromHost, n);
    }
  }

  lemma ChosenRelays<C>(h: Handlers<C>, l: Link<C>, m: Link<C>, preferHost: bool, n: nat, fromClient: seq<Arrival>,
      fromHost: seq<Arrival>, client: seq<Arrival>, host: seq<Arrival>, direction: Option<Direction>, arrived: seq<Event>,
      spoken: Outputs)
    requires Chosen(h, l, m, preferHost, n, fromClient, fromHost, client, host, direction, arrived)
    ensures Relayed(h, l, arrived, spoken, spoken) && m == AdvanceAll(h, l, arrived)
  {
    hide Ready, AdvanceAll, Relayed;
    NothingRelayed(h, l, arrived, spoken);
  }

  lemma NothingTaken<C>(h: Handlers<C>, l: Link<C>, m: Link<C>, preferHost: bool, n: nat, fromClient: seq<Arrival>,
      fromHost: seq<Arrival>, client: seq<Arrival>, host: seq<Arrival>, turn: Turn, arrived: seq<Event>)
    requires Chosen(h, l, m, preferHost, n, fromClient, fromHost, client, host, None, arrived) && !l.over
    ensures RoundDoes(h, l, m, preferHost, n, fromClient, fromHost, client, host, None, false, turn, arrived)
  {
    ChosenMeans(h, l, m, preferHost, n, fromClient, fromHost, client, host, None, arrived);
    hide Ready, Backlog, TakesFirst, AdvanceAll, Left, Stuck, ReceivesWhenIdle, ReadyAlone, SpinsAlone;
  }

  lemma TakenSpends<C>(h: Handlers<C>, l: Link<C>, m: Link<C>, client: seq<Arrival>, host: seq<Arrival>,
      side: Direction, arrived: seq<Event>, ok: bool, turn: Turn, delivered: bool)
    requires TurnDoes(h, l, m, side, ok, turn, delivered) && h.order.BigEndian?
    requires arrived == [] ==> Ready(h.order, l.Source(side).buf)
    ensures turn.Queue(Opposite(turn.direction)) > 0 ==> turn.otherReady
    ensures arrived == [] ==> Left(l, client, host) > 0
    ensures ok ==> Left(m, client, host) < Left(l, client, host) + |arrived|
  {
    ReadyHasBytes(h.order, l.Source(side).buf);
    CompleteIsReady(l.Target(side).buf);
    hide Ready, Backlog, Advance, Budget, Stuck, Handles, Follows;
  }

  lemma TakenRuns<C>(h: Handlers<C>, l: Link<C>, chosen: Link<C>, m: Link<C>, arrived: seq<Event>, served: Event)
    requires chosen == AdvanceAll(h, l, arrived) && m == Advance(h, chosen, served) && served.Serves?
    requires |arrived| <= 1 && (arrived != [] ==> arrived[0].Arrives? && !Ready(h.order, l.Source(arrived[0].direction).buf))
    ensures m == AdvanceAll(h, l, arrived + [served]) && ReceivesWhenIdle(h, l, arrived + [served])
  {
    OneEvent(h, chosen, served);
    AdvanceFurther(h, l, arrived, [served]);
    ReceivesFirst(h, l, arrived, served);
    hide *;
  }

  lemma TakenDoes<C>(h: Handlers<C>, l: Link<C>, chosen: Link<C>, m: Link<C>, preferHost: bool, n: nat,
      fromClient: seq<Arrival>, fromHost: seq<Arrival>, client: seq<Arrival>, host: seq<Arrival>,
      side: Direction, arrived: seq<Event>, ok: bool, turn: Turn, delivered: bool)
    requires Chosen(h, l, chosen, preferHost, n, fromClient, fromHost, client, host, Some(side), arrived) && !l.over
    requires TurnDoes(h, chosen, m, side, ok, turn, delivered)
    ensures RoundDoes(h, l, m, preferHost, n, fromClient, fromHost, client, host, Some(side), ok, turn,
                      arrived + [Serves(side, delivered)])
  {
    hide Ready, Backlog, TakesFirst, AdvanceAll, Advance, Left, Stuck, ReceivesWhenIdle, ReadyAlone, SpinsAlone, Handles, Follows;
    ChosenMeans(h, l, chosen, preferHost, n, fromClient, fromHost, client, host, Some(side), arrived);
    TakenRuns(h, l, chosen, m, arrived, Serves(side, delivered));
    if h.order.BigEndian? {
      TakenSpends(h, chosen, m, client, host, side, arrived, ok, turn, delivered);
    }
    if Stuck(h.order, l.Source(side).buf) {
      StuckBatchIsIdle(h, l, side);
    }
    assert arrived == [] ==> arrived + [Serves(side, delivered)] == [Serves(side, delivered)];
    hide Chosen;
  }

  /** Where a run stands after some turns. */
  ghost predicate Running<C>(h: Handlers<C>, begin: Link<C>, l: Link<C>, fromClient: seq<Arrival>, fromHost: seq<Arrival>,
      limit: nat, client: seq<Arrival>, host: seq<Arrival>, preferHost: bool, turns: seq<Turn>, es: seq<Event>, ended: bool)
  {
    && l == AdvanceAll(h, begin, es) && |turns| <= limit && (!ended ==> !l.over)
    && Fair(turns) && (!ended ==> preferHost == (turns == [] || turns[|turns| - 1].direction.ClientToHost?))
    && (h.order.BigEndian? ==>
          && Steady(turns) && |turns| <= Left(begin, fromClient, fromHost)
          && (!ended ==> Left(l, client, host) + |turns| <= Left(begin, fromClient, fromHost)))
    && (!ended ==> CanFollow(turns, Finds(h.order, l, ClientToHost)))
    && ReceivesWhenIdle(h, begin, es)
    && (forall side | SpinsAlone(h.order, begin, side, fromClient, fromHost, limit) ::
          !ended && l == begin && client == fromClient && host == fromHost && OnlyServes(es, side))
  }

  lemma RunningBegins<C>(h: Handlers<C>, begin: Link<C>, fromClient: seq<Arrival>, fromHost: seq<Arrival>, limit: nat)
    requires !begin.over
    ensures Running(h, begin, begin, fromClient, fromHost, limit, fromClient, fromHost, true, [], [], false)
  {
  }

  lemma RoundKeepsRunning<C>(h: Handlers<C>, begin: Link<C>, l: Link<C>, m: Link<C>, fromClient: seq<Arrival>,
      fromHost: seq<Arrival>, limit: nat, coming: seq<Arrival>, awaited: seq<Arrival>, client: seq<Arrival>, host: seq<Arrival>,
      preferHost: bool, turns: seq<Turn>, es: seq<Event>, direction: Option<Direction>, ok: bool, turn: Turn,
      happened: seq<Event>)
    requires Running(h, begin, l, fromClient, fromHost, limit, coming, awaited, preferHost, turns, es, false)
    requires |turns| < limit
    requires RoundDoes(h, l, m, preferHost, |turns|, coming, awaited, client, host, direction, ok, turn, happened)
    ensures Running(h, begin, m, fromClient, fromHost, limit, client, host,
                    if direction.Some? then direction.value.ClientToHost? else preferHost,
                    if direction.Some? then turns + [turn] else turns, es + happened, !ok)
    ensures ok ==> direction.Some? && !m.over
    ensures l == AdvanceAll(h, begin, es)
  {
    hide Ready, Backlog, AdvanceAll, Advance, Fair, Steady, CanFollow, Left, Handles, Follows, SpinsAlone, ReceivesWhenIdle;
    AdvanceFurther(h, begin, es, happened);
    ReceivesFurther(h, begin, es, happened);
    SpinsSooner(h.order, begin, fromClient, fromHost, |turns|, limit);
    if direction.Some? {
      MoreCanFollow(turns, Finds(h.order, l, ClientToHost), turn);
      OneMoreIsFair(turns, turn);
      if h.order.BigEndian? {
        OneMoreIsSteady(turns, turn);
      }
      NextCanFollow(turns, turn, Finds(h.order, m, ClientToHost), ok);
    }
  }

  lemma RunningEnds<C>(h: Handlers<C>, begin: Link<C>, l: Link<C>, fromClient: seq<Arrival>, fromHost: seq<Arrival>,
      limit: nat, client: seq<Arrival>, host: seq<Arrival>, preferHost: bool, turns: seq<Turn>, es: seq<Event>, ended: bool)
    requires Running(h, begin, l, fromClient, fromHost, limit, client, host, preferHost, turns, es, ended)
    ensures l == AdvanceAll(h, begin, es) && Fair(turns) && |turns| <= limit && ReceivesWhenIdle(h, begin, es)
    ensures h.order.BigEndian? ==> |turns| <= Left(begin, fromClient, fromHost) && WaitsAreBounded(turns)
    ensures forall side | SpinsAlone(h.order, begin, side, fromClient, fromHost, limit) ::
              !ended && l == begin && OnlyServes(es, side)
  {
    hide AdvanceAll, Fair, Steady, CanFollow, Left, SpinsAlone, ReceivesWhenIdle, OnlyServes, WaitsAreBounded;
    if h.order.BigEndian? {
      FairTurnsBoundWaits(turns);
    }
  }

  /** After an error only what handlers made leaves the books. */
  lemma AbandonIs<C>(l: Link<C>, direction: Direction, w: Work<C>, leftover: seq<Queued>)
    ensures var shut := Once(w.outFds, w.taken + w.fds);
            && Shuts(Exit(w, false, leftover)) == shut
            && l.After(direction, Exit(w, false, leftover), false)
               == l.(ctx := w.ctx, queued := AllQueuedFds(w.reverse + leftover), over := true,
                     obtained := l.obtained + multiset(w.opens), closed := l.closed + multiset(w.closes) + shut)
  {
    hide AllQueuedFds, Once;
  }

  lemma FinishIs<C>(l: Link<C>, direction: Direction, w: Work<C>, delivered: bool)
    ensures var shut := Once(w.outFds + AllQueuedFds(w.reverse) + w.taken, []);
            && Shuts(Exit(w, true, [])) == shut
            && l.After(direction, Exit(w, true, []), delivered)
               == l.With(direction, Stream(w.buf, w.fds, w.ambiguous))
                   .(ctx := w.ctx, over := !delivered || w.fatal,
                     obtained := l.obtained + multiset(w.opens), closed := l.closed + multiset(w.closes) + shut)
  {
    hide AllQueuedFds, Once;
  }

  /** The first of the arrivals on one side has been received. */
  predicate FirstOf(side: Direction, arrivals: seq<Arrival>, rest: seq<Arrival>, arrived: seq<Event>) {
    arrivals != [] && rest == arrivals[1..] && arrived == [arrivals[0].On(side)]
  }

  /** At most one arrival, the first of its side. */
  predicate TakesFirst(fromClient: seq<Arrival>, fromHost: seq<Arrival>, client: seq<Arrival>, host: seq<Arrival>,
      arrived: seq<Event>)
  {
    || (client == fromClient && host == fromHost && arrived == [])
    || (client == fromClient && FirstOf(HostToClient, fromHost, host, arrived))
    || (host == fromHost && FirstOf(ClientToHost, fromClient, client, arrived))
  }

  lemma ArrivalAdds<C>(h: Handlers<C>, l: Link<C>, fromClient: seq<Arrival>, fromHost: seq<Arrival>,
      client: seq<Arrival>, host: seq<Arrival>, arrived: seq<Event>)
    requires TakesFirst(fromClient, fromHost, client, host, arrived) && !l.over
    ensures var now := AdvanceAll(h, l, arrived);
            && l.client.buf <= now.client.buf && l.host.buf <= now.host.buf
            && Left(now, client, host) + |arrived| == Left(l, fromClient, fromHost)
            && (arrived == [] ==> client == fromClient && host == fromHost)
            && |arrived| <= 1 && (arrived != [] ==> arrived[0].Arrives?)
  {
  }

  lemma ReceivesFirst<C>(h: Handlers<C>, l: Link<C>, arrived: seq<Event>, turn: Event)
    requires |arrived| <= 1 && turn.Serves?
    requires arrived != [] ==> arrived[0].Arrives? && !Ready(h.order, l.Source(arrived[0].direction).buf)
    ensures ReceivesWhenIdle(h, l, arrived) && ReceivesWhenIdle(h, l, arrived + [turn])
  {
  }

  ghost function Finds<C>(order: ByteOrder, l: Link<C>, direction: Direction): Turn {
    Turn(direction, Ready(order, l.Target(direction).buf), Backlog(order, l.host.buf), Backlog(order, l.client.buf), 0)
  }

  lemma TurnEffect<C>(h: Handlers<C>, l: Link<C>, direction: Direction, delivered: bool)
    requires !l.over
    ensures var m := Advance(h, l, Serves(direction, delivered));
            && m.Target(direction) == l.Target(direction)
            && |m.Source(direction).buf| <= |l.Source(direction).buf|
            && (!m.over && h.order.BigEndian? && Ready(h.order, l.Source(direction).buf) ==>
                  |m.Source(direction).buf| < |l.Source(direction).buf|)
            && (!m.over ==>
                  var found, left := Backlog(h.order, l.Source(direction).buf), Backlog(h.order, m.Source(direction).buf);
                  left == if found <= MAX_MESSAGES_PER_BATCH then 0 else found - MAX_MESSAGES_PER_BATCH)
  {
    BatchAdvances(h.For(direction), l.Pending(direction));
    hide Ready, Loop, Backlog, Shuts, AllQueuedFds;
  }

  /** A turn that has been taken, with the messages it handled. */
  ghost function Taken<C>(order: ByteOrder, l: Link<C>, m: Link<C>, direction: Direction): Turn {
    var found, left := Backlog(order, l.Source(direction).buf), Backlog(order, m.Source(direction).buf);
    Finds(order, l, direction).(handled := if m.over || found < left then 0 else found - left)
  }

  lemma TakenIs<C>(h: Handlers<C>, l: Link<C>, m: Link<C>, direction: Direction, delivered: bool)
    requires !l.over && m == Advance(h, l, Serves(direction, delivered))
    requires var e := l.Next(h, direction); e.ok && e.work.out == [] && e.work.reverse == [] ==> delivered
    ensures TurnDoes(h, l, m, direction, !m.over, Taken(h.order, l, m, direction), delivered)
  {
    hide Ready, Loop, Backlog, Shuts, AllQueuedFds, Stuck, Advance;
    TurnEffect(h, l, direction, delivered);
    if Stuck(h.order, l.Source(direction).buf) {
      StuckBatchIsIdle(h, l, direction);
    }
  }

  lemma DropsAreListed<C>(holds: C -> multiset<Fd>, l: Link<C>, held: seq<Fd>)
    requires multiset(held) == holds(l.ctx)
    ensures ClosedByDrops(holds, l) == Once(l.client.fds, []) + Once(l.host.fds, []) + Once(held + l.queued, [])
  {
    assert forall fd :: fd in held <==> fd in holds(l.ctx);
    assert (set fd | fd in holds(l.ctx) + multiset(l.queued) && fd >= 0)
        == (set fd | fd in held + l.queued && fd >= 0 && fd !in []);
  }

  ghost predicate OnlyServes(es: seq<Event>, side: Direction) {
    forall e :: e in es ==> e == Serves(side, true)
  }

  lemma SpinsSooner<C>(order: ByteOrder, l: Link<C>, client: seq<Arrival>, host: seq<Arrival>, n: nat, limit: nat)
    requires n <= limit
    ensures forall side | SpinsAlone(order, l, side, client, host, limit) :: SpinsAlone(order, l, side, client, host, n)
  {
  }

  lemma SpinsIs<C>(order: ByteOrder, l: Link<C>, side: Direction, client: seq<Arrival>, host: seq<Arrival>, n: nat)
    requires SpinsAlone(order, l, side, client, host, n)
    ensures ReadyAlone(order, l, side, client, host, n) && Stuck(order, l.Source(side).buf)
  {
  }

  lemma NoEvent<C>(h: Handlers<C>, l: Link<C>)
    ensures AdvanceAll(h, l, []) == l
  {
  }

  lemma OneEvent<C>(h: Handlers<C>, l: Link<C>, e: Event)
    ensures AdvanceAll(h, l, [e]) == Advance(h, l, e)
  {
    assert [e][1..] == [];
  }

  function Preferred(host: bool): Direction {
    if host then HostToClient else ClientToHost
  }
}
