/**
 The mutable side of `Dispatch`: a connection's buffers, and the client that moves
 messages between its two connections (sommelier/src/proxy.rs and connection.rs).
 Whether a send succeeds is a parameter.
 */
module ProxyLoop {
  import opened Prelude
  import opened Wire
  import opened Closing
  import opened Dispatch
  import opened Lifetimes
  import opened Fairness
  import opened Spinning
  import opened Turns
  import opened Relays

  /** Successive partial writes carry this many bytes, and descriptors with the first. */
  predicate Carries(writes: seq<nat>, length: nat, withFds: bool) {
    if length == 0 && !withFds then true
    else
      && writes != [] && (length == 0 || writes[0] > 0)
      && Carries(writes[1..], if writes[0] < length then length - writes[0] else 0, false)
  }

  /** Nothing to send, or a transport that carries it. */
  predicate Passable(writes: seq<nat>, data: seq<byte>, fds: seq<Fd>) {
    data == [] || Carries(writes, |data|, fds != [])
  }

  class Connection {
    var readBuf: seq<byte>
    var readFds: seq<Fd>
    var ambiguous: bool
    /** Everything handed to the transport. */
    var sent: seq<byte>
    var sentFds: seq<Fd>

    constructor ()
      ensures readBuf == [] && readFds == [] && !ambiguous && sent == [] && sentFds == []
    {
      readBuf, readFds, ambiguous, sent, sentFds := [], [], false, [], [];
    }

    function View(): Stream
      reads this
    {
      Stream(readBuf, readFds, ambiguous)
    }

    /** Bytes and descriptors join the ordered stream. */
    method Receive(arrival: Arrival)
      modifies this`readBuf, this`readFds
      ensures readBuf == old(readBuf) + arrival.bytes && readFds == old(readFds) + arrival.fds
    {
      readBuf, readFds := readBuf + arrival.bytes, readFds + arrival.fds;
    }

    /** What a batch has taken off the front is gone. */
    method Keep(rest: Stream)
      modifies this`readBuf, this`readFds, this`ambiguous
      ensures View() == rest
    {
      readBuf, readFds, ambiguous := rest.buf, rest.fds, rest.ambiguous;
    }

    method HasCompleteMessage(order: ByteOrder) returns (ready: bool)
      ensures ready == Ready(order, readBuf)
    {
      if |readBuf| < 8 {
        return false;
      }
      var length := BytesU16(order, [readBuf[4], readBuf[5]]);
      assert readBuf[4..6] == [readBuf[4], readBuf[5]];
      ready := length < 8 || length % 4 != 0 || length <= |readBuf|;
    }

    /** `writes` are the byte counts of successive partial writes; descriptors go with
        the first. Fails when a write makes no progress or the transport fails. */
    method Send(data: seq<byte>, fds: seq<Fd>, writes: seq<nat>) returns (ok: bool)
      modifies this`sent, this`sentFds
      ensures ok == Carries(writes, |data|, fds != [])
      ensures ok ==> sent == old(sent) + data
      ensures ok && (data != [] || fds != []) ==> sentFds == old(sentFds) + fds
      ensures !ok ==> exists n | 0 <= n <= |data| :: sent == old(sent) + data[..n]
      ensures !ok ==> sentFds in {old(sentFds), old(sentFds) + fds}
    {
      var dataOffset := 0;
      var fdsToSend := fds;
      var i := 0;
      while dataOffset < |data| || fdsToSend != []
        invariant 0 <= dataOffset <= |data| && 0 <= i <= |writes|
        invariant Carries(writes, |data|, fds != []) == Carries(writes[i..], |data| - dataOffset, fdsToSend != [])
        invariant sent == old(sent) + data[..dataOffset]
        invariant (fdsToSend == fds && sentFds == old(sentFds))
                  || (fdsToSend == [] && sentFds == old(sentFds) + fds)
        decreases |writes| - i
      {
        if i == |writes| {
          return false;
        }
        var remaining := |data| - dataOffset;
        var written := if writes[i] < remaining then writes[i] else remaining;
        assert writes[i..][1..] == writes[i + 1..];
        i := i + 1;
        if fdsToSend != [] {
          sentFds := sentFds + fdsToSend;
          fdsToSend := [];
        }
        sent := sent + data[dataOffset..dataOffset + written];
        assert data[..dataOffset] + data[dataOffset..dataOffset + written] == data[..dataOffset + written];
        dataOffset := dataOffset + written;
        if written == 0 && remaining > 0 {
          return false;
        }
      }
      assert data[..dataOffset] == data;
      ok := true;
    }
  }

  class Client<C(!new)> {
    const handlers: Handlers<C>
    const clientConn: Connection
    const hostConn: Connection
    var ctx: C
    /** Descriptors a failed batch left in the context's message queues. */
    var queued: seq<Fd>
    /** Descriptors closed so far, in order. */
    var closed: seq<Fd>
    ghost var received: multiset<Fd>
    ghost var obtained: multiset<Fd>
    ghost var over: bool

    constructor (handlers: Handlers<C>, ctx: C)
      ensures this.handlers == handlers && State() == Begin(ctx)
      ensures fresh(clientConn) && fresh(hostConn) && clientConn != hostConn && closed == []
    {
      this.handlers, this.ctx, queued, closed := handlers, ctx, [], [];
      received, obtained, over := multiset{}, multiset{}, false;
      clientConn := new Connection();
      hostConn := new Connection();
    }

    ghost function State(): Link<C>
      reads this, clientConn, hostConn
    {
      Link(ctx, clientConn.View(), hostConn.View(), queued, over, received, obtained, multiset(closed))
    }

    /** Everything handed to the two transports so far. */
    ghost function Spoken(): Outputs
      reads clientConn, hostConn
    {
      Outputs(Output(hostConn.sent, hostConn.sentFds), Output(clientConn.sent, clientConn.sentFds))
    }

    function Source(direction: Direction): Connection {
      if direction.ClientToHost? then clientConn else hostConn
    }

    function Target(direction: Direction): Connection {
      if direction.ClientToHost? then hostConn else clientConn
    }

    /** The stream of one direction, nothing collected from it yet. */
    function Pending(direction: Direction): (w: Work<C>)
      reads this, clientConn, hostConn
      ensures w == State().Pending(direction)
    {
      var c := Source(direction);
      Work(ctx, c.readBuf, c.readFds, c.ambiguous, [], [], [], [], [], [], [], false)
    }

    /** How the message loop of the next batch ends. */
    function Next(direction: Direction): Exit<C>
      reads this, clientConn, hostConn
    {
      Loop(handlers.For(direction), Pending(direction), MAX_MESSAGES_PER_BATCH)
    }

    /** The message loop of one batch, which changes nothing but what it collects. */
    method Collect(direction: Direction) returns (w: Work<C>, ok: bool, leftover: seq<Queued>)
      ensures Exit(w, ok, leftover) == Next(direction)
    {
      hide Step, Loop;
      var p := handlers.For(direction);
      w, ok, leftover := Pending(direction), true, [];
      var processed := 0;
      while processed < MAX_MESSAGES_PER_BATCH
        invariant 0 <= processed <= MAX_MESSAGES_PER_BATCH && ok && leftover == []
        invariant Loop(p, w, MAX_MESSAGES_PER_BATCH - processed) == Next(direction)
        decreases MAX_MESSAGES_PER_BATCH - processed
      {
        LoopIs(p, w, MAX_MESSAGES_PER_BATCH - processed);
        var next := TakeOne(direction, w);
        match next {
          case Waiting =>
            return;
          case Failed(v, rest) =>
            return v, false, rest;
          case Advanced(v) =>
            w := v;
            processed := processed + 1;
            if w.fatal {
              return;
            }
        }
      }
      LoopIs(p, w, 1);
    }

    /** One iteration of the message loop. */
    method TakeOne(direction: Direction, w: Work<C>) returns (next: Progress<C>)
      ensures next == Step(handlers.For(direction), w)
    {
      var order := handlers.order;
      if |w.buf| < 8 {
        return Progress.Waiting;
      }
      var word := BytesU32(order, w.buf[4..8]);
      var length := word / 0x1_0000;
      if !ValidLength(length) {
        return Failed(w, []);
      }
      if length > |w.buf| {
        return Progress.Waiting;
      }
      if w.ambiguous {
        return Failed(w, []);
      }
      var message := Message(BytesU32(order, w.buf[..4]), word % 0x1_0000, w.buf[8..length]);
      var reply := handlers.For(direction).dispatch(w.ctx, message, w.fds);
      if reply.UnknownSender? {
        next := if direction.ClientToHost? then Failed(w, [])
                else Advanced(w.(buf := w.buf[length..], ambiguous := w.fds != []));
        return;
      }
      var u := w.(ctx := reply.ctx, opens := w.opens + reply.opens, closes := w.closes + reply.closes);
      if !reply.payloadConsumed || reply.result.ProtocolFailure? || reply.fdsUsed > |w.fds| {
        next := Failed(u, reply.forward + reply.reverse);
      } else {
        var v := Gathered(u, length, reply);
        next := Advanced(v);
      }
    }

    /** Append everything a handler queued, in order. */
    method Append(data: seq<byte>, fds: seq<Fd>, queued: seq<Queued>) returns (out: seq<byte>, outFds: seq<Fd>)
      ensures out == data + AllData(queued) && outFds == fds + AllQueuedFds(queued)
    {
      out, outFds := data, fds;
      NothingQueued(queued);
      hide AllData, AllQueuedFds;
      for i := 0 to |queued|
        invariant out == data + AllData(queued[..i])
        invariant outFds == fds + AllQueuedFds(queued[..i])
      {
        OneMoreQueued(queued, i);
        out := out + queued[i].data;
        outFds := outFds + queued[i].fds;
      }
    }

    /** Append the forwarded copy, then what the handler queued behind it. */
    method Gathered(w: Work<C>, length: nat, reply: Reply<C>) returns (v: Work<C>)
      requires length <= |w.buf| && reply.Dispatched? && reply.fdsUsed <= |w.fds|
      ensures v == w.(
          buf := w.buf[length..],
          fds := w.fds[reply.fdsUsed..],
          taken := w.taken + w.fds[..reply.fdsUsed],
          out := w.out + (if reply.result.Translated? then Patched(handlers.order, reply.result.data, reply.target) else [])
                 + AllData(reply.forward),
          outFds := w.outFds + (if reply.result.Translated? then reply.result.fds else []) + AllQueuedFds(reply.forward),
          made := w.made + AllQueuedFds(reply.forward),
          reverse := w.reverse + reply.reverse,
          fatal := w.fatal || reply.fatal)
    {
      var out, outFds := w.out, w.outFds;
      if reply.result.Translated? {
        out := out + Patched(handlers.order, reply.result.data, reply.target);
        outFds := outFds + reply.result.fds;
      }
      hide AllData, AllQueuedFds, Patched;
      out, outFds := Append(out, outFds, reply.forward);
      v := w.(buf := w.buf[length..], fds := w.fds[reply.fdsUsed..],
              taken := w.taken + w.fds[..reply.fdsUsed], out := out, outFds := outFds,
              made := w.made + AllQueuedFds(reply.forward), reverse := w.reverse + reply.reverse,
              fatal := w.fatal || reply.fatal);
    }

    /** Send what a batch collected, forward first and then in reply, even if the first fails. */
    method Deliver(direction: Direction, w: Work<C>, writes: seq<nat>, replyWrites: seq<nat>) returns (ok: bool)
      requires clientConn != hostConn
      modifies clientConn`sent, clientConn`sentFds, hostConn`sent, hostConn`sentFds
      ensures ok ==> Hands(direction, w, old(Spoken()), Spoken())
      ensures ok == (Passable(writes, w.out, w.outFds) && Passable(replyWrites, AllData(w.reverse), AllQueuedFds(w.reverse)))
    {
      hide AllData, AllQueuedFds;
      ok := true;
      if w.out != [] {
        ok := Target(direction).Send(w.out, w.outFds, writes);
      }
      var reply, replyFds := AllData(w.reverse), AllQueuedFds(w.reverse);
      if reply != [] {
        var replied := Source(direction).Send(reply, replyFds, replyWrites);
        ok := ok && replied;
      }
    }

    /** Enter a batch's descriptors in the books, and close its share of them. */
    method Settle(w: Work<C>, fds: seq<Fd>, spared: seq<Fd>) returns (justClosed: seq<Fd>)
      modifies this`closed, this`obtained
      ensures closed == old(closed) + w.closes + justClosed && multiset(justClosed) == Once(fds, spared)
      ensures multiset(closed) == old(multiset(closed)) + multiset(w.closes) + Once(fds, spared)
      ensures obtained == old(obtained) + multiset(w.opens)
    {
      justClosed := CloseEach(fds, spared);
      hide Once;
      closed := closed + w.closes + justClosed;
      obtained := obtained + multiset(w.opens);
    }

    /** After an error: close what handlers queued; what was received stays buffered, and
        the context keeps its unsent messages. */
    method Abandon(direction: Direction, w: Work<C>, leftover: seq<Queued>) returns (justClosed: seq<Fd>)
      requires clientConn != hostConn
      modifies this`closed, this`obtained, this`ctx, this`queued, this`over
      ensures State() == old(State()).After(direction, Exit(w, false, leftover), false) && over
      ensures closed == old(closed) + w.closes + justClosed && multiset(justClosed) == Shuts(Exit(w, false, leftover))
    {
      ghost var before := State();
      AbandonIs(before, direction, w, leftover);
      hide AllQueuedFds, Once, Shuts, before.After;
      justClosed := Settle(w, w.outFds, w.taken + w.fds);
      ctx, queued, over := w.ctx, AllQueuedFds(w.reverse + leftover), true;
    }

    /** After the sends: close what went out or was consumed, and drop it from the buffers. */
    method Finish(direction: Direction, w: Work<C>, delivered: bool) returns (justClosed: seq<Fd>)
      requires clientConn != hostConn
      modifies this`closed, this`obtained, this`ctx, this`over
      modifies Source(direction)`readBuf, Source(direction)`readFds, Source(direction)`ambiguous
      ensures State() == old(State()).After(direction, Exit(w, true, []), delivered) && over == (!delivered || w.fatal)
      ensures closed == old(closed) + w.closes + justClosed && multiset(justClosed) == Shuts(Exit(w, true, []))
    {
      ghost var before := State();
      FinishIs(before, direction, w, delivered);
      hide AllQueuedFds, Once, Shuts, before.After;
      justClosed := Settle(w, w.outFds + AllQueuedFds(w.reverse) + w.taken, []);
      if direction.ClientToHost? {
        clientConn.Keep(Stream(w.buf, w.fds, w.ambiguous));
      } else {
        hostConn.Keep(Stream(w.buf, w.fds, w.ambiguous));
      }
      ctx, over := w.ctx, !delivered || w.fatal;
    }

    /** One batch: dispatch, send, reply, and close what was consumed or created. Its
        effect on the connections, the context and the descriptors is that of `Advance`. */
    method HandleMessages(direction: Direction, writes: seq<nat>, replyWrites: seq<nat>)
        returns (ok: bool, justClosed: seq<Fd>, ghost delivered: bool)
      requires clientConn != hostConn && !over
      modifies this, clientConn, hostConn
      ensures State() == Advance(handlers, old(State()), Serves(direction, delivered))
      ensures ok == !over
      ensures closed == old(closed) + old(Next(direction)).work.closes + justClosed
      ensures multiset(justClosed) == Shuts(old(Next(direction)))
      ensures var e := old(Next(direction));
              delivered == (e.ok && Passable(writes, e.work.out, e.work.outFds)
                            && Passable(replyWrites, AllData(e.work.reverse), AllQueuedFds(e.work.reverse)))
      ensures Relayed(handlers, old(State()), [Serves(direction, delivered)], old(Spoken()), Spoken())
      ensures !old(Next(direction)).ok ==> Spoken() == old(Spoken())
    {
      FinishedLeavesNothing(handlers.For(direction), Pending(direction), MAX_MESSAGES_PER_BATCH);
      hide Loop, Shuts, AllData, AllQueuedFds, Relayed, Passable, Hands;
      ghost var before, spoken := State(), Spoken();
      assert Next(direction) == before.Next(handlers, direction);
      var w, collected, leftover := Collect(direction);
      if collected {
        ok := Deliver(direction, w, writes, replyWrites);
        delivered := ok;
        assert State() == before;
        justClosed := Finish(direction, w, ok);
        ok := ok && !w.fatal;
      } else {
        justClosed := Abandon(direction, w, leftover);
        ok, delivered := false, false;
        assert State() == before.After(direction, Exit(w, false, leftover), false);
      }
      HandedIsRelayed(handlers, before, direction, delivered, spoken, Spoken());
    }

    /** One receive on one of the connections. */
    method Receive(direction: Direction, arrival: Arrival)
      requires clientConn != hostConn && !over
      modifies this`received, clientConn`readBuf, clientConn`readFds, hostConn`readBuf, hostConn`readFds
      ensures State() == Advance(handlers, old(State()), arrival.On(direction))
    {
      Source(direction).Receive(arrival);
      received := received + multiset(arrival.fds);
    }

    /** Choose the next buffered direction. Only when the preferred side has nothing
        complete and the other one has is the preferred transport probed, once. */
    method NextBufferedDirection(preferHost: bool, probe: Option<Arrival>)
        returns (direction: Option<Direction>, used: bool)
      requires clientConn != hostConn && !over
      modifies this`received, clientConn`readBuf, clientConn`readFds, hostConn`readBuf, hostConn`readFds
      ensures used == (probe.Some? && old(!Ready(handlers.order, Source(Preferred(preferHost)).readBuf)
                                          && Ready(handlers.order, Source(Preferred(!preferHost)).readBuf)))
      ensures State() == if used then Advance(handlers, old(State()), probe.value.On(Preferred(preferHost))) else old(State())
      ensures direction == NextDirection(preferHost, old(Ready(handlers.order, hostConn.readBuf)),
                                         old(Ready(handlers.order, clientConn.readBuf)),
                                         used && Ready(handlers.order, Source(Preferred(preferHost)).readBuf))
    {
      hide Ready;
      var preferred, fallback := Preferred(preferHost), Preferred(!preferHost);
      used := false;
      var ready := Source(preferred).HasCompleteMessage(handlers.order);
      if ready {
        return Some(preferred), false;
      }
      var other := Source(fallback).HasCompleteMessage(handlers.order);
      if !other {
        return None, false;
      }
      if probe.Some? {
        Receive(preferred, probe.value);
        used := true;
      }
      ready := Source(preferred).HasCompleteMessage(handlers.order);
      direction := Some(if ready then preferred else fallback);
    }

    /** A buffered turn, if there is one: `waits` says that neither side is ready. */
    method BufferedTurn(preferHost: bool, n: nat, fromClient: seq<Arrival>, fromHost: seq<Arrival>)
        returns (direction: Option<Direction>, waits: bool, client: seq<Arrival>, host: seq<Arrival>, ghost arrived: seq<Event>)
      requires clientConn != hostConn && !over
      modifies this`received, clientConn`readBuf, clientConn`readFds, hostConn`readBuf, hostConn`readFds
      ensures State() == AdvanceAll(handlers, old(State()), arrived) && !over
      ensures TakesFirst(fromClient, fromHost, client, host, arrived)
      ensures waits == old(!Ready(handlers.order, clientConn.readBuf) && !Ready(handlers.order, hostConn.readBuf))
      ensures waits ==> arrived == [] && direction == None
      ensures arrived != [] ==> arrived[0].Arrives? && arrived[0].direction == Preferred(preferHost)
                                && !old(Ready(handlers.order, Source(Preferred(preferHost)).readBuf))
      ensures direction.Some? && arrived == [] ==> old(Ready(handlers.order, Source(direction.value).readBuf))
      ensures direction.Some? && direction.value != Preferred(preferHost) ==>
                !Ready(handlers.order, Source(Preferred(preferHost)).readBuf)
      ensures old(Ready(handlers.order, Source(Preferred(preferHost)).readBuf)) ==> direction.Some? && arrived == []
      ensures !waits && Quiet(if preferHost then fromHost else fromClient, n) ==> direction.Some? && arrived == []
    {
      client, host, arrived := fromClient, fromHost, [];
      var queue := if preferHost then host else client;
      var probe := if queue != [] && queue[0].from <= n then Some(queue[0]) else None;
      hide Ready, Advance;
      var used;
      direction, used := NextBufferedDirection(preferHost, probe);
      waits := direction.None?;
      if used {
        OneEvent(handlers, old(State()), probe.value.On(Preferred(preferHost)));
        arrived := [probe.value.On(Preferred(preferHost))];
        client, host := if preferHost then client else client[1..], if preferHost then host[1..] else host;
        if probe.value.bytes == [] {
          direction := None;
        }
      }
    }

    /** Whichever connection becomes readable first. */
    method NextArrival(fromClient: seq<Arrival>, fromHost: seq<Arrival>, pickHost: bool)
        returns (direction: Option<Direction>, client: seq<Arrival>, host: seq<Arrival>, ghost arrived: seq<Event>)
      requires clientConn != hostConn && !over
      modifies this`received, clientConn`readBuf, clientConn`readFds, hostConn`readBuf, hostConn`readFds
      ensures State() == AdvanceAll(handlers, old(State()), arrived) && !over
      ensures TakesFirst(fromClient, fromHost, client, host, arrived)
      ensures arrived != [] ==>
                arrived[0].Arrives? && Target(arrived[0].direction).View() == old(Target(arrived[0].direction).View())
      ensures if fromHost != [] && (pickHost || fromClient == [])
              then client == fromClient && FirstOf(HostToClient, fromHost, host, arrived)
              else if fromClient != [] then host == fromHost && FirstOf(ClientToHost, fromClient, client, arrived)
              else client == fromClient && host == fromHost && arrived == []
      ensures direction == if arrived != [] && arrived[0].bytes != [] then Some(arrived[0].direction) else None
    {
      client, host, direction, arrived := fromClient, fromHost, None, [];
      var side := if host != [] && (pickHost || client == []) then HostToClient else ClientToHost;
      var queue := if side.HostToClient? then host else client;
      if queue != [] {
        Receive(side, queue[0]);
        arrived := [queue[0].On(side)];
        direction := if queue[0].bytes == [] then None else Some(side);
        client, host := if side.HostToClient? then client else client[1..], if side.HostToClient? then host[1..] else host;
      }
    }

    /** The next turn: a buffered one, or else one that waits for an arrival. `None` when
        a peer has closed or nothing more arrives. */
    method NextTurn(preferHost: bool, n: nat, fromClient: seq<Arrival>, fromHost: seq<Arrival>, pickHost: bool)
        returns (direction: Option<Direction>, client: seq<Arrival>, host: seq<Arrival>, ghost arrived: seq<Event>)
      requires clientConn != hostConn && !over
      modifies this`received, clientConn`readBuf, clientConn`readFds, hostConn`readBuf, hostConn`readFds
      ensures Chosen(handlers, old(State()), State(), preferHost, n, fromClient, fromHost, client, host, direction, arrived)
    {
      hide Ready, Advance, TakesFirst;
      var waits;
      direction, waits, client, host, arrived := BufferedTurn(preferHost, n, fromClient, fromHost);
      if waits {
        direction, client, host, arrived := NextArrival(fromClient, fromHost, pickHost);
      }
    }

    /** One turn. With big-endian words a batch for a ready side shortens its buffer or fails. */
    method TakeTurn(direction: Direction, writes: seq<nat>, replyWrites: seq<nat>)
        returns (ok: bool, ghost turn: Turn, ghost delivered: bool)
      requires clientConn != hostConn && !over
      modifies this, clientConn, hostConn
      ensures TurnDoes(handlers, old(State()), State(), direction, ok, turn, delivered)
      ensures Relayed(handlers, old(State()), [Serves(direction, delivered)], old(Spoken()), Spoken())
    {
      hide Relayed, Ready, Loop, Shuts, Stuck, Advance, Once, TurnDoes, Taken;
      ghost var before := State();
      assert Next(direction) == before.Next(handlers, direction);
      var closedNow;
      ok, closedNow, delivered := HandleMessages(direction, writes, replyWrites);
      turn := Taken(handlers.order, before, State(), direction);
      TakenIs(handlers, before, State(), direction, delivered);
    }

    /** Choose a side and give it a turn, unless there is nothing to choose from. */
    method Round(preferHost: bool, n: nat, fromClient: seq<Arrival>, fromHost: seq<Arrival>, pickHost: bool,
        writes: seq<nat>, replyWrites: seq<nat>)
        returns (direction: Option<Direction>, ok: bool, client: seq<Arrival>, host: seq<Arrival>,
                 ghost turn: Turn, ghost es: seq<Event>)
      requires clientConn != hostConn && !over
      modifies this, clientConn, hostConn
      ensures RoundDoes(handlers, old(State()), State(), preferHost, n, fromClient, fromHost, client, host, direction, ok, turn,
                        es)
      ensures Relayed(handlers, old(State()), es, old(Spoken()), Spoken())
    {
      ghost var before, arrived, spoken := State(), [], Spoken();
      hide Chosen, TurnDoes, RoundDoes, Relayed;
      direction, client, host, arrived := NextTurn(preferHost, n, fromClient, fromHost, pickHost);
      ghost var chosen := State();
      ok, turn, es := false, Finds(handlers.order, chosen, ClientToHost), arrived;
      ChosenMeans(handlers, before, chosen, preferHost, n, fromClient, fromHost, client, host, direction, arrived);
      ChosenRelays(handlers, before, chosen, preferHost, n, fromClient, fromHost, client, host, direction, arrived, spoken);
      if direction.Some? {
        ghost var delivered;
        ok, turn, delivered := TakeTurn(direction.value, writes, replyWrites);
        TakenDoes(handlers, before, chosen, State(), preferHost, n, fromClient, fromHost, client, host,
                  direction.value, arrived, ok, turn, delivered);
        es := arrived + [Serves(direction.value, delivered)];
        RelayedFurther(handlers, before, arrived, [Serves(direction.value, delivered)], spoken, spoken, Spoken());
      } else {
        NothingTaken(handlers, before, chosen, preferHost, n, fromClient, fromHost, client, host, turn, arrived);
      }
    }

    /** The whole loop, until a batch fails, a peer closes, nothing more arrives, or it is
        cut short after `limit` turns. It is a run of the two connections. It is fair by
        what the readiness probe reports. With big-endian words every turn consumes an
        arrival or shortens a buffer, so it ends by itself, and no message waits for more
        than its share of the other side's turns. In either order a side is received from
        only while it is not reported ready, so a stuck one never is; and if nothing can be
        had from the other, the loop goes round with the same state for any number of turns. */
    method Run(fromClient: seq<Arrival>, fromHost: seq<Arrival>, picksHost: nat -> bool,
        writes: nat -> seq<nat>, replyWrites: nat -> seq<nat>, limit: nat)
        returns (cut: bool, ghost turns: seq<Turn>, ghost es: seq<Event>)
      requires clientConn != hostConn && !over
      modifies this, clientConn, hostConn
      ensures State() == AdvanceAll(handlers, old(State()), es)
      ensures Fair(turns) && |turns| <= limit && (cut ==> |turns| == limit)
      ensures handlers.order.BigEndian? ==> |turns| <= Left(old(State()), fromClient, fromHost) && WaitsAreBounded(turns)
      ensures ReceivesWhenIdle(handlers, old(State()), es)
      ensures forall side | SpinsAlone(handlers.order, old(State()), side, fromClient, fromHost, limit) ::
                cut && |turns| == limit && State() == old(State()) && OnlyServes(es, side)
      ensures Relayed(handlers, old(State()), es, old(Spoken()), Spoken())
    {
      var client, host, preferHost, n, ended := fromClient, fromHost, true, 0, false;
      ghost var begin, spoken := State(), Spoken();
      turns, es := [], [];
      RunningBegins(handlers, begin, fromClient, fromHost, limit);
      NothingRelayed(handlers, begin, es, spoken);
      hide Running, RoundDoes, Relayed;
      while n < limit && !ended
        invariant n == |turns| && (!ended ==> !over)
        invariant Running(handlers, begin, State(), fromClient, fromHost, limit, client, host, preferHost, turns, es, ended)
        invariant Relayed(handlers, begin, es, spoken, Spoken())
        decreases limit - n, !ended
      {
        ghost var l, coming, awaited, said := State(), client, host, Spoken();
        ghost var turn, happened;
        var direction, ok;
        direction, ok, client, host, turn, happened :=
          Round(preferHost, n, client, host, picksHost(n), writes(n), replyWrites(n));
        RoundKeepsRunning(handlers, begin, l, State(), fromClient, fromHost, limit, coming, awaited, client, host,
                          preferHost, turns, es, direction, ok, turn, happened);
        RelayedFurther(handlers, begin, es, happened, spoken, said, Spoken());
        es := es + happened;
        if direction.Some? {
          turns := turns + [turn];
          preferHost, n := direction.value.ClientToHost?, n + 1;
        }
        ended := !ok;
      }
      cut := !ended;
      RunningEnds(handlers, begin, State(), fromClient, fromHost, limit, client, host, preferHost, turns, es, ended);
    }

    /** Drop the two connections, then the context, which still holds `held`. */
    method Shutdown(held: seq<Fd>)
      requires clientConn != hostConn
      modifies this`closed, clientConn`readFds, hostConn`readFds
      ensures clientConn.readFds == [] && hostConn.readFds == []
      ensures multiset(closed) == old(multiset(closed)) + Once(old(clientConn.readFds), []) + Once(old(hostConn.readFds), [])
                                  + Once(held + queued, [])
    {
      var fromClient := CloseEach(clientConn.readFds, []);
      var fromHost := CloseEach(hostConn.readFds, []);
      var fromContext := CloseEach(held + queued, []);
      hide Once;
      clientConn.readFds, hostConn.readFds := [], [];
      closed := closed + fromClient + fromHost + fromContext;
    }

    /** A connection from beginning to end. `release` lists what the context holds when it
        is dropped. If descriptors arrive under unused numbers and the handlers are honest,
        everything received or obtained has been closed exactly once in the end. */
    method Serve(fromClient: seq<Arrival>, fromHost: seq<Arrival>, picksHost: nat -> bool,
        writes: nat -> seq<nat>, replyWrites: nat -> seq<nat>, limit: nat, release: C -> seq<Fd>, ghost holds: C -> multiset<Fd>)
        returns (ghost es: seq<Event>)
      requires clientConn != hostConn && !over && Sound(holds, State())
      requires forall c :: multiset(release(c)) == holds(c)
      modifies this, clientConn, hostConn
      ensures received == AdvanceAll(handlers, old(State()), es).received
      ensures obtained == AdvanceAll(handlers, old(State()), es).obtained
      ensures AllFit(handlers, holds, old(State()), es) ==> multiset(closed) == received + obtained
    {
      hide AdvanceAll, AllFit, Sound, Left, Once, WaitsAreBounded, Fair;
      ghost var begin, turns := State(), [];
      var cut;
      cut, turns, es := Run(fromClient, fromHost, picksHost, writes, replyWrites, limit);
      ghost var end := State();
      if AllFit(handlers, holds, begin, es) {
        EveryDescriptorClosedOnce(handlers, holds, begin, es);
        DropsAreListed(holds, end, release(ctx));
      }
      Shutdown(release(ctx));
    }
  }
}
