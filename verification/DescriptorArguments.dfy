/**
 Which descriptor a message's descriptor argument is: the dispatch loop run over arms
 that decode their message by its description (sommelier/src/proxy.rs, wire.rs and the
 arms emitted by wayland_codegen/src/generator.rs).
 */
module DescriptorArguments {
  import opened Prelude
  import opened ShadowTables
  import opened Wire
  import opened Marshalling
  import opened Translations
  import opened Dispatch
  import opened Lifetimes
  import Forwarding

  /** The description a message is decoded by. */
  type Describe<!C> = (C, Message) -> seq<ArgType>

  /** A message that is not rejected has been decoded by its description, and the
      descriptors it used are those decoding takes. */
  ghost predicate Decodes<C(!new)>(p: Proxy<C>, describe: Describe<C>) {
    forall ctx, message, fds ::
      var r := p.dispatch(ctx, message, fds);
      r.Dispatched? && !Rejects(p, fds, r) ==> DecodesOne(p.order, describe(ctx, message), message, fds, r.fdsUsed)
  }

  predicate DecodesOne(order: ByteOrder, ts: seq<ArgType>, message: Message, fds: seq<Fd>, used: nat) {
    var read := ReadAll(order, ts, message.payload, 0, fds, 0);
    read.Arguments? && read.fdOffset == used
  }

  // ---- the forwarding arms ----

  /** Rejected whatever it consumed. */
  function Malformed(t: Table, target: Option<u32>): Reply<Table> {
    Reply.Dispatched(t, target, false, 0, ProtocolFailure, [], [], [], [], false)
  }

  /** What an arm of `Forwarding` reports to the loop. The event of an object whose
      destructor has been sent is `stale`: it is decoded and thrown away. */
  function ArmReply(order: ByteOrder, arm: Forwarding.Arm, stale: bool, t: Table, message: Message, fds: seq<Fd>,
      offers: seq<u32>, naming: seq<byte> -> Interface): Reply<Table>
  {
    match ReadAll(order, arm.args, message.payload, 0, fds, 0)
    case BadArguments(_) => Malformed(t, TargetOf(t, arm, message.sender))
    case Arguments(vs, end, used) =>
      var o := if !stale && TypedAll(vs, arm.args) && |offers| == |vs|
               then Forwarding.Forward(order, t, arm, message.sender, vs, offers, naming)
               else Forwarding.Outcome(t, Forwarding.Drop);
      Reply.Dispatched(o.table, TargetOf(t, arm, message.sender), end == |message.payload|, used, ResultOf(o.action),
                       [], [], [], [], false)
  }

  function TargetOf(t: Table, arm: Forwarding.Arm, sender: u32): Option<u32> {
    Lookup(To(t, arm.direction), sender)
  }

  function ResultOf(action: Forwarding.Action): Forwarded {
    match action
    case Send(bytes, sent) => Forwarded.Translated(bytes, sent)
    case Unbuildable(_) => ProtocolFailure
    case Refuse(verdict) => if verdict.Discard? then Nothing else ProtocolFailure
    case _ => Nothing
  }

  /** Running the arm, or consuming its stale event, reports exactly `ArmReply` and leaves
      the table it names; `None` is the allocator's panic. */
  method HandleArm(table: ShadowTable, order: ByteOrder, arm: Forwarding.Arm, stale: bool, message: Message, fds: seq<Fd>,
      naming: seq<byte> -> Interface) returns (reply: Option<Reply<Table>>, ghost offers: seq<u32>)
    requires GUEST_SERVER_ID_START <= table.nextGuestServerId
    requires arm.direction.HostToClient? ==> table.State().IsEventSenderKnown(message.sender)
    modifies table
    ensures reply.Some? ==>
              && reply.value == ArmReply(order, arm, stale, old(table.State()), message, fds, offers, naming)
              && reply.value.ctx == table.State()
    ensures reply.Some? && !stale ==>
              var read := ReadAll(order, arm.args, message.payload, 0, fds, 0);
              read.Arguments? ==>
                && |offers| == |read.values| && TypedAll(read.values, arm.args)
                && (Forwarding.Check(old(table.State()), arm, message.sender, read.values) == Forwarding.Pass ==>
                      FairOffers(old(table.State()), arm.direction, message.sender, arm.args, read.values, offers, naming))
    ensures stale ==> reply.Some?
  {
    hide ReadAll, Forwarding.Forward, FairOffers, To, TypedAll, Forwarding.Check;
    offers := [];
    var target := Lookup(if arm.direction.ClientToHost? then table.guestToHost else table.hostToGuest, message.sender);
    TargetIs(table.State(), arm, message.sender);
    var msg := new WireMessage(order, message.payload, fds);
    if stale {
      var error := Forwarding.ConsumeEvent(msg, arm);
      reply := Some(if error.Some? then Malformed(table.State(), target)
                    else Reply.Dispatched(table.State(), target, msg.offset == |msg.payload|, msg.fdOffset, Nothing,
                                          [], [], [], [], false));
      return;
    }
    var handled;
    handled, offers := Forwarding.RunArm(table, msg, arm, message.sender, naming);
    match handled {
      case Malformed(_) => reply := Some(Malformed(table.State(), target));
      case Aborted => reply := None;
      case Done(action) =>
        reply := Some(Reply.Dispatched(table.State(), target, msg.offset == |msg.payload|, msg.fdOffset, ResultOf(action),
                                       [], [], [], [], false));
    }
  }

  lemma TargetIs(t: Table, arm: Forwarding.Arm, sender: u32)
    ensures TargetOf(t, arm, sender)
         == Lookup(if arm.direction.ClientToHost? then t.guestToHost else t.hostToGuest, sender)
  {
  }

  /** Any table of such arms decodes what it accepts, stale events included. */
  lemma ArmsDecode(p: Proxy<Table>, arms: (Table, Message) -> Option<Forwarding.Arm>, stale: (Table, Message) -> bool,
      offers: (Table, Message) -> seq<u32>, naming: seq<byte> -> Interface, describe: Describe<Table>)
    requires forall t, m, fds ::
               p.dispatch(t, m, fds) == match arms(t, m)
                 case None => UnknownSender
                 case Some(arm) => ArmReply(p.order, arm, stale(t, m), t, m, fds, offers(t, m), naming)
    requires forall t, m :: arms(t, m).Some? ==> describe(t, m) == arms(t, m).value.args
    ensures Decodes(p, describe)
  {
    forall t, m, fds
      ensures var r := p.dispatch(t, m, fds);
              r.Dispatched? && !Rejects(p, fds, r) ==> DecodesOne(p.order, describe(t, m), m, fds, r.fdsUsed)
    {
      hide ReadAll, Forwarding.Forward, TypedAll, To;
      match arms(t, m)
      case None =>
      case Some(arm) =>
        assert p.dispatch(t, m, fds) == ArmReply(p.order, arm, stale(t, m), t, m, fds, offers(t, m), naming);
    }
  }

  // ---- one batch ----

  /** The arguments of the messages a batch handles, in order. */
  function LoopArguments<C>(p: Proxy<C>, describe: Describe<C>, w: Work<C>, n: nat): seq<Value>
    decreases n
  {
    if n == 0 then []
    else
      match Step(p, w)
      case Advanced(v) =>
        StepArguments(p, describe, w) + if v.fatal then [] else LoopArguments(p, describe, v, n - 1)
      case _ => []
  }

  function StepArguments<C>(p: Proxy<C>, describe: Describe<C>, w: Work<C>): seq<Value> {
    match NextFrame(p.order, w.buf)
    case Complete(message, _) =>
      if p.dispatch(w.ctx, message, w.fds).UnknownSender? then []
      else
        var read := ReadAll(p.order, describe(w.ctx, message), message.payload, 0, w.fds, 0);
        if read.Arguments? then read.values else []
    case _ => []
  }

  lemma AllFdsOf(vs: seq<Value>)
    ensures AllFds(vs) == if vs == [] then [] else EncodeFds(vs[0]) + AllFds(vs[1..])
  {
  }

  lemma {:induction false} AllFdsConcat(a: seq<Value>, b: seq<Value>)
    ensures AllFds(a + b) == AllFds(a) + AllFds(b)
  {
    hide AllFds, EncodeFds;
    AllFdsOf(a);
    if a == [] {
      assert a + b == b;
    } else {
      AllFdsConcat(a[1..], b);
      AllFdsOf(a + b);
      assert (a + b)[0] == a[0] && (a + b)[1..] == a[1..] + b;
    }
  }

  lemma StepTakes<C(!new)>(p: Proxy<C>, describe: Describe<C>, w: Work<C>)
    requires Decodes(p, describe) && Step(p, w).Advanced?
    ensures Step(p, w).work.taken == w.taken + AllFds(StepArguments(p, describe, w))
  {
    var message := NextFrame(p.order, w.buf).message;
    var r := p.dispatch(w.ctx, message, w.fds);
    if r.Dispatched? {
      assert DecodesOne(p.order, describe(w.ctx, message), message, w.fds, r.fdsUsed);
      Forwarding.ReadIs(p.order, describe(w.ctx, message), message.payload, 0, w.fds, 0);
    }
    hide ReadAll, TypedAll;
  }

  lemma {:induction false} LoopTakes<C(!new)>(p: Proxy<C>, describe: Describe<C>, w: Work<C>, n: nat)
    requires Decodes(p, describe)
    ensures Loop(p, w, n).work.taken == w.taken + AllFds(LoopArguments(p, describe, w, n))
    decreases n
  {
    LoopUnfolds(p, describe, w, n);
    hide StepArguments, Decodes, Step, AllFds, Loop, LoopArguments;
    if n > 0 && Step(p, w).Advanced? {
      var v, args := Step(p, w).work, StepArguments(p, describe, w);
      StepTakes(p, describe, w);
      if !v.fatal {
        LoopTakes(p, describe, v, n - 1);
        AllFdsConcat(args, LoopArguments(p, describe, v, n - 1));
      }
    } else {
      AllFdsOf([]);
    }
  }

  lemma LoopUnfolds<C>(p: Proxy<C>, describe: Describe<C>, w: Work<C>, n: nat)
    ensures !(n > 0 && Step(p, w).Advanced?) ==> Loop(p, w, n).work.taken == w.taken && LoopArguments(p, describe, w, n) == []
    ensures n > 0 && Step(p, w).Advanced? ==>
              var v, args := Step(p, w).work, StepArguments(p, describe, w);
              if v.fatal then Loop(p, w, n).work == v && LoopArguments(p, describe, w, n) == args
              else Loop(p, w, n) == Loop(p, v, n - 1)
                   && LoopArguments(p, describe, w, n) == args + LoopArguments(p, describe, v, n - 1)
  {
  }

  // ---- runs ----

  /** The arguments of every message handled in one direction over a run. */
  function RunArguments<C>(h: Handlers<C>, describe: Describe<C>, l: Link<C>, es: seq<Event>, side: Direction): seq<Value>
    decreases |es|
  {
    if es == [] then []
    else
      (if es[0].Serves? && es[0].direction == side && !l.over
       then LoopArguments(h.For(side), describe, l.Pending(side), MAX_MESSAGES_PER_BATCH) else [])
      + RunArguments(h, describe, Advance(h, l, es[0]), es[1..], side)
  }

  /** Every descriptor that arrived on one side. */
  function Arrived<C>(h: Handlers<C>, l: Link<C>, es: seq<Event>, side: Direction): seq<Fd>
    decreases |es|
  {
    if es == [] then []
    else (if es[0].Arrives? && es[0].direction == side && !l.over then es[0].fds else [])
         + Arrived(h, Advance(h, l, es[0]), es[1..], side)
  }

  lemma {:induction false} NothingAfterTheEnd<C>(h: Handlers<C>, describe: Describe<C>, l: Link<C>, es: seq<Event>,
      side: Direction)
    requires l.over
    ensures RunArguments(h, describe, l, es, side) == [] && Arrived(h, l, es, side) == []
    ensures AdvanceAll(h, l, es) == l
    decreases |es|
  {
    if es != [] {
      NothingAfterTheEnd(h, describe, l, es[1..], side);
    }
  }

  lemma LoopTakesFront<C(!new)>(p: Proxy<C>, describe: Describe<C>, w: Work<C>, n: nat)
    requires Decodes(p, describe) && w.taken == []
    ensures AllFds(LoopArguments(p, describe, w, n)) + Loop(p, w, n).work.fds == w.fds
  {
    LoopTakes(p, describe, w, n);
    LoopKeepsDescriptorOrder(p, w, n);
    hide *;
    assert [] + AllFds(LoopArguments(p, describe, w, n)) == AllFds(LoopArguments(p, describe, w, n));
    assert [] + w.fds == w.fds;
  }

  /** What a batch decodes comes off the front of the queue. */
  lemma BatchTakesFront<C(!new)>(h: Handlers<C>, describe: Describe<C>, l: Link<C>, side: Direction, delivered: bool)
    requires Decodes(h.For(side), describe) && !l.over
    ensures var args, after := LoopArguments(h.For(side), describe, l.Pending(side), MAX_MESSAGES_PER_BATCH),
                               Advance(h, l, Serves(side, delivered));
            && AllFds(args) <= l.Source(side).fds
            && (!after.over ==> AllFds(args) + after.Source(side).fds == l.Source(side).fds)
  {
    hide Decodes, LoopArguments, AllFds, Loop, Shuts, AllQueuedFds;
    LoopTakesFront(h.For(side), describe, l.Pending(side), MAX_MESSAGES_PER_BATCH);
  }

  lemma FrontThenRest(args: seq<Fd>, rest: seq<Fd>, queue: seq<Fd>, arrived: seq<Fd>, left: seq<Fd>, all: seq<Fd>)
    requires all == queue + arrived && args + left == queue && rest <= left + arrived
    ensures args + rest <= all
    ensures forall waiting :: rest + waiting == left + arrived ==> args + rest + waiting == all
  {
    assert all == args + (left + arrived);
    forall waiting | rest + waiting == left + arrived ensures args + rest + waiting == all {
      assert args + rest + waiting == args + (rest + waiting);
    }
  }

  /** The descriptor arguments decoded over a run, then what is still queued, are what was
      queued and what arrived, in this order. */
  ghost predicate Aligned<C>(h: Handlers<C>, describe: Describe<C>, l: Link<C>, es: seq<Event>, side: Direction) {
    var args, all, end := AllFds(RunArguments(h, describe, l, es, side)), l.Source(side).fds + Arrived(h, l, es, side),
                          AdvanceAll(h, l, es);
    && args <= all
    && (!end.over ==> args + end.Source(side).fds == all)
  }

  lemma ServingKeepsAlignment<C(!new)>(h: Handlers<C>, describe: Describe<C>, l: Link<C>, es: seq<Event>, side: Direction)
    requires Decodes(h.For(side), describe) && es != [] && !l.over && es[0].Serves? && es[0].direction == side
    requires Aligned(h, describe, Advance(h, l, es[0]), es[1..], side)
    ensures Aligned(h, describe, l, es, side)
  {
    var next := Advance(h, l, es[0]);
    var args := LoopArguments(h.For(side), describe, l.Pending(side), MAX_MESSAGES_PER_BATCH);
    var rest := RunArguments(h, describe, next, es[1..], side);
    BatchTakesFront(h, describe, l, side, es[0].delivered);
    AllFdsConcat(args, rest);
    if next.over {
      NothingAfterTheEnd(h, describe, next, es[1..], side);
      assert args + [] == args;
      assert Arrived(h, l, es, side) == [];
      hide Advance, AllFds, LoopArguments, Decodes;
      assert l.Source(side).fds + [] == l.Source(side).fds;
    } else {
      var arrived := Arrived(h, next, es[1..], side);
      assert Arrived(h, l, es, side) == [] + arrived == arrived;
      hide Advance, AllFds, LoopArguments, Decodes;
      FrontThenRest(AllFds(args), AllFds(rest), l.Source(side).fds, arrived, next.Source(side).fds, l.Source(side).fds + arrived);
    }
  }

  lemma OtherEventsAdd<C>(h: Handlers<C>, l: Link<C>, e: Event, side: Direction)
    requires !l.over && !(e.Serves? && e.direction == side)
    ensures Advance(h, l, e).Source(side).fds == l.Source(side).fds + if e.Arrives? && e.direction == side then e.fds else []
  {
    hide Loop, Shuts, AllQueuedFds;
  }

  lemma OtherEventsAre<C>(h: Handlers<C>, describe: Describe<C>, l: Link<C>, es: seq<Event>, side: Direction)
    requires es != [] && !l.over && !(es[0].Serves? && es[0].direction == side)
    ensures var next := Advance(h, l, es[0]);
            && RunArguments(h, describe, l, es, side) == RunArguments(h, describe, next, es[1..], side)
            && Arrived(h, l, es, side)
               == (if es[0].Arrives? && es[0].direction == side then es[0].fds else []) + Arrived(h, next, es[1..], side)
            && AdvanceAll(h, l, es) == AdvanceAll(h, next, es[1..])
  {
    hide Advance, LoopArguments;
    var rest := RunArguments(h, describe, Advance(h, l, es[0]), es[1..], side);
    assert RunArguments(h, describe, l, es, side) == [] + rest;
  }

  lemma JoinsInAnyOrder(a: seq<Fd>, b: seq<Fd>, c: seq<Fd>)
    ensures a + (b + c) == a + b + c
  {
  }

  lemma OtherEventsKeepAlignment<C>(h: Handlers<C>, describe: Describe<C>, l: Link<C>, es: seq<Event>, side: Direction)
    requires es != [] && !l.over && !(es[0].Serves? && es[0].direction == side)
    requires Aligned(h, describe, Advance(h, l, es[0]), es[1..], side)
    ensures Aligned(h, describe, l, es, side)
  {
    OtherEventsAre(h, describe, l, es, side);
    OtherEventsAdd(h, l, es[0], side);
    var now := if es[0].Arrives? && es[0].direction == side then es[0].fds else [];
    var next := Advance(h, l, es[0]);
    JoinsInAnyOrder(l.Source(side).fds, now, Arrived(h, next, es[1..], side));
    hide AllFds, Advance, AdvanceAll, RunArguments, Arrived, l.Source;
  }

  /** However bytes and descriptors arrive and batches fall, the k-th descriptor argument
      of the messages handled in a direction is the k-th descriptor that arrived on that
      side, and those not yet decoded wait in order. */
  lemma {:induction false} ArgumentsFollowArrivals<C(!new)>(h: Handlers<C>, describe: Describe<C>, l: Link<C>, es: seq<Event>,
      side: Direction)
    requires Decodes(h.For(side), describe)
    ensures Aligned(h, describe, l, es, side)
    decreases |es|
  {
    if l.over {
      NothingAfterTheEnd(h, describe, l, es, side);
    } else if es != [] {
      ArgumentsFollowArrivals(h, describe, Advance(h, l, es[0]), es[1..], side);
      hide Advance, RunArguments, Arrived, AllFds, Decodes;
      if es[0].Serves? && es[0].direction == side {
        ServingKeepsAlignment(h, describe, l, es, side);
      } else {
        OtherEventsKeepAlignment(h, describe, l, es, side);
      }
    }
  }
}
