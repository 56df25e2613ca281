/**
 The dispatch arms emitted by wayland_codegen/src/generator.rs, interpreted over a
 message's description: read, validate, translate, write and send, in either
 direction, for the messages whose handler answers `Action::Forward` and leaves the
 table alone.
 */
module Forwarding {
  import opened Prelude
  import opened ShadowTables
  import opened Wire
  import opened Marshalling
  import opened Dispatch
  import opened Translations

  /** One request or event of the protocol description. */
  datatype Arm = Arm(direction: Direction, opcode: u16, since: Option<u32>, destructor: bool, args: seq<ArgType>)

  // ---- validation ----

  datatype Verdict = Pass | Discard | InvalidObjectId(id: u32) | UnsupportedVersion(required: u32, actual: u32)

  /** Is a non-null object argument one the arm may go on with? */
  predicate AcceptsObject(t: Table, d: Direction, interface: Option<Interface>, id: u32) {
    if d.ClientToHost? then
      && id !in t.pendingDestroyGuestIds
      && (if interface.Some? then
            t.GuestObjectMatches(id, interface.value) && (id in t.guestToHost || t.IsLocalOnlyGuestObject(id))
          else id in t.guestToHost)
    else
      && (interface.Some? ==> !t.IsPendingDestroyHost(id) && t.HostObjectMatches(id, interface.value))
      && id in t.hostToGuest
  }

  /** A request's bad object is an error; an event's makes the proxy discard the event. */
  function CheckArgument(t: Table, d: Direction, ty: ArgType, v: Value): Verdict
    requires Typed(v, ty)
  {
    match ty
    case NewId(_) =>
      if Available(t, d, Introduced(v).value) then Pass else InvalidObjectId(Introduced(v).value)
    case Object(interface, nullable) =>
      if (nullable && v.target == 0) || AcceptsObject(t, d, interface, v.target) then Pass
      else if d.ClientToHost? then InvalidObjectId(v.target)
      else Discard
    case _ => Pass
  }

  function CheckArguments(t: Table, d: Direction, ts: seq<ArgType>, vs: seq<Value>): Verdict
    requires TypedAll(vs, ts)
  {
    if vs == [] then Pass
    else
      var first := CheckArgument(t, d, ts[0], vs[0]);
      if first != Pass then first else CheckArguments(t, d, ts[1..], vs[1..])
  }

  function CheckVersion(t: Table, arm: Arm, sender: u32): Verdict {
    if arm.since.None? then Pass
    else
      match ObjectVersion(t, arm.direction, sender)
      case None => InvalidObjectId(sender)
      case Some(actual) => if actual < arm.since.value then UnsupportedVersion(arm.since.value, actual) else Pass
  }

  function Check(t: Table, arm: Arm, sender: u32, vs: seq<Value>): Verdict
    requires TypedAll(vs, arm.args)
  {
    var request := arm.direction.ClientToHost?;
    if !request && !t.IsEventSenderKnown(sender) then Discard
    else if request && sender in t.pendingDestroyGuestIds then InvalidObjectId(sender)
    else if CheckVersion(t, arm, sender) != Pass then CheckVersion(t, arm, sender)
    else if CheckArguments(t, arm.direction, arm.args, vs) != Pass then CheckArguments(t, arm.direction, arm.args, vs)
    else if request && sender !in t.guestToHost && !t.IsLocalOnlyGuestObject(sender) then InvalidObjectId(sender)
    else Pass
  }

  // ---- forwarding ----

  datatype Action =
    | Refuse(verdict: Verdict)
    | Drop
    | DestroyLocally
    | Unbuildable(error: WireError)
    | Send(bytes: seq<byte>, fds: seq<Fd>)

  datatype Outcome = Outcome(table: Table, action: Action)

  /** A destructor ends the sender's pair at once, unless the host will confirm it. */
  predicate Unpairs(arm: Arm, sender: u32) {
    arm.destructor && (arm.direction.HostToClient? || sender >= GUEST_SERVER_ID_START)
  }

  function AfterDestructor(t: Table, arm: Arm, sender: u32, partner: u32): Table {
    if !arm.destructor then t
    else if arm.direction.HostToClient? then t.RemoveId(partner)
    else if sender >= GUEST_SERVER_ID_START then t.RemoveId(sender)
    else t.MarkPendingDestroy(sender)
  }

  function Forward(order: ByteOrder, t: Table, arm: Arm, sender: u32, vs: seq<Value>, offers: seq<u32>,
      naming: seq<byte> -> Interface): Outcome
    requires TypedAll(vs, arm.args) && |offers| == |vs|
  {
    if Check(t, arm, sender, vs) != Pass then Outcome(t, Refuse(Check(t, arm, sender, vs)))
    else
      match Translate(t, arm.direction, sender, arm.args, vs, offers, naming)
      case GivenUp(u) => Outcome(u, Drop)
      case Translation(u, values) => Dispatched(order, t, u, arm, sender, values)
  }

  /** The sender is looked up before the handler runs, so in the table as it was. */
  function Dispatched(order: ByteOrder, before: Table, t: Table, arm: Arm, sender: u32, values: seq<Value>): Outcome {
    if sender !in To(before, arm.direction) then
      Outcome(t, if arm.destructor && arm.direction.ClientToHost? then DestroyLocally else Drop)
    else
      var partner := To(before, arm.direction)[sender];
      match Build(order, partner, arm.opcode, EncodeAll(order, values))
      case Err(e) => Outcome(t, Unbuildable(e))
      case Ok(bytes) => Outcome(AfterDestructor(t, arm, sender, partner), Send(bytes, AllFds(values)))
  }

  // ---- what validation buys ----

  /** A message's arguments pass exactly when each of them does. */
  lemma {:induction false} PassingMeans(t: Table, d: Direction, ts: seq<ArgType>, vs: seq<Value>)
    requires TypedAll(vs, ts)
    ensures CheckArguments(t, d, ts, vs) == Pass <==> forall i | 0 <= i < |vs| :: CheckArgument(t, d, ts[i], vs[i]) == Pass
    decreases |vs|
  {
    hide CheckArgument, Typed;
    if vs != [] {
      PassingMeans(t, d, ts[1..], vs[1..]);
      forall i | 0 <= i < |vs[1..]| ensures ts[1..][i] == ts[i + 1] && vs[1..][i] == vs[i + 1] {
      }
      if CheckArguments(t, d, ts, vs) == Pass {
        forall i | 0 <= i < |vs| ensures CheckArgument(t, d, ts[i], vs[i]) == Pass {
          assert i > 0 ==> CheckArgument(t, d, ts[1..][i - 1], vs[1..][i - 1]) == Pass;
        }
      }
    }
  }

  // ---- over the records the table keeps ----

  /** The number is in use for a live object of this interface, by the sending side's own
      numbering: it is recorded under it, its destructor has not gone by, and the other side
      knows it too or the proxy serves it. An event's untyped object need only be known. */
  predicate NamesLive(t: Table, d: Direction, interface: Option<Interface>, id: u32) {
    match d
    case ClientToHost =>
      && id !in t.pendingDestroyGuestIds
      && (interface.Some? ==> Lookup(t.interfaces, id) == interface)
      && (id in t.guestToHost || (interface.Some? && interface.value in SERVED_LOCALLY))
    case HostToClient =>
      && id in t.hostToGuest
      && (interface.Some? ==>
            && t.hostToGuest[id] !in t.pendingDestroyGuestIds
            && (Lookup(t.hostInterfaces, id) == interface || Lookup(t.interfaces, t.hostToGuest[id]) == interface))
  }

  predicate SenderLives(t: Table, d: Direction, sender: u32) {
    match d
    case ClientToHost =>
      && sender !in t.pendingDestroyGuestIds
      && (sender in t.guestToHost || (sender in t.interfaces && t.interfaces[sender] in SERVED_LOCALLY))
    case HostToClient => sender in t.hostToGuest || sender in t.hostInterfaces
  }

  /** The version recorded for an object itself, or else for its partner. */
  function RecordedVersion(t: Table, d: Direction, id: u32): Option<u32> {
    var own, other := if d.ClientToHost? then t.guestVersions else t.hostVersions,
                      if d.ClientToHost? then t.hostVersions else t.guestVersions;
    if id in own then Some(own[id])
    else if id in To(t, d) && To(t, d)[id] in other then Some(other[To(t, d)[id]])
    else None
  }

  /** No object is known under the number, and the sending side may use it. */
  predicate Unused(t: Table, d: Direction, id: u32) {
    match d
    case ClientToHost => 2 <= id < 0xff00_0000 && id !in t.guestToHost && id !in t.interfaces
    case HostToClient =>
      && 2 <= id && id !in t.hostToGuest && id !in t.hostInterfaces
      && id !in t.retiredHostIds && id !in t.pendingDestroyHostIds
  }

  predicate ArgumentIsGood(t: Table, d: Direction, ty: ArgType, v: Value)
    requires Typed(v, ty)
  {
    match ty
    case NewId(_) => Unused(t, d, Introduced(v).value)
    case Object(interface, nullable) => (nullable && v.target == 0) || NamesLive(t, d, interface, v.target)
    case _ => true
  }

  lemma ArgumentPassesIff(t: Table, d: Direction, ty: ArgType, v: Value)
    requires Typed(v, ty)
    ensures CheckArgument(t, d, ty, v) == Pass <==> ArgumentIsGood(t, d, ty, v)
  {
  }

  lemma RecordsAre(t: Table, d: Direction, id: u32)
    ensures ObjectVersion(t, d, id) == RecordedVersion(t, d, id)
    ensures SenderLives(t, d, id) <==>
            if d.ClientToHost? then id !in t.pendingDestroyGuestIds && (id in t.guestToHost || t.IsLocalOnlyGuestObject(id))
            else t.IsEventSenderKnown(id)
  {
  }

  /** Exactly which messages pass, by the table's records: the sender is alive and new
      enough, every new ID is unused, and every object is null where it may be, or alive and
      of the declared interface. */
  lemma AcceptedIff(t: Table, arm: Arm, sender: u32, vs: seq<Value>)
    requires TypedAll(vs, arm.args)
    ensures Check(t, arm, sender, vs) == Pass <==>
            && SenderLives(t, arm.direction, sender)
            && (arm.since.Some? ==>
                  var version := RecordedVersion(t, arm.direction, sender);
                  version.Some? && version.value >= arm.since.value)
            && (forall i | 0 <= i < |vs| :: ArgumentIsGood(t, arm.direction, arm.args[i], vs[i]))
  {
    PassingMeans(t, arm.direction, arm.args, vs);
    RecordsAre(t, arm.direction, sender);
    hide Available, ObjectVersion, RecordedVersion, SenderLives, ArgumentIsGood, NamesLive, AcceptsObject;
    forall i | 0 <= i < |vs|
      ensures CheckArgument(t, arm.direction, arm.args[i], vs[i]) == Pass <==>
              ArgumentIsGood(t, arm.direction, arm.args[i], vs[i])
    {
      ArgumentPassesIff(t, arm.direction, arm.args[i], vs[i]);
    }
    hide CheckArgument, Typed, Introduced, CheckArguments;
  }

  /** Which error a request that does not pass is answered with, and that an event that does
      not is discarded: the first fault in the order sender, version, arguments. */
  lemma RefusalNames(t: Table, arm: Arm, sender: u32, vs: seq<Value>)
    requires TypedAll(vs, arm.args)
    ensures Check(t, arm, sender, vs).UnsupportedVersion? ==>
              && arm.since == Some(Check(t, arm, sender, vs).required)
              && RecordedVersion(t, arm.direction, sender) == Some(Check(t, arm, sender, vs).actual)
              && Check(t, arm, sender, vs).actual < Check(t, arm, sender, vs).required
    ensures Check(t, arm, sender, vs).InvalidObjectId? ==>
              var id := Check(t, arm, sender, vs).id;
              || (id == sender && (!SenderLives(t, arm.direction, sender) || RecordedVersion(t, arm.direction, sender) == None))
              || exists i | 0 <= i < |vs| ::
                   && !ArgumentIsGood(t, arm.direction, arm.args[i], vs[i])
                   && (vs[i] == ObjectValue(id) || Introduced(vs[i]) == Some(id))
                   && forall j | 0 <= j < i :: ArgumentIsGood(t, arm.direction, arm.args[j], vs[j])
    ensures Check(t, arm, sender, vs).Discard? ==> arm.direction.HostToClient?
  {
    RecordsAre(t, arm.direction, sender);
    FirstFault(t, arm.direction, arm.args, vs);
    hide ObjectVersion, RecordedVersion, SenderLives, ArgumentIsGood, CheckArguments, t.IsLocalOnlyGuestObject;
  }

  lemma {:induction false} FirstFault(t: Table, d: Direction, ts: seq<ArgType>, vs: seq<Value>)
    requires TypedAll(vs, ts)
    ensures CheckArguments(t, d, ts, vs) != Pass ==>
              exists i | 0 <= i < |vs| ::
                && !ArgumentIsGood(t, d, ts[i], vs[i]) && CheckArguments(t, d, ts, vs) == CheckArgument(t, d, ts[i], vs[i])
                && (CheckArgument(t, d, ts[i], vs[i]).InvalidObjectId? ==>
                      var id := CheckArgument(t, d, ts[i], vs[i]).id; vs[i] == ObjectValue(id) || Introduced(vs[i]) == Some(id))
                && forall j | 0 <= j < i :: ArgumentIsGood(t, d, ts[j], vs[j])
    ensures !CheckArguments(t, d, ts, vs).UnsupportedVersion?
    ensures CheckArguments(t, d, ts, vs).Discard? ==> d.HostToClient?
    decreases |vs|
  {
    if vs != [] {
      ArgumentPassesIff(t, d, ts[0], vs[0]);
      FaultNames(t, d, ts[0], vs[0]);
      hide CheckArgument, ArgumentIsGood, Typed;
      if CheckArgument(t, d, ts[0], vs[0]) == Pass {
        FirstFault(t, d, ts[1..], vs[1..]);
        if CheckArguments(t, d, ts, vs) != Pass {
          var i :| 0 <= i < |vs[1..]| && !ArgumentIsGood(t, d, ts[1..][i], vs[1..][i])
                   && CheckArguments(t, d, ts[1..], vs[1..]) == CheckArgument(t, d, ts[1..][i], vs[1..][i])
                   && forall j | 0 <= j < i :: ArgumentIsGood(t, d, ts[1..][j], vs[1..][j]);
          forall j | 0 <= j < i + 1 ensures ArgumentIsGood(t, d, ts[j], vs[j]) {
            assert j > 0 ==> ArgumentIsGood(t, d, ts[1..][j - 1], vs[1..][j - 1]);
          }
          FaultNames(t, d, ts[i + 1], vs[i + 1]);
          assert ts[1..][i] == ts[i + 1] && vs[1..][i] == vs[i + 1];
        }
      }
    }
  }

  lemma FaultNames(t: Table, d: Direction, ty: ArgType, v: Value)
    requires Typed(v, ty)
    ensures var verdict := CheckArgument(t, d, ty, v);
            && (verdict.InvalidObjectId? ==> v == ObjectValue(verdict.id) || Introduced(v) == Some(verdict.id))
            && !verdict.UnsupportedVersion? && (verdict.Discard? ==> d.HostToClient?)
  {
    hide AcceptsObject, Available;
  }

  /** A message that passes names no new ID that is known and no object that is new. */
  lemma PassingIsFresh(t: Table, d: Direction, ts: seq<ArgType>, vs: seq<Value>)
    requires TypedAll(vs, ts) && CheckArguments(t, d, ts, vs) == Pass
    ensures FreshIds(t, d, vs) && ObjectsAreNotNew(vs)
  {
    PassingMeans(t, d, ts, vs);
    forall i | 0 <= i < |vs|
      ensures Introduced(vs[i]).Some? ==> Available(t, d, Introduced(vs[i]).value)
      ensures vs[i].ObjectValue? ==> !Available(t, d, vs[i].target)
    {
      PassingArgument(t, d, ts[i], vs[i]);
    }
    hide CheckArgument, Available, Introduced, Typed;
  }

  /** The argument is an object the proxy serves itself: the host has no number for it. */
  predicate NamesLocalObject(t: Table, ty: ArgType, v: Value)
    requires Typed(v, ty)
  {
    && ty.Object? && !(ty.nullable && v.target == 0)
    && v.target !in t.guestToHost && t.IsLocalOnlyGuestObject(v.target)
  }

  lemma PassingArgument(t: Table, d: Direction, ty: ArgType, v: Value)
    requires Typed(v, ty) && CheckArgument(t, d, ty, v) == Pass
    ensures Introduced(v).Some? ==> Available(t, d, Introduced(v).value)
    ensures v.ObjectValue? ==> !Available(t, d, v.target)
    ensures Untranslatable(t, d, ty, v) <==> d.ClientToHost? && NamesLocalObject(t, ty, v)
  {
  }

  /** An accepted event is never given up; an accepted request is given up exactly when it
      names an object the proxy serves itself, which no request but its own may mention. */
  lemma GivenUpMeans(t: Table, arm: Arm, sender: u32, vs: seq<Value>, offers: seq<u32>, naming: seq<byte> -> Interface)
    requires TypedAll(vs, arm.args) && |offers| == |vs| && t.Inverse()
    requires FairOffers(t, arm.direction, sender, arm.args, vs, offers, naming)
    requires Check(t, arm, sender, vs) == Pass
    ensures Translate(t, arm.direction, sender, arm.args, vs, offers, naming).GivenUp?
       <==> arm.direction.ClientToHost?
            && exists i | 0 <= i < |vs| :: NamesLocalObject(t, arm.args[i], vs[i])
  {
    hide CheckVersion, FairOffers;
    PassingIsFresh(t, arm.direction, arm.args, vs);
    PassingMeans(t, arm.direction, arm.args, vs);
    GivenUpIff(t, arm.direction, sender, arm.args, vs, offers, naming);
    forall i | 0 <= i < |vs|
      ensures Untranslatable(t, arm.direction, arm.args[i], vs[i])
         <==> arm.direction.ClientToHost? && NamesLocalObject(t, arm.args[i], vs[i])
    {
      PassingArgument(t, arm.direction, arm.args[i], vs[i]);
    }
    hide *;
  }

  // ---- reading and translating keep types, texts and descriptors ----

  lemma ReadValueIs(order: ByteOrder, ty: ArgType, payload: seq<byte>, offset: nat, fds: seq<Fd>, fdOffset: nat)
    requires fdOffset <= |fds|
    ensures var r := ReadValue(order, ty, payload, offset, fds, fdOffset);
            r.Argument? ==>
              && Typed(r.value, ty) && NulFree(r.value)
              && fdOffset <= r.fdOffset <= |fds| && EncodeFds(r.value) == fds[fdOffset..r.fdOffset]
  {
    hide ReadU32, ReadArray, IsUtf8;
    StringIs(order, payload, offset, if ty.String? then ty.nullable else false);
    hide ReadStringValue;
  }

  lemma StringIs(order: ByteOrder, payload: seq<byte>, offset: nat, nullable: bool)
    ensures var r := ReadStringValue(order, payload, offset, nullable).result;
            r.Ok? ==> if r.value.None? then nullable else IsUtf8(r.value.value) && 0 !in r.value.value
  {
    hide ReadU32, IsUtf8;
  }

  /** What is read has the described types, no NULs in text, and the descriptors read past. */
  lemma {:induction false} ReadIs(order: ByteOrder, ts: seq<ArgType>, payload: seq<byte>, offset: nat,
      fds: seq<Fd>, fdOffset: nat)
    requires fdOffset <= |fds|
    ensures var r := ReadAll(order, ts, payload, offset, fds, fdOffset);
            r.Arguments? ==>
              && TypedAll(r.values, ts) && (forall i | 0 <= i < |r.values| :: NulFree(r.values[i]))
              && fdOffset <= r.fdOffset <= |fds| && AllFds(r.values) == fds[fdOffset..r.fdOffset]
    decreases |ts|
  {
    hide ReadValue, Typed, NulFree, EncodeFds;
    if ts != [] {
      ReadValueIs(order, ts[0], payload, offset, fds, fdOffset);
      var first := ReadValue(order, ts[0], payload, offset, fds, fdOffset);
      if first.Argument? {
        ReadIs(order, ts[1..], payload, first.offset, fds, first.fdOffset);
        var r := ReadAll(order, ts, payload, offset, fds, fdOffset);
        if r.Arguments? {
          assert r.values[1..] == ReadAll(order, ts[1..], payload, first.offset, fds, first.fdOffset).values;
          assert fds[fdOffset..r.fdOffset] == fds[fdOffset..first.fdOffset] + fds[first.fdOffset..r.fdOffset];
        }
      }
    }
  }

  lemma RenamedKeeps(t: Table, d: Direction, ty: ArgType, v: Value, offer: u32)
    requires Typed(v, ty) && !Untranslatable(t, d, ty, v) && NulFree(v)
    ensures var r := RenamedArgument(t, d, ty, v, offer);
            Typed(r, ty) && NulFree(r) && EncodeFds(r) == EncodeFds(v)
  {
    hide IsUtf8, To;
  }

  lemma {:induction false} TranslationKeeps(t: Table, d: Direction, sender: u32, ts: seq<ArgType>,
      vs: seq<Value>, offers: seq<u32>, naming: seq<byte> -> Interface)
    requires TypedAll(vs, ts) && |offers| == |vs| && forall i | 0 <= i < |vs| :: NulFree(vs[i])
    requires Translate(t, d, sender, ts, vs, offers, naming).Translation?
    ensures var values := Translate(t, d, sender, ts, vs, offers, naming).values;
            TypedAll(values, ts) && (forall i | 0 <= i < |values| :: NulFree(values[i])) && AllFds(values) == AllFds(vs)
    decreases |vs|
  {
    hide After, RenamedArgument, Typed, NulFree, EncodeFds, Untranslatable;
    if vs != [] {
      assert TypedAll(vs[1..], ts[1..]);
      RenamedKeeps(t, d, ts[0], vs[0], offers[0]);
      TranslationKeeps(After(t, d, sender, ts[0], vs[0], offers[0], naming), d, sender, ts[1..], vs[1..], offers[1..], naming);
      var values := Translate(t, d, sender, ts, vs, offers, naming).values;
      assert values[1..]
          == Translate(After(t, d, sender, ts[0], vs[0], offers[0], naming), d, sender, ts[1..], vs[1..], offers[1..],
                       naming).values;
    }
  }

  // ---- the message the other side sees ----

  /** The bytes begin with one whole message from `partner` that reads as exactly `values`
      and takes exactly `fds`. */
  predicate ReadsAs(order: ByteOrder, arm: Arm, partner: u32, bytes: seq<byte>, fds: seq<Fd>, rest: seq<byte>,
      values: seq<Value>) {
    var frame := NextFrame(order, bytes + rest);
    && frame.Complete? && frame.length == |bytes|
    && frame.message.sender == partner && frame.message.opcode == arm.opcode
    && ReadAll(order, arm.args, frame.message.payload, 0, fds, 0) == Arguments(values, |frame.message.payload|, |fds|)
  }

  /** An object argument as the other side reads it: null if it was, and otherwise the partner
      of a live object of the declared interface. */
  predicate ArrivesLive(t: Table, d: Direction, interface: Option<Interface>, nullable: bool, target: u32, there: Value) {
    if nullable && target == 0 then there == ObjectValue(0)
    else
      && target in To(t, d) && there == ObjectValue(To(t, d)[target])
      && NamesLive(t, d, interface, target)
  }

  predicate ObjectsArriveLive(t: Table, d: Direction, ts: seq<ArgType>, vs: seq<Value>, there: seq<Value>)
    requires TypedAll(vs, ts)
  {
    |there| == |vs|
    && forall i | 0 <= i < |vs| && ts[i].Object? :: ArrivesLive(t, d, ts[i].interface, ts[i].nullable, vs[i].target, there[i])
  }

  lemma SentObjectsAreLive(t: Table, arm: Arm, sender: u32, vs: seq<Value>, offers: seq<u32>, naming: seq<byte> -> Interface)
    requires TypedAll(vs, arm.args) && |offers| == |vs| && t.Inverse()
    requires FairOffers(t, arm.direction, sender, arm.args, vs, offers, naming)
    requires CheckArguments(t, arm.direction, arm.args, vs) == Pass
    requires Translate(t, arm.direction, sender, arm.args, vs, offers, naming).Translation?
    ensures ObjectsArriveLive(t, arm.direction, arm.args, vs,
                              Translate(t, arm.direction, sender, arm.args, vs, offers, naming).values)
  {
    var d, values := arm.direction, Translate(t, arm.direction, sender, arm.args, vs, offers, naming).values;
    hide FairOffers, Translate, t.Inverse, To, CheckArguments, FreshIds, ObjectsAreNotNew;
    PassingMeans(t, d, arm.args, vs);
    PassingIsFresh(t, d, arm.args, vs);
    TranslatedLength(t, d, sender, arm.args, vs, offers, naming);
    forall i | 0 <= i < |vs| && arm.args[i].Object?
      ensures ArrivesLive(t, d, arm.args[i].interface, arm.args[i].nullable, vs[i].target, values[i])
    {
      ObjectsKeepTheirPartner(t, d, sender, arm.args, vs, offers, naming, i);
      ArgumentPassesIff(t, d, arm.args[i], vs[i]);
    }
    hide CheckArgument, NamesLive, ArrivesLive;
  }

  /** A sent message is one whole message on the wire, from the sender's partner, with the
      same opcode and the descriptors the original was read with. Read by the same
      description it gives `there`, the same arguments under the other side's numbers: the
      table translates them back to the original ones exactly when no two introduce the
      same number, and none is the sender of a destructor that ends its pair. */
  lemma ForwardedMeansTheSame(order: ByteOrder, t: Table, arm: Arm, sender: u32, payload: seq<byte>, fds: seq<Fd>,
      vs: seq<Value>, end: nat, used: nat, offers: seq<u32>, naming: seq<byte> -> Interface,
      after: Table, bytes: seq<byte>, sentFds: seq<Fd>, rest: seq<byte>) returns (there: seq<Value>)
    requires t.Inverse() && 0 !in To(t, arm.direction) && 0 !in Back(t, arm.direction)
    requires ReadAll(order, arm.args, payload, 0, fds, 0) == Arguments(vs, end, used)
    requires TypedAll(vs, arm.args) && |offers| == |vs|
    requires FairOffers(t, arm.direction, sender, arm.args, vs, offers, naming)
    requires Forward(order, t, arm, sender, vs, offers, naming) == Outcome(after, Send(bytes, sentFds))
    ensures sender in To(t, arm.direction)
    ensures ReadsAs(order, arm, To(t, arm.direction)[sender], bytes, sentFds, rest, there)
    ensures used <= |fds| && sentFds == fds[..used]
    ensures RenamesBack(Back(after, arm.direction), there, vs)
       <==> DistinctIds(vs) && (Unpairs(arm, sender) ==> ObjectValue(sender) !in vs)
    ensures ObjectsArriveLive(t, arm.direction, arm.args, vs, there)
  {
    var d := arm.direction;
    hide ObjectsArriveLive, ReadAll, Translate, EncodeAll, AllFds, Build, CheckArguments, To, Back, RenamesBack, DistinctIds,
         ObjectsAreNotNew, FairOffers, TypedAll, AfterDestructor, NextFrame, Unpairs, NulFree, FreshIds, t.Inverse;
    ReadIs(order, arm.args, payload, 0, fds, 0);
    var r := Translate(t, d, sender, arm.args, vs, offers, naming);
    PassingIsFresh(t, d, arm.args, vs);
    TranslationKeeps(t, d, sender, arm.args, vs, offers, naming);
    there := r.values;
    SentReadsBack(order, To(t, d)[sender], arm, there, rest);
    TranslationIsInvertibleIff(t, d, sender, arm.args, vs, offers, naming);
    DestructorRenamesBackIff(t, arm, sender, vs, offers, naming);
    SentObjectsAreLive(t, arm, sender, vs, offers, naming);
    assert fds[0..used] == fds[..used];
  }

  lemma SentReadsBack(order: ByteOrder, partner: u32, arm: Arm, values: seq<Value>, rest: seq<byte>)
    requires TypedAll(values, arm.args) && forall i | 0 <= i < |values| :: NulFree(values[i])
    requires Build(order, partner, arm.opcode, EncodeAll(order, values)).Ok?
    ensures ReadsAs(order, arm, partner, Build(order, partner, arm.opcode, EncodeAll(order, values)).value, AllFds(values),
                    rest, values)
  {
    hide EncodeAll, AllFds, ReadAll, NextFrame, NulFree, TypedAll;
    BuiltMessageIsFramed(order, partner, arm.opcode, EncodeAll(order, values), rest);
    RoundTripIff(order, arm.args, values);
  }

  /** Without the pair of `sender`, everything renames back as before but `sender` itself. */
  lemma WithoutPair(back: map<u32, u32>, partner: u32, sender: u32, translated: seq<Value>, vs: seq<Value>)
    requires partner in back && back[partner] == sender && partner != 0 && sender != 0
    requires forall x :: x in back && back[x] == sender ==> x == partner
    requires forall i | 0 <= i < |vs| :: Introduced(vs[i]) != Some(sender)
    ensures RenamesBack(back - {partner}, translated, vs) <==> RenamesBack(back, translated, vs) && ObjectValue(sender) !in vs
  {
    if |translated| == |vs| {
      forall i | 0 <= i < |vs|
        ensures RenamedBack(back - {partner}, translated[i]) == Some(vs[i])
           <==> RenamedBack(back, translated[i]) == Some(vs[i]) && vs[i] != ObjectValue(sender)
      {
      }
      hide RenamedBack, Introduced;
    }
  }

  lemma UnpairedBack(t: Table, arm: Arm, sender: u32)
    requires t.Inverse() && sender in To(t, arm.direction)
    ensures var partner := To(t, arm.direction)[sender];
            && Back(AfterDestructor(t, arm, sender, partner), arm.direction)
               == (if Unpairs(arm, sender) then Back(t, arm.direction) - {partner} else Back(t, arm.direction))
            && partner in Back(t, arm.direction) && Back(t, arm.direction)[partner] == sender
            && forall x :: x in Back(t, arm.direction) && Back(t, arm.direction)[x] == sender ==> x == partner
  {
  }

  lemma DestructorRenamesBackIff(t: Table, arm: Arm, sender: u32, vs: seq<Value>, offers: seq<u32>,
      naming: seq<byte> -> Interface)
    requires TypedAll(vs, arm.args) && |offers| == |vs| && t.Inverse()
    requires 0 !in Back(t, arm.direction) && 0 !in To(t, arm.direction)
    requires FairOffers(t, arm.direction, sender, arm.args, vs, offers, naming)
    requires FreshIds(t, arm.direction, vs) && sender in To(t, arm.direction)
    requires Translate(t, arm.direction, sender, arm.args, vs, offers, naming).Translation?
    ensures var r := Translate(t, arm.direction, sender, arm.args, vs, offers, naming);
            var after := AfterDestructor(r.table, arm, sender, To(t, arm.direction)[sender]);
            RenamesBack(Back(after, arm.direction), r.values, vs)
            <==> RenamesBack(Back(r.table, arm.direction), r.values, vs) && (Unpairs(arm, sender) ==> ObjectValue(sender) !in vs)
  {
    var d := arm.direction;
    hide FairOffers, Translate, RenamesBack, AfterDestructor, Unpairs, To, Back, t.Inverse;
    forall i | 0 <= i < |vs| ensures Introduced(vs[i]) != Some(sender) {
      if Introduced(vs[i]).Some? {
        AvailableIsUnknown(t, d, Introduced(vs[i]).value);
      }
    }
    hide FreshIds, Available;
    TranslationKeepsPairs(t, d, sender, arm.args, vs, offers, naming, sender);
    var r := Translate(t, d, sender, arm.args, vs, offers, naming);
    UnpairedBack(r.table, arm, sender);
    if Unpairs(arm, sender) {
      WithoutPair(Back(r.table, d), To(t, d)[sender], sender, r.values, vs);
    }
  }

  // ---- when a message is sent, and what its sender may still do ----

  /** A message goes out exactly when it passes, its sender has a partner, no argument is an
      object of the proxy's own, and the renamed message fits a header. The proxy ends the
      sender itself exactly for a destructor that passes and whose sender has no partner. */
  lemma SendsIff(order: ByteOrder, t: Table, arm: Arm, sender: u32, vs: seq<Value>, offers: seq<u32>,
      naming: seq<byte> -> Interface)
    requires TypedAll(vs, arm.args) && |offers| == |vs| && t.Inverse()
    requires FairOffers(t, arm.direction, sender, arm.args, vs, offers, naming)
    ensures var r := Translate(t, arm.direction, sender, arm.args, vs, offers, naming);
            Forward(order, t, arm, sender, vs, offers, naming).action.Send? <==>
              && Check(t, arm, sender, vs) == Pass && sender in To(t, arm.direction)
              && !(arm.direction.ClientToHost? && exists i | 0 <= i < |vs| :: NamesLocalObject(t, arm.args[i], vs[i]))
              && r.Translation? && ValidLength(|EncodeAll(order, r.values)| + 8)
    ensures Forward(order, t, arm, sender, vs, offers, naming).action.DestroyLocally? <==>
              && Check(t, arm, sender, vs) == Pass && sender !in To(t, arm.direction)
              && arm.destructor && arm.direction.ClientToHost?
              && forall i | 0 <= i < |vs| :: !NamesLocalObject(t, arm.args[i], vs[i])
  {
    if Check(t, arm, sender, vs) == Pass {
      GivenUpMeans(t, arm, sender, vs, offers, naming);
      var r := Translate(t, arm.direction, sender, arm.args, vs, offers, naming);
      if r.Translation? && sender in To(t, arm.direction) {
        BuildsIff(order, To(t, arm.direction)[sender], arm.opcode, EncodeAll(order, r.values));
      }
    }
    hide Translate, EncodeAll, FairOffers, Check, To, Build, t.Inverse, NamesLocalObject, AfterDestructor;
  }

  /** What a sent message leaves of its sender: everything, unless it is a destructor. Then a
      client-range sender keeps its pair and waits for `delete_id`, and any other is gone. */
  lemma DestructorEnds(order: ByteOrder, t: Table, arm: Arm, sender: u32, vs: seq<Value>, offers: seq<u32>,
      naming: seq<byte> -> Interface)
    requires TypedAll(vs, arm.args) && |offers| == |vs| && t.Inverse()
    requires FairOffers(t, arm.direction, sender, arm.args, vs, offers, naming)
    requires Forward(order, t, arm, sender, vs, offers, naming).action.Send?
    ensures var d, after := arm.direction, Forward(order, t, arm, sender, vs, offers, naming).table;
            && sender in To(t, d)
            && if !arm.destructor then Lookup(To(after, d), sender) == Some(To(t, d)[sender])
               else if d.ClientToHost? && sender < GUEST_SERVER_ID_START then
                 Lookup(To(after, d), sender) == Some(To(t, d)[sender]) && sender in after.pendingDestroyGuestIds
               else
                 var guest := if d.ClientToHost? then sender else To(t, d)[sender];
                 && sender !in To(after, d) && To(t, d)[sender] !in Back(after, d)
                 && guest !in after.interfaces && guest !in after.pendingDestroyGuestIds
  {
    var d := arm.direction;
    var r := Translate(t, d, sender, arm.args, vs, offers, naming);
    hide FairOffers, Translate, EncodeAll, Build, TypedAll, t.Inverse;
    PassingIsFresh(t, d, arm.args, vs);
    SenderIsNotNew(t, d, vs, sender);
    TranslationKeepsPairs(t, d, sender, arm.args, vs, offers, naming, sender);
    EndedIs(r.table, arm, sender, To(t, d)[sender]);
    hide CheckArguments, CheckVersion, FreshIds, ObjectsAreNotNew, AfterDestructor, To, Back;
  }

  lemma SenderIsNotNew(t: Table, d: Direction, vs: seq<Value>, sender: u32)
    requires FreshIds(t, d, vs) && sender in To(t, d)
    ensures forall i | 0 <= i < |vs| :: Introduced(vs[i]) != Some(sender)
  {
    forall i | 0 <= i < |vs| && Introduced(vs[i]).Some? ensures Introduced(vs[i]) != Some(sender) {
      AvailableIsUnknown(t, d, Introduced(vs[i]).value);
    }
    hide Available;
  }

  lemma EndedIs(t: Table, arm: Arm, sender: u32, partner: u32)
    requires t.Inverse() && Lookup(To(t, arm.direction), sender) == Some(partner)
    ensures var d, after := arm.direction, AfterDestructor(t, arm, sender, partner);
            if !arm.destructor then after == t
            else if d.ClientToHost? && sender < GUEST_SERVER_ID_START then
              To(after, d) == To(t, d) && sender in after.pendingDestroyGuestIds
            else
              var guest := if d.ClientToHost? then sender else partner;
              && sender !in To(after, d) && partner !in Back(after, d)
              && guest !in after.interfaces && guest !in after.pendingDestroyGuestIds
  {
  }

  /** So after its destructor no request of a client-range sender is accepted. */
  lemma DestroyedSenderIsRefused(order: ByteOrder, t: Table, arm: Arm, sender: u32, vs: seq<Value>, offers: seq<u32>,
      naming: seq<byte> -> Interface, next: Arm, ws: seq<Value>)
    requires TypedAll(vs, arm.args) && |offers| == |vs| && t.Inverse() && TypedAll(ws, next.args)
    requires FairOffers(t, arm.direction, sender, arm.args, vs, offers, naming)
    requires Forward(order, t, arm, sender, vs, offers, naming).action.Send?
    requires arm.destructor && arm.direction.ClientToHost? && next.direction.ClientToHost? && sender < GUEST_SERVER_ID_START
    ensures Check(Forward(order, t, arm, sender, vs, offers, naming).table, next, sender, ws) == InvalidObjectId(sender)
  {
    DestructorEnds(order, t, arm, sender, vs, offers, naming);
    hide Forward, FairOffers, t.Inverse, CheckArguments, CheckVersion;
  }

  // ---- the arm as it runs ----

  datatype Completion = Finished | GaveUp | Panicked

  method CheckAll(table: ShadowTable, d: Direction, ts: seq<ArgType>, vs: seq<Value>) returns (verdict: Verdict)
    requires TypedAll(vs, ts)
    ensures verdict == CheckArguments(table.State(), d, ts, vs)
  {
    var i := 0;
    while i < |vs|
      invariant 0 <= i <= |vs|
      invariant CheckArguments(table.State(), d, ts[i..], vs[i..]) == CheckArguments(table.State(), d, ts, vs)
    {
      assert ts[i..][1..] == ts[i + 1..] && vs[i..][1..] == vs[i + 1..];
      verdict := CheckArgument(table.State(), d, ts[i], vs[i]);
      if verdict != Pass {
        return;
      }
      i := i + 1;
    }
    verdict := Pass;
  }

  /** Allocate a number for the other side and pair the new ID with it; `None` is the
      exhaustion panic. */
  method Adopt(table: ShadowTable, d: Direction, sender: u32, ty: ArgType, v: Value,
      naming: seq<byte> -> Interface) returns (offer: Option<u32>)
    requires Typed(v, ty) && ty.NewId? && GUEST_SERVER_ID_START <= table.nextGuestServerId
    modifies table
    ensures GUEST_SERVER_ID_START <= table.nextGuestServerId
    ensures offer.Some? ==> Offerable(old(table.State()), d, offer.value)
    ensures offer.Some? ==> table.State() == Introduce(old(table.State()), d, sender, ty, v, offer.value, naming)
    ensures offer.None? ==> forall id: u32 :: !Offerable(old(table.State()), d, id)
  {
    var versions := NewVersions(table.State(), d, sender, v);
    var interface := if v.NewIdValue? then ty.creates.value else naming(v.name);
    var id := Introduced(v).value;
    hide NewVersions, CyclicDistance, NextHostCursor, NextGuestServerCursor;
    if d.ClientToHost? {
      offer := table.AllocateHostId();
      if offer.Some? {
        table.MapId(id, offer.value);
        table.TrackInterfaceWithVersion(id, interface, versions.0);
        table.SetHostVersion(offer.value, versions.1);
      }
    } else {
      offer := table.AllocateGuestServerId();
      if offer.Some? {
        table.MapId(offer.value, id);
        table.TrackInterfaceWithVersion(offer.value, interface, versions.0);
        table.SetHostVersion(id, versions.1);
      }
    }
  }

  /** Translate and write one argument the other side can be told about. */
  method TranslateArgument(table: ShadowTable, builder: MessageBuilder, d: Direction, sender: u32, ty: ArgType,
      v: Value,
      naming: seq<byte> -> Interface) returns (offer: Option<u32>)
    requires Typed(v, ty) && !Untranslatable(table.State(), d, ty, v) && GUEST_SERVER_ID_START <= table.nextGuestServerId
    modifies table, builder
    ensures GUEST_SERVER_ID_START <= table.nextGuestServerId
    ensures offer.Some? ==>
              && (ty.NewId? ==> Offerable(old(table.State()), d, offer.value))
              && table.State() == After(old(table.State()), d, sender, ty, v, offer.value, naming)
              && builder.payload
                 == old(builder.payload) + Encode(builder.order, RenamedArgument(old(table.State()), d, ty, v, offer.value))
              && builder.fds == old(builder.fds) + EncodeFds(RenamedArgument(old(table.State()), d, ty, v, offer.value))
    ensures offer.None? ==> forall id: u32 :: !Offerable(old(table.State()), d, id)
  {
    hide Introduce, Offerable, Encode, EncodeFds;
    var renamed := v;
    if ty.NewId? {
      offer := Adopt(table, d, sender, ty, v, naming);
      if offer.None? {
        return;
      }
      renamed := Renamed(v, offer.value);
    } else {
      renamed := RenamedArgument(table.State(), d, ty, v, 0);
      offer := Some(0);
    }
    WriteArgument(builder, renamed);
  }

  lemma TranslateStep(t: Table, d: Direction, sender: u32, ts: seq<ArgType>, vs: seq<Value>, offer: u32,
      offers: seq<u32>, naming: seq<byte> -> Interface)
    requires TypedAll(vs, ts) && vs != [] && |offers| == |vs| - 1 && !Untranslatable(t, d, ts[0], vs[0])
    ensures TypedAll(vs[1..], ts[1..])
    ensures var u := After(t, d, sender, ts[0], vs[0], offer, naming);
            && (FairOffers(t, d, sender, ts, vs, [offer] + offers, naming)
                <==> (ts[0].NewId? ==> Offerable(t, d, offer)) && FairOffers(u, d, sender, ts[1..], vs[1..], offers, naming))
            && var rest := Translate(u, d, sender, ts[1..], vs[1..], offers, naming);
            Translate(t, d, sender, ts, vs, [offer] + offers, naming)
              == if rest.GivenUp? then rest
                 else Translation(rest.table, [RenamedArgument(t, d, ts[0], vs[0], offer)] + rest.values)
  {
    hide After, Offerable, RenamedArgument, Untranslatable;
    assert ([offer] + offers)[1..] == offers;
    assert TypedAll(vs[1..], ts[1..]);
  }

  /** Translate and write the arguments, one after the other. */
  method TranslateArguments(table: ShadowTable, builder: MessageBuilder, d: Direction, sender: u32,
      ts: seq<ArgType>, vs: seq<Value>,
      naming: seq<byte> -> Interface) returns (c: Completion, ghost offers: seq<u32>)
    requires TypedAll(vs, ts) && GUEST_SERVER_ID_START <= table.nextGuestServerId
    modifies table, builder
    ensures GUEST_SERVER_ID_START <= table.nextGuestServerId
    ensures !c.Panicked? ==>
              && |offers| == |vs| && FairOffers(old(table.State()), d, sender, ts, vs, offers, naming)
              && var r := Translate(old(table.State()), d, sender, ts, vs, offers, naming);
              && table.State() == r.table && (c.Finished? <==> r.Translation?)
              && (r.Translation? ==>
                    && builder.payload == old(builder.payload) + EncodeAll(builder.order, r.values)
                    && builder.fds == old(builder.fds) + AllFds(r.values))
    decreases |vs|
  {
    hide Encode, EncodeFds, Typed, After, RenamedArgument, Offerable;
    if vs == [] {
      return Finished, [];
    }
    if Untranslatable(table.State(), d, ts[0], vs[0]) {
      return GaveUp, seq(|vs|, _ => 0);
    }
    hide Untranslatable;
    ghost var before := table.State();
    assert TypedAll(vs[1..], ts[1..]);
    var offer := TranslateArgument(table, builder, d, sender, ts[0], vs[0], naming);
    if offer.None? {
      return Panicked, [];
    }
    ghost var rest;
    c, rest := TranslateArguments(table, builder, d, sender, ts[1..], vs[1..], naming);
    offers := [offer.value] + rest;
    if !c.Panicked? {
      TranslateStep(before, d, sender, ts, vs, offer.value, rest, naming);
      hide Translate, FairOffers;
    }
  }

  method CheckMessage(table: ShadowTable, arm: Arm, sender: u32, vs: seq<Value>) returns (verdict: Verdict)
    requires TypedAll(vs, arm.args)
    ensures verdict == Check(table.State(), arm, sender, vs)
  {
    var request := arm.direction.ClientToHost?;
    if !request && !table.State().IsEventSenderKnown(sender) {
      return Discard;
    }
    if request && sender in table.pendingDestroyGuestIds {
      return InvalidObjectId(sender);
    }
    verdict := CheckVersion(table.State(), arm, sender);
    if verdict != Pass {
      return;
    }
    verdict := CheckAll(table, arm.direction, arm.args, vs);
    if verdict != Pass {
      return;
    }
    if request && sender !in table.guestToHost && !table.State().IsLocalOnlyGuestObject(sender) {
      verdict := InvalidObjectId(sender);
    }
  }

  /** End the sender's pair after its destructor has been built. */
  method Retire(table: ShadowTable, arm: Arm, sender: u32, partner: u32)
    modifies table
    ensures table.State() == AfterDestructor(old(table.State()), arm, sender, partner)
  {
    if arm.destructor {
      if arm.direction.HostToClient? {
        table.RemoveId(partner);
      } else if sender >= GUEST_SERVER_ID_START {
        table.RemoveId(sender);
      } else {
        table.MarkPendingDestroy(sender);
      }
    }
  }

  datatype Handled = Malformed(error: WireError) | Aborted | Done(action: Action)

  /** A whole arm. Whatever it does, it takes exactly the bytes and descriptors that
      decoding the message takes; a malformed or refused message changes nothing. */
  method RunArm(table: ShadowTable, msg: WireMessage, arm: Arm, sender: u32, naming: seq<byte> -> Interface)
      returns (r: Handled, ghost offers: seq<u32>)
    requires GUEST_SERVER_ID_START <= table.nextGuestServerId && msg.fdOffset <= |msg.fds|
    requires arm.direction.HostToClient? ==> table.State().IsEventSenderKnown(sender)
    modifies table, msg
    ensures var read := ReadAll(msg.order, arm.args, msg.payload, old(msg.offset), msg.fds, old(msg.fdOffset));
            && (r.Malformed? <==> read.BadArguments?)
            && (read.BadArguments? ==> r.error == read.error && table.State() == old(table.State()))
            && (read.Arguments? ==> msg.offset == read.offset && msg.fdOffset == read.fdOffset && TypedAll(read.values, arm.args))
            && (r.Done? ==>
                  && |offers| == |read.values|
                  && (Check(old(table.State()), arm, sender, read.values) == Pass ==>
                        FairOffers(old(table.State()), arm.direction, sender, arm.args, read.values, offers, naming))
                  && Outcome(table.State(), r.action)
                     == Forward(msg.order, old(table.State()), arm, sender, read.values, offers, naming))
  {
    hide Check, FairOffers, Translate, EncodeAll, AllFds, ReadAll, AfterDestructor, Build;
    ReadIs(msg.order, arm.args, msg.payload, msg.offset, msg.fds, msg.fdOffset);
    ghost var before := table.State();
    var read := ReadArguments(msg, arm.args);
    if read.BadArguments? {
      return Malformed(read.error), [];
    }
    var verdict := CheckMessage(table, arm, sender, read.values);
    if verdict != Pass {
      return Done(Refuse(verdict)), seq(|read.values|, _ => 0);
    }
    var partner := Lookup(if arm.direction.ClientToHost? then table.guestToHost else table.hostToGuest, sender);
    assert partner == Lookup(To(before, arm.direction), sender);
    var builder := new MessageBuilder(msg.order);
    var c;
    c, offers := TranslateArguments(table, builder, arm.direction, sender, arm.args, read.values, naming);
    if c.Panicked? {
      return Aborted, [];
    }
    if c.GaveUp? {
      return Done(Drop), offers;
    }
    if partner.None? {
      return Done(if arm.destructor && arm.direction.ClientToHost? then DestroyLocally else Drop), offers;
    }
    ghost var translated := Translate(before, arm.direction, sender, arm.args, read.values, offers, naming);
    assert builder.payload == EncodeAll(msg.order, translated.values) && builder.fds == AllFds(translated.values);
    assert Forward(msg.order, before, arm, sender, read.values, offers, naming)
        == Dispatched(msg.order, before, table.State(), arm, sender, translated.values);
    var built := builder.TryBuildMessage(partner.value, arm.opcode);
    assert built == Build(msg.order, partner.value, arm.opcode, EncodeAll(msg.order, translated.values));
    if built.Err? {
      return Done(Unbuildable(built.error)), offers;
    }
    Retire(table, arm, sender, partner.value);
    r := Done(Send(built.value, builder.fds));
  }

  /** The event of an object whose destructor has been sent: decoded and thrown away. It
      takes the bytes and descriptors that running its arm would take, and is malformed
      in the same cases. */
  method ConsumeEvent(msg: WireMessage, arm: Arm) returns (r: Option<WireError>)
    modifies msg
    ensures var read := ReadAll(msg.order, arm.args, msg.payload, old(msg.offset), msg.fds, old(msg.fdOffset));
            && (read.BadArguments? ==> r == Some(read.error))
            && (read.Arguments? ==> r == None && msg.offset == read.offset && msg.fdOffset == read.fdOffset)
  {
    var read := ReadArguments(msg, arm.args);
    r := if read.BadArguments? then Some(read.error) else None;
  }
}
