/**
 How a dispatch arm emitted by wayland_codegen/src/generator.rs renames the objects
 of a message from the sender's numbers to the receiver's, in either direction.
 */
module Translations {
  import opened Prelude
  import opened ShadowTables
  import opened Marshalling
  import opened Dispatch

  // ---- the table as one direction sees it ----

  /** From the numbers of the side a message comes from to those of the side it goes to. */
  function To(t: Table, d: Direction): map<u32, u32> {
    if d.ClientToHost? then t.guestToHost else t.hostToGuest
  }

  function Back(t: Table, d: Direction): map<u32, u32> {
    if d.ClientToHost? then t.hostToGuest else t.guestToHost
  }

  /** The sending side may introduce an object under this number. */
  predicate Available(t: Table, d: Direction, id: u32) {
    if d.ClientToHost? then t.IsGuestIdAvailable(id) else t.IsHostIdAvailable(id)
  }

  /** The proxy may offer this number to the receiving side. */
  predicate Offerable(t: Table, d: Direction, id: u32) {
    if d.ClientToHost? then t.IsHostIdAvailable(id) else t.IsGuestServerIdFree(id)
  }

  function ObjectVersion(t: Table, d: Direction, id: u32): Option<u32> {
    if d.ClientToHost? then t.GuestObjectVersion(id) else t.HostObjectVersion(id)
  }

  /** The number a new-ID argument introduces. */
  function Introduced(v: Value): Option<u32> {
    match v
    case NewIdValue(id) => Some(id)
    case UntypedNewIdValue(_, _, id) => Some(id)
    case _ => None
  }

  /** The versions under which the guest and the host will know a new object. */
  function NewVersions(t: Table, d: Direction, sender: u32, v: Value): (versions: (u32, u32)) {
    var parent := if ObjectVersion(t, d, sender).Some? then ObjectVersion(t, d, sender).value else UNKNOWN_OBJECT_VERSION;
    if v.UntypedNewIdValue? then (v.version, v.version)
    else if d.ClientToHost? && sender in t.guestToHost && t.HostObjectVersion(t.guestToHost[sender]).Some?
      then (parent, t.HostObjectVersion(t.guestToHost[sender]).value)
    else (parent, parent)
  }

  /** Pair a new-ID argument with the number offered to the other side. Events carry no
      untyped new IDs: the arm emitted for one would not compile. */
  function Introduce(t: Table, d: Direction, sender: u32, ty: ArgType, v: Value, offer: u32,
      naming: seq<byte> -> Interface): Table
    requires Typed(v, ty) && ty.NewId?
  {
    var versions := NewVersions(t, d, sender, v);
    var interface := if v.NewIdValue? then ty.creates.value else naming(v.name);
    var id := Introduced(v).value;
    if d.ClientToHost? then
      t.AdvanceHostCursor(offer).MapId(id, offer)
       .TrackInterfaceWithVersion(id, interface, versions.0).SetHostVersion(offer, versions.1)
    else
      t.AdvanceGuestServerCursor(offer).MapId(offer, id)
       .TrackInterfaceWithVersion(offer, interface, versions.0).SetHostVersion(id, versions.1)
  }

  // ---- translation ----

  /** The translated arguments and the table they leave; or the arm gave the message up. */
  datatype Translation = Translation(table: Table, values: seq<Value>) | GivenUp(table: Table)

  function Renamed(v: Value, offer: u32): Value
    requires Introduced(v).Some?
  {
    if v.NewIdValue? then NewIdValue(offer) else v.(untyped := offer)
  }

  /** The argument at which translation stops: an object the other side does not know. */
  predicate Untranslatable(t: Table, d: Direction, ty: ArgType, v: Value)
    requires Typed(v, ty)
  {
    ty.Object? && !(ty.nullable && v.target == 0) && v.target !in To(t, d)
  }

  function After(t: Table, d: Direction, sender: u32, ty: ArgType, v: Value, offer: u32,
      naming: seq<byte> -> Interface): Table
    requires Typed(v, ty)
  {
    if ty.NewId? then Introduce(t, d, sender, ty, v, offer, naming) else t
  }

  function RenamedArgument(t: Table, d: Direction, ty: ArgType, v: Value, offer: u32): Value
    requires Typed(v, ty) && !Untranslatable(t, d, ty, v)
  {
    if ty.NewId? then Renamed(v, offer)
    else if ty.Object? && !(ty.nullable && v.target == 0) then ObjectValue(To(t, d)[v.target])
    else v
  }

  /** Translate the arguments left to right; `offers` are the numbers the allocator
      returns for the new-ID arguments, in order. */
  function Translate(t: Table, d: Direction, sender: u32, ts: seq<ArgType>, vs: seq<Value>, offers: seq<u32>,
      naming: seq<byte> -> Interface): Translation
    requires TypedAll(vs, ts) && |offers| == |vs|
    decreases |vs|
  {
    if vs == [] then Translation(t, [])
    else if Untranslatable(t, d, ts[0], vs[0]) then GivenUp(t)
    else
      var rest := Translate(After(t, d, sender, ts[0], vs[0], offers[0], naming), d, sender, ts[1..], vs[1..], offers[1..],
                            naming);
      if rest.GivenUp? then rest
      else Translation(rest.table, [RenamedArgument(t, d, ts[0], vs[0], offers[0])] + rest.values)
  }

  /** Rename object and new-ID arguments back through the table's other map. */
  function RenamedBack(back: map<u32, u32>, v: Value): Option<Value> {
    match v
    case ObjectValue(target) =>
      if target in back then Some(ObjectValue(back[target])) else if target == 0 then Some(v) else None
    case NewIdValue(id) => if id in back then Some(NewIdValue(back[id])) else None
    case UntypedNewIdValue(_, _, id) => if id in back then Some(v.(untyped := back[id])) else None
    case _ => Some(v)
  }

  predicate RenamesBack(back: map<u32, u32>, translated: seq<Value>, vs: seq<Value>) {
    |translated| == |vs| && forall i | 0 <= i < |vs| :: RenamedBack(back, translated[i]) == Some(vs[i])
  }

  /** Every offer that is made could be made at that moment. */
  ghost predicate FairOffers(t: Table, d: Direction, sender: u32, ts: seq<ArgType>, vs: seq<Value>,
      offers: seq<u32>, naming: seq<byte> -> Interface)
    requires TypedAll(vs, ts) && |offers| == |vs|
    decreases |vs|
  {
    vs != [] && !Untranslatable(t, d, ts[0], vs[0]) ==>
      && (ts[0].NewId? ==> Offerable(t, d, offers[0]))
      && FairOffers(After(t, d, sender, ts[0], vs[0], offers[0], naming), d, sender, ts[1..], vs[1..], offers[1..], naming)
  }

  /** No two new-ID arguments introduce the same number. */
  predicate DistinctIds(vs: seq<Value>) {
    forall i, j | 0 <= i < j < |vs| :: Introduced(vs[i]).Some? ==> Introduced(vs[i]) != Introduced(vs[j])
  }

  predicate FreshIds(t: Table, d: Direction, vs: seq<Value>) {
    forall i | 0 <= i < |vs| :: Introduced(vs[i]).Some? ==> Available(t, d, Introduced(vs[i]).value)
  }

  /** Objects and new IDs of one message name different numbers. */
  predicate ObjectsAreNotNew(vs: seq<Value>) {
    forall i, j | 0 <= i < |vs| && 0 <= j < |vs| :: vs[j].ObjectValue? ==> Introduced(vs[i]) != Some(vs[j].target)
  }

  // ---- one new ID ----

  /** Introducing any number keeps the maps inverse, pairs that number with the offer,
      and leaves the other pairs alone. */
  lemma IntroduceEffect(t: Table, d: Direction, sender: u32, ty: ArgType, v: Value, offer: u32,
      naming: seq<byte> -> Interface)
    requires Typed(v, ty) && ty.NewId? && t.Inverse() && Offerable(t, d, offer)
    ensures var r := Introduce(t, d, sender, ty, v, offer, naming); var id := Introduced(v).value;
            && r.Inverse()
            && To(r, d) == To(t, d)[id := offer]
            && Back(r, d) == (if id in To(t, d) then Back(t, d) - {To(t, d)[id]} else Back(t, d))[offer := id]
  {
    hide t.MapId, NewVersions;
    var id := Introduced(v).value;
    if d.ClientToHost? {
      MapIdKeepsInverse(t.AdvanceHostCursor(offer), id, offer);
      MapOfferedGuest(t.AdvanceHostCursor(offer), id, offer);
      MapOfferedHost(t.AdvanceHostCursor(offer), id, offer);
    } else {
      MapIdKeepsInverse(t.AdvanceGuestServerCursor(offer), offer, id);
      MapServerOffered(t.AdvanceGuestServerCursor(offer), offer, id);
    }
  }

  lemma MapOfferedGuest(t: Table, guest: u32, host: u32)
    requires host !in t.hostToGuest
    ensures t.MapId(guest, host).guestToHost == t.guestToHost[guest := host]
  {
    var linked := t.LinkGuest(guest, host);
    assert linked.guestToHost == t.guestToHost[guest := host] && host !in linked.hostToGuest;
    hide t.LinkGuest;
  }

  lemma MapOfferedHost(t: Table, guest: u32, host: u32)
    requires t.Inverse() && host !in t.hostToGuest
    ensures t.MapId(guest, host).hostToGuest
         == (if guest in t.guestToHost then t.hostToGuest - {t.guestToHost[guest]} else t.hostToGuest)[host := guest]
  {
  }

  lemma MapServerOffered(t: Table, guest: u32, host: u32)
    requires t.Inverse() && guest !in t.guestToHost
    ensures t.MapId(guest, host).hostToGuest == t.hostToGuest[host := guest]
    ensures t.MapId(guest, host).guestToHost
         == (if host in t.hostToGuest then t.guestToHost - {t.hostToGuest[host]} else t.guestToHost)[guest := host]
  {
    assert t.LinkGuest(guest, host) == t.(guestToHost := t.guestToHost[guest := host]);
    if host in t.hostToGuest {
      var other := t.hostToGuest[host];
      assert other in t.guestToHost && other != guest;
      assert t.guestToHost[guest := host] - {other} == (t.guestToHost - {other})[guest := host];
    }
  }

  /** A new object is known on both sides under its parent's versions and its own interface,
      or under the version and name the message gives; no other object's version changes. */
  lemma NewObjectsInherit(t: Table, d: Direction, sender: u32, ty: ArgType, v: Value, offer: u32,
      naming: seq<byte> -> Interface, other: u32)
    requires Typed(v, ty) && ty.NewId? && t.Inverse() && Offerable(t, d, offer) && Available(t, d, Introduced(v).value)
    ensures var r := Introduce(t, d, sender, ty, v, offer, naming); var id := Introduced(v).value;
            var guest, host := if d.ClientToHost? then id else offer, if d.ClientToHost? then offer else id;
            && (v.NewIdValue? ==>
                  && Lookup(r.interfaces, guest) == ty.creates
                  && (ObjectVersion(t, d, sender).Some? ==> ObjectVersion(r, d, id) == ObjectVersion(t, d, sender))
                  && (d.ClientToHost? && sender in t.guestToHost && t.HostObjectVersion(t.guestToHost[sender]).Some? ==>
                        r.HostObjectVersion(offer) == t.HostObjectVersion(t.guestToHost[sender]))
                  && (d.HostToClient? ==> r.GuestObjectVersion(offer) == r.HostObjectVersion(id)))
            && (v.UntypedNewIdValue? ==>
                  && Lookup(r.interfaces, guest) == Some(naming(v.name))
                  && r.GuestObjectVersion(guest) == Some(v.version) == r.HostObjectVersion(host))
            && (other in t.guestToHost ==>
                  && Lookup(r.interfaces, other) == Lookup(t.interfaces, other)
                  && r.GuestObjectVersion(other) == t.GuestObjectVersion(other))
  {
    if d.ClientToHost? {
      MapFresh(t.AdvanceHostCursor(offer), Introduced(v).value, offer);
    } else {
      MapFresh(t.AdvanceGuestServerCursor(offer), offer, Introduced(v).value);
    }
    hide t.MapId;
  }

  lemma AfterEffect(t: Table, d: Direction, sender: u32, ty: ArgType, v: Value, offer: u32,
      naming: seq<byte> -> Interface)
    requires Typed(v, ty) && t.Inverse() && (ty.NewId? ==> Offerable(t, d, offer))
    ensures var u := After(t, d, sender, ty, v, offer, naming);
            && u.Inverse() && (Introduced(v).None? <==> !ty.NewId?)
            && (Introduced(v).None? ==> u == t)
            && (Introduced(v).Some? ==>
                  && To(u, d) == To(t, d)[Introduced(v).value := offer]
                  && offer !in Back(t, d) && offer != 0
                  && Back(u, d) == (if Introduced(v).value in To(t, d) then Back(t, d) - {To(t, d)[Introduced(v).value]}
                                    else Back(t, d))[offer := Introduced(v).value])
  {
    if ty.NewId? {
      IntroduceEffect(t, d, sender, ty, v, offer, naming);
    }
    hide Introduce;
  }

  /** What later translation does to the numbers a table already knows. */
  lemma {:induction false} TranslationKeepsPairs(t: Table, d: Direction, sender: u32, ts: seq<ArgType>,
      vs: seq<Value>, offers: seq<u32>, naming: seq<byte> -> Interface, id: u32)
    requires TypedAll(vs, ts) && |offers| == |vs| && t.Inverse() && FairOffers(t, d, sender, ts, vs, offers, naming)
    ensures var u := Translate(t, d, sender, ts, vs, offers, naming).table;
            && u.Inverse()
            && (0 !in Back(t, d) ==> 0 !in Back(u, d))
            && (id in To(t, d) ==> id in To(u, d))
            && (id in To(t, d) && (forall i | 0 <= i < |vs| :: Introduced(vs[i]) != Some(id)) ==>
                  Lookup(To(u, d), id) == Some(To(t, d)[id]))
    decreases |vs|
  {
    hide After, To, Back, Introduced, Offerable, RenamedArgument, Untranslatable;
    hide t.Inverse;
    if vs != [] {
      assert TypedAll(vs[1..], ts[1..]);
      if !Untranslatable(t, d, ts[0], vs[0]) {
        var u := After(t, d, sender, ts[0], vs[0], offers[0], naming);
        AfterEffect(t, d, sender, ts[0], vs[0], offers[0], naming);
        TranslationKeepsPairs(u, d, sender, ts[1..], vs[1..], offers[1..], naming, id);
      }
    }
  }

  /** Every object argument goes out under the partner its number had when the message came in. */
  lemma {:induction false} ObjectsKeepTheirPartner(t: Table, d: Direction, sender: u32, ts: seq<ArgType>,
      vs: seq<Value>, offers: seq<u32>, naming: seq<byte> -> Interface, i: nat)
    requires TypedAll(vs, ts) && |offers| == |vs| && t.Inverse() && FairOffers(t, d, sender, ts, vs, offers, naming)
    requires Translate(t, d, sender, ts, vs, offers, naming).Translation? && ObjectsAreNotNew(vs)
    requires i < |vs| && ts[i].Object?
    ensures var values := Translate(t, d, sender, ts, vs, offers, naming).values;
            && |values| == |vs|
            && if ts[i].nullable && vs[i].target == 0 then values[i] == vs[i]
               else vs[i].target in To(t, d) && values[i] == ObjectValue(To(t, d)[vs[i].target])
    decreases |vs|
  {
    TranslatedLength(t, d, sender, ts, vs, offers, naming);
    if i > 0 {
      var u := After(t, d, sender, ts[0], vs[0], offers[0], naming);
      AfterEffect(t, d, sender, ts[0], vs[0], offers[0], naming);
      assert ObjectsAreNotNew(vs[1..]) && Introduced(vs[0]) != Some(vs[i].target);
      ObjectsKeepTheirPartner(u, d, sender, ts[1..], vs[1..], offers[1..], naming, i - 1);
      assert ts[1..][i - 1] == ts[i] && vs[1..][i - 1] == vs[i];
      hide After, To, Back, RenamedArgument, FairOffers;
    }
  }

  lemma {:induction false} TranslatedLength(t: Table, d: Direction, sender: u32, ts: seq<ArgType>,
      vs: seq<Value>, offers: seq<u32>, naming: seq<byte> -> Interface)
    requires TypedAll(vs, ts) && |offers| == |vs|
    ensures var r := Translate(t, d, sender, ts, vs, offers, naming); r.Translation? ==> |r.values| == |vs|
    decreases |vs|
  {
    hide After, RenamedArgument, Untranslatable, Typed;
    if vs != [] {
      assert TypedAll(vs[1..], ts[1..]);
      TranslatedLength(After(t, d, sender, ts[0], vs[0], offers[0], naming), d, sender, ts[1..], vs[1..], offers[1..], naming);
    }
  }

  lemma RenamedBackIs(t: Table, d: Direction, ty: ArgType, v: Value, offer: u32, back: map<u32, u32>)
    requires Typed(v, ty) && !Untranslatable(t, d, ty, v) && t.Inverse() && 0 !in back
    requires v.ObjectValue? && v.target in To(t, d) ==> Lookup(back, To(t, d)[v.target]) == Some(v.target)
    requires Introduced(v).Some? ==> Lookup(back, offer) == Introduced(v)
    ensures RenamedBack(back, RenamedArgument(t, d, ty, v, offer)) == Some(v)
  {
  }

  // ---- renaming back ----

  /** Introducing a known number again gives it another partner for good. */
  lemma {:induction false} IntroducedAgainLosesPair(t: Table, d: Direction, sender: u32, ts: seq<ArgType>,
      vs: seq<Value>, offers: seq<u32>, naming: seq<byte> -> Interface, id: u32)
    requires TypedAll(vs, ts) && |offers| == |vs| && t.Inverse() && FairOffers(t, d, sender, ts, vs, offers, naming)
    requires Translate(t, d, sender, ts, vs, offers, naming).Translation?
    requires id in To(t, d) && DistinctIds(vs) && exists i | 0 <= i < |vs| :: Introduced(vs[i]) == Some(id)
    ensures var u := Translate(t, d, sender, ts, vs, offers, naming).table;
            u.Inverse() && id in To(u, d) && To(u, d)[id] != To(t, d)[id]
    decreases |vs|
  {
    var i :| 0 <= i < |vs| && Introduced(vs[i]) == Some(id);
    KnownIsBackwards(t, d, id);
    hide After, To, Back, Introduced, Offerable, RenamedArgument, Untranslatable;
    hide t.Inverse;
    assert TypedAll(vs[1..], ts[1..]) && DistinctIds(vs[1..]);
    var u := After(t, d, sender, ts[0], vs[0], offers[0], naming);
    AfterEffect(t, d, sender, ts[0], vs[0], offers[0], naming);
    if i == 0 {
      TranslationKeepsPairs(u, d, sender, ts[1..], vs[1..], offers[1..], naming, id);
    } else {
      assert vs[1..][i - 1] == vs[i];
      IntroducedAgainLosesPair(u, d, sender, ts[1..], vs[1..], offers[1..], naming, id);
    }
  }

  lemma KnownIsBackwards(t: Table, d: Direction, id: u32)
    requires t.Inverse()
    ensures id in To(t, d) ==> Lookup(Back(t, d), To(t, d)[id]) == Some(id)
    ensures forall x :: x in Back(t, d) ==> Lookup(To(t, d), Back(t, d)[x]) == Some(x)
  {
  }

  /** Renaming back with the table a message leaves recovers its arguments exactly when no
      two of them introduce the same number: a repeated number keeps only its last partner. */
  lemma {:induction false} TranslationIsInvertibleIff(t: Table, d: Direction, sender: u32, ts: seq<ArgType>,
      vs: seq<Value>, offers: seq<u32>, naming: seq<byte> -> Interface)
    requires TypedAll(vs, ts) && |offers| == |vs| && t.Inverse() && 0 !in Back(t, d)
    requires FairOffers(t, d, sender, ts, vs, offers, naming) && ObjectsAreNotNew(vs)
    requires Translate(t, d, sender, ts, vs, offers, naming).Translation?
    ensures var r := Translate(t, d, sender, ts, vs, offers, naming);
            RenamesBack(Back(r.table, d), r.values, vs) <==> DistinctIds(vs)
    decreases |vs|
  {
    hide After, To, Back, Introduced, Offerable, RenamedArgument, Untranslatable, RenamedBack;
    hide t.Inverse;
    if vs != [] {
      var v := vs[0];
      assert TypedAll(vs[1..], ts[1..]) && ObjectsAreNotNew(vs[1..]);
      var u := After(t, d, sender, ts[0], v, offers[0], naming);
      AfterEffect(t, d, sender, ts[0], v, offers[0], naming);
      TranslationKeepsPairs(u, d, sender, ts[1..], vs[1..], offers[1..], naming, 0);
      var r := Translate(t, d, sender, ts, vs, offers, naming);
      var rest := Translate(u, d, sender, ts[1..], vs[1..], offers[1..], naming);
      TranslationIsInvertibleIff(u, d, sender, ts[1..], vs[1..], offers[1..], naming);
      if DistinctIds(vs[1..]) {
        FirstRenamesBackIff(t, d, sender, ts, vs, offers, naming);
      }
      RenamesBackSplits(Back(r.table, d), r.values, vs);
      DistinctSplits(vs);
    }
  }

  lemma RenamesBackSplits(back: map<u32, u32>, translated: seq<Value>, vs: seq<Value>)
    requires vs != [] && translated != []
    ensures RenamesBack(back, translated, vs)
       <==> RenamedBack(back, translated[0]) == Some(vs[0]) && RenamesBack(back, translated[1..], vs[1..])
  {
    hide RenamedBack;
    if RenamedBack(back, translated[0]) == Some(vs[0]) && RenamesBack(back, translated[1..], vs[1..]) {
      forall i | 0 <= i < |vs| ensures RenamedBack(back, translated[i]) == Some(vs[i]) {
        if i > 0 {
          assert translated[1..][i - 1] == translated[i] && vs[1..][i - 1] == vs[i];
        }
      }
    }
  }

  /** Does a later argument introduce the first one's number again? */
  predicate FirstIsRepeated(vs: seq<Value>)
    requires vs != []
  {
    Introduced(vs[0]).Some? && exists i | 0 < i < |vs| :: Introduced(vs[i]) == Introduced(vs[0])
  }

  lemma DistinctSplits(vs: seq<Value>)
    requires vs != []
    ensures DistinctIds(vs) <==> !FirstIsRepeated(vs) && DistinctIds(vs[1..])
  {
    hide Introduced;
    if !FirstIsRepeated(vs) && DistinctIds(vs[1..]) {
      forall i, j | 0 <= i < j < |vs| && Introduced(vs[i]).Some? ensures Introduced(vs[i]) != Introduced(vs[j]) {
        if i > 0 {
          assert vs[1..][i - 1] == vs[i] && vs[1..][j - 1] == vs[j];
        }
      }
    }
  }

  /** The first argument renames back unless its number is introduced again. */
  lemma FirstRenamesBackIff(t: Table, d: Direction, sender: u32, ts: seq<ArgType>, vs: seq<Value>,
      offers: seq<u32>, naming: seq<byte> -> Interface)
    requires TypedAll(vs, ts) && |offers| == |vs| && t.Inverse() && 0 !in Back(t, d) && vs != []
    requires FairOffers(t, d, sender, ts, vs, offers, naming) && ObjectsAreNotNew(vs)
    requires Translate(t, d, sender, ts, vs, offers, naming).Translation? && DistinctIds(vs[1..])
    ensures var r := Translate(t, d, sender, ts, vs, offers, naming);
            RenamedBack(Back(r.table, d), r.values[0]) == Some(vs[0]) <==> !FirstIsRepeated(vs)
  {
    var v := vs[0];
    assert TypedAll(vs[1..], ts[1..]);
    var u := After(t, d, sender, ts[0], v, offers[0], naming);
    hide After, Offerable, RenamedArgument, Untranslatable;
    AfterEffect(t, d, sender, ts[0], v, offers[0], naming);
    var r := Translate(t, d, sender, ts, vs, offers, naming);
    var id := if Introduced(v).Some? then Introduced(v).value else if v.ObjectValue? then v.target else 0;
    TranslationKeepsPairs(u, d, sender, ts[1..], vs[1..], offers[1..], naming, id);
    KnownIsBackwards(r.table, d, id);
    hide To, Back, t.Inverse;
    if FirstIsRepeated(vs) {
      var i :| 0 < i < |vs| && Introduced(vs[i]) == Introduced(vs[0]);
      assert vs[1..][i - 1] == vs[i];
      IntroducedAgainLosesPair(u, d, sender, ts[1..], vs[1..], offers[1..], naming, id);
      RenamedNewId(t, d, ts[0], v, offers[0], Back(r.table, d));
    } else {
      RenamedBackIs(t, d, ts[0], v, offers[0], Back(r.table, d));
    }
  }

  lemma RenamedNewId(t: Table, d: Direction, ty: ArgType, v: Value, offer: u32, back: map<u32, u32>)
    requires Typed(v, ty) && !Untranslatable(t, d, ty, v) && Introduced(v).Some?
    ensures RenamedBack(back, RenamedArgument(t, d, ty, v, offer)) == Some(v) <==> Lookup(back, offer) == Introduced(v)
  {
  }

  // ---- messages given up half-way ----

  function FirstNewId(ts: seq<ArgType>): (n: nat)
    ensures n <= |ts|
  {
    if ts == [] || ts[0].NewId? then 0 else 1 + FirstNewId(ts[1..])
  }

  /** A message is given up exactly when it names an object the other side does not know. */
  lemma {:induction false} GivenUpIff(t: Table, d: Direction, sender: u32, ts: seq<ArgType>, vs: seq<Value>,
      offers: seq<u32>, naming: seq<byte> -> Interface)
    requires TypedAll(vs, ts) && |offers| == |vs| && t.Inverse() && FairOffers(t, d, sender, ts, vs, offers, naming)
    requires ObjectsAreNotNew(vs)
    ensures Translate(t, d, sender, ts, vs, offers, naming).GivenUp?
       <==> exists i | 0 <= i < |vs| :: Untranslatable(t, d, ts[i], vs[i])
    decreases |vs|
  {
    hide After, To, Back, Offerable, RenamedArgument, t.Inverse;
    if vs != [] {
      assert TypedAll(vs[1..], ts[1..]) && ObjectsAreNotNew(vs[1..]);
      if !Untranslatable(t, d, ts[0], vs[0]) {
        var u := After(t, d, sender, ts[0], vs[0], offers[0], naming);
        AfterEffect(t, d, sender, ts[0], vs[0], offers[0], naming);
        GivenUpIff(u, d, sender, ts[1..], vs[1..], offers[1..], naming);
        forall i | 0 <= i < |vs[1..]|
          ensures Untranslatable(u, d, ts[1..][i], vs[1..][i]) <==> Untranslatable(t, d, ts[i + 1], vs[i + 1])
        {
        }
        hide Introduced, Untranslatable;
        if i :| 0 <= i < |vs| && Untranslatable(t, d, ts[i], vs[i]) {
          assert Untranslatable(u, d, ts[1..][i - 1], vs[1..][i - 1]);
        }
      }
    }
  }

  /** A message given up leaves the table as it was exactly when the unknown object comes
      before its new IDs: those that come first stay paired, although nothing is sent. */
  lemma {:induction false} GivenUpLeavesTableIff(t: Table, d: Direction, sender: u32, ts: seq<ArgType>,
      vs: seq<Value>, offers: seq<u32>, naming: seq<byte> -> Interface)
    requires TypedAll(vs, ts) && |offers| == |vs| && t.Inverse() && FairOffers(t, d, sender, ts, vs, offers, naming)
    requires FreshIds(t, d, vs) && Translate(t, d, sender, ts, vs, offers, naming).GivenUp?
    ensures Translate(t, d, sender, ts, vs, offers, naming).table == t
       <==> exists i | 0 <= i < |vs| && i <= FirstNewId(ts) :: Untranslatable(t, d, ts[i], vs[i])
    decreases |vs|
  {
    hide After, To, Back, Offerable, RenamedArgument, t.Inverse;
    assert TypedAll(vs[1..], ts[1..]);
    var v := vs[0];
    if ts[0].NewId? {
      var u := After(t, d, sender, ts[0], v, offers[0], naming);
      AfterEffect(t, d, sender, ts[0], v, offers[0], naming);
      TranslationKeepsPairs(u, d, sender, ts[1..], vs[1..], offers[1..], naming, Introduced(v).value);
      AvailableIsUnknown(t, d, Introduced(v).value);
    } else if !Untranslatable(t, d, ts[0], v) {
      AfterEffect(t, d, sender, ts[0], v, offers[0], naming);
      GivenUpLeavesTableIff(t, d, sender, ts[1..], vs[1..], offers[1..], naming);
      hide Untranslatable, Available, Introduced;
      if i :| 0 <= i < |vs| && i <= FirstNewId(ts) && Untranslatable(t, d, ts[i], vs[i]) {
        assert Untranslatable(t, d, ts[1..][i - 1], vs[1..][i - 1]);
      }
      if i :| 0 <= i < |vs[1..]| && i <= FirstNewId(ts[1..]) && Untranslatable(t, d, ts[1..][i], vs[1..][i]) {
        assert Untranslatable(t, d, ts[i + 1], vs[i + 1]);
      }
    }
  }

  lemma AvailableIsUnknown(t: Table, d: Direction, id: u32)
    requires Available(t, d, id)
    ensures id !in To(t, d)
  {
  }
}
