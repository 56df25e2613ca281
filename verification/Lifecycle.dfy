/**
 The abstract ID-lifecycle machine: which numbers are paired, recorded, pending
 or retired, which creates are unanswered, and what the host still holds.

 Every handler of a session performs a few of the moves below on these sets; the
 `Protocol` module shows which. Here each move is proved to keep the invariant.
 */
module Lifecycle {
  import opened Prelude
  import opened ShadowTables
  import opened Sessions

  /**
   What the host holds, by its own account.
   `owned`: client-allocated numbers the host knows and has not yet deleted.
   `dying`: the owned numbers whose object is gone, so that `delete_id` may follow.
   `unanswered`: params numbers with an asynchronous create the host has not answered.
   `served`: live buffers the host numbered itself.
   */
  datatype Host = Host(owned: set<u32>, dying: set<u32>, unanswered: set<u32>, served: set<u32>)
  {
    function Learns(host: u32): Host { this.(owned := owned + {host}) }

    function Loses(host: u32): Host { this.(dying := dying + {host}) }

    function Deletes(host: u32): Host { this.(owned := owned - {host}, dying := dying - {host}) }

    function Asked(params: u32): Host { this.(unanswered := unanswered + {params}) }

    function Answers(params: u32): Host { this.(unanswered := unanswered - {params}) }

    function Serves(host: u32): Host { this.(served := served + {host}) }

    function Frees(host: u32): Host { this.(served := served - {host}) }
  }

  datatype Ids = Ids(
    guestToHost: map<u32, u32>,
    hostToGuest: map<u32, u32>,
    interfaces: map<u32, Interface>,
    hostInterfaces: map<u32, Interface>,
    retired: set<u32>,
    pendingHost: set<u32>,
    pendingGuest: set<u32>,
    creates: map<u32, PendingCreate>,
    orphans: map<u32, u32>,
    natives: set<u32>,
    deferred: set<u32>,
    hostOnly: set<u32>,
    barriers: set<u32>)
  {
    predicate Available(host: u32) {
      host > 1 && host !in hostToGuest && host !in hostInterfaces && host !in retired && host !in pendingHost
    }

    predicate Known(guest: u32) {
      guest in guestToHost || guest in interfaces
    }

    // ---- moves ----

    function Name(guest: u32, interface: Interface): Ids {
      this.(interfaces := interfaces[guest := interface])
    }

    function Unname(guest: u32): Ids {
      this.(interfaces := interfaces - {guest})
    }

    function Pair(guest: u32, host: u32, interface: Interface): Ids {
      this.(guestToHost := guestToHost[guest := host],
            hostToGuest := hostToGuest[host := guest],
            interfaces := interfaces[guest := interface])
    }

    function Record(host: u32, interface: Interface): Ids {
      this.(hostInterfaces := hostInterfaces[host := interface])
    }

    function Bind(host: u32, interface: Interface): Ids {
      Record(host, interface).(hostOnly := if interface == WlCallback then hostOnly else hostOnly + {host},
                               barriers := if interface == WlCallback then barriers + {host} else barriers)
    }

    /** A host-only object is gone; its number waits for `delete_id`. */
    function Fade(host: u32): Ids {
      this.(hostInterfaces := hostInterfaces - {host}, retired := retired - {host},
            pendingHost := pendingHost + {host},
            hostOnly := hostOnly - {host}, barriers := barriers - {host})
    }

    function Retire(host: u32): Ids {
      this.(hostInterfaces := hostInterfaces - {host}, retired := retired + {host},
            hostOnly := hostOnly - {host})
    }

    /** The destructor of a paired object has been forwarded. */
    function Doom(guest: u32): Ids {
      this.(pendingGuest := pendingGuest + {guest},
            deferred := if guest in guestToHost then deferred - {guestToHost[guest]} else deferred)
    }

    function Orphan(guest: u32): Ids
      requires guest in guestToHost
    {
      this.(pendingGuest := pendingGuest + {guest},
            creates := creates - {guestToHost[guest]},
            orphans := orphans[guestToHost[guest] := guest])
    }

    function Defer(guest: u32, interface: Interface): Ids
      requires guest in guestToHost
    {
      var host := guestToHost[guest];
      this.(interfaces := interfaces - {guest}, pendingGuest := pendingGuest + {guest},
            hostInterfaces := if host in hostInterfaces then hostInterfaces else hostInterfaces[host := interface],
            deferred := deferred + {host})
    }

    /** Both halves of a pair disappear. */
    function Forget(guest: u32): Ids
      requires guest in guestToHost
    {
      var host := guestToHost[guest];
      this.(guestToHost := guestToHost - {guest}, hostToGuest := hostToGuest - {host},
            interfaces := interfaces - {guest}, hostInterfaces := hostInterfaces - {host},
            pendingGuest := pendingGuest - {guest}, natives := natives - {host}, deferred := deferred - {host})
    }

    /** The guest half disappears; the host number stays recorded under `interface`. */
    function Unpair(guest: u32, interface: Interface): Ids
      requires guest in guestToHost
    {
      var host := guestToHost[guest];
      this.(guestToHost := guestToHost - {guest}, hostToGuest := hostToGuest - {host},
            interfaces := interfaces - {guest}, pendingGuest := pendingGuest - {guest},
            hostInterfaces := if host in hostInterfaces then hostInterfaces else hostInterfaces[host := interface])
    }

    /** The guest half disappears and the host number waits for `delete_id`. */
    function End(guest: u32): Ids
      requires guest in guestToHost
    {
      var host := guestToHost[guest];
      this.(guestToHost := guestToHost - {guest}, hostToGuest := hostToGuest - {host},
            interfaces := interfaces - {guest}, hostInterfaces := hostInterfaces - {host},
            retired := retired - {host}, pendingHost := pendingHost + {host})
    }

    function Acknowledge(host: u32): Ids {
      this.(pendingHost := pendingHost - {host})
    }

    function Begin(params: u32, create: PendingCreate): Ids {
      this.(creates := creates[params := create])
    }

    /** The buffer paired with `host` is backed by imported planes. */
    function Import(host: u32): Ids {
      this.(natives := natives + {host})
    }

    function Answer(params: u32): Ids {
      this.(creates := creates - {params})
    }

    function AnswerOrphan(params: u32): Ids {
      if params in hostToGuest then this.(orphans := orphans - {params})
      else this.(orphans := orphans - {params}, hostInterfaces := hostInterfaces - {params},
                 retired := retired - {params}, pendingHost := pendingHost - {params})
    }

    /** A live create is answered with a buffer, exposed under a guest server number. */
    function Expose(params: u32, guest: u32, host: u32): Ids {
      Answer(params).Pair(guest, host, WlBuffer).(natives := natives + {host})
    }

    function Reserve(host: u32): Ids {
      this.(pendingHost := pendingHost + {host})
    }
  }

  // ---- the invariant ----

  /** The two maps are mutual inverses, and a paired number is in no other class. */
  ghost predicate MapsOk(i: Ids) {
    && (forall g :: g in i.guestToHost ==> i.guestToHost[g] in i.hostToGuest && i.hostToGuest[i.guestToHost[g]] == g)
    && (forall h :: h in i.hostToGuest ==> i.hostToGuest[h] in i.guestToHost && i.guestToHost[i.hostToGuest[h]] == h)
    && (forall h :: h in i.pendingHost || h in i.retired ==> h !in i.hostToGuest && h !in i.hostInterfaces)
    && (forall h :: h in i.pendingHost ==> h !in i.retired)
  }

  ghost predicate NamesOk(i: Ids) {
    && (forall g :: g in i.pendingGuest ==> g in i.guestToHost)
    && (forall g :: g in i.guestToHost ==> g in i.interfaces || g in i.pendingGuest)
    && 1 in i.guestToHost && 1 in i.interfaces && i.interfaces[1] == WlDisplay && 1 !in i.pendingGuest
    && (forall g :: g in i.guestToHost && g >= GUEST_SERVER_ID_START ==> i.guestToHost[g] in i.natives)
    && (forall h :: h in i.natives ==>
          h in i.hostToGuest && (i.hostToGuest[h] in i.interfaces ==> i.interfaces[i.hostToGuest[h]] == WlBuffer))
  }

  /** What a host-side interface record may mean. */
  ghost predicate RecordsOk(i: Ids) {
    && (forall h :: h in i.hostInterfaces && h in i.hostToGuest ==>
          && (i.hostInterfaces[h] == WlBuffer || i.hostInterfaces[h] == HostTextInputV1)
          && (i.hostToGuest[h] in i.interfaces ==> i.interfaces[i.hostToGuest[h]] == TextInputV3))
    && (forall h :: h in i.hostInterfaces && h !in i.hostToGuest ==>
          && (i.hostInterfaces[h] == WlCallback ==> h in i.barriers)
          && (i.hostInterfaces[h] == LinuxBufferParams ==> h in i.orphans))
    && (forall h :: h in i.hostOnly || h in i.barriers ==>
          h in i.hostInterfaces && h !in i.hostToGuest && h !in i.orphans)
    && (forall h :: h in i.hostOnly ==> h !in i.barriers)
    && (forall h :: h in i.deferred ==>
          h in i.hostToGuest && h in i.hostInterfaces
          && i.hostToGuest[h] !in i.interfaces && i.hostToGuest[h] in i.pendingGuest)
  }

  /** Every unanswered create is tracked exactly once: under its live params
      object, or as an orphan whose number stays dispatchable. */
  ghost predicate CreatesOk(i: Ids, host: Host) {
    && host.unanswered == i.creates.Keys + i.orphans.Keys
    && i.creates.Keys !! i.orphans.Keys
    && (forall p :: p in i.creates ==>
          && p in i.hostToGuest && i.hostToGuest[p] == i.creates[p].guestParams
          && i.hostToGuest[p] !in i.pendingGuest
          && i.hostToGuest[p] in i.interfaces && i.interfaces[i.hostToGuest[p]] == LinuxBufferParams)
    && (forall p :: p in i.orphans && p in i.hostToGuest ==>
          && i.hostToGuest[p] == i.orphans[p] && i.orphans[p] in i.pendingGuest
          && i.orphans[p] in i.interfaces && i.interfaces[i.orphans[p]] == LinuxBufferParams)
    && (forall p :: p in i.orphans && p !in i.hostToGuest ==>
          p in i.hostInterfaces && i.hostInterfaces[p] == LinuxBufferParams)
  }

  /** What the host holds is reserved, and what it may delete is waiting for that. */
  ghost predicate HoldsOk(i: Ids, host: Host) {
    && (forall h :: h in host.owned ==> h in i.hostToGuest || h in i.hostInterfaces || h in i.retired || h in i.pendingHost)
    && (forall h :: h in host.dying ==>
          && h in host.owned
          && (h in i.pendingHost || h in i.orphans
              || (h in i.hostToGuest && i.hostToGuest[h] in i.pendingGuest && h !in i.deferred)))
    && (forall h :: h in i.hostOnly || h in i.barriers ==> h in host.owned)
    && (forall p :: p in i.orphans ==> (p in host.owned <==> p in i.hostToGuest))
  }

  /** The host holds every paired number, those of its own range as buffers it serves. */
  ghost predicate ServesOk(i: Ids, host: Host) {
    && (forall h :: h in host.served ==>
          h !in host.owned && h in i.hostToGuest && i.hostToGuest[h] >= GUEST_SERVER_ID_START)
    && (forall g :: g in i.guestToHost && g != 1 ==>
          if g >= GUEST_SERVER_ID_START then i.guestToHost[g] in host.served else i.guestToHost[g] in host.owned)
  }

  ghost predicate HostOk(i: Ids, host: Host) {
    HoldsOk(i, host) && ServesOk(i, host)
  }

  /** Once an object is over for the guest and its destruction is not deferred, and once a
      number waits for its `delete_id`, the host has been told to destroy it; a buffer the
      host serves is not over at all. */
  ghost predicate DiesOk(i: Ids, host: Host) {
    && (forall h :: h in host.owned && Over(i, h) ==> h in host.dying)
    && (forall h :: h in host.served ==> !Over(i, h))
  }

  predicate Over(i: Ids, h: u32) {
    h in i.pendingHost || (h in i.hostToGuest && i.hostToGuest[h] in i.pendingGuest && h !in i.deferred)
  }

  ghost predicate Good(i: Ids, host: Host) {
    MapsOk(i) && NamesOk(i) && RecordsOk(i) && CreatesOk(i, host) && HostOk(i, host) && DiesOk(i, host)
  }

  lemma NameKeepsMaps(i: Ids, g: u32, t: Interface)
    requires MapsOk(i) && NamesOk(i) && RecordsOk(i)
    requires !i.Known(g)
    ensures MapsOk(i.Name(g, t)) && NamesOk(i.Name(g, t))
  {
  }

  lemma NameKeepsRecords(i: Ids, g: u32, t: Interface)
    requires MapsOk(i) && NamesOk(i) && RecordsOk(i)
    requires !i.Known(g)
    ensures RecordsOk(i.Name(g, t))
  {
  }

  lemma NameKeepsCreates(i: Ids, host: Host, g: u32, t: Interface)
    requires MapsOk(i) && CreatesOk(i, host) && HostOk(i, host)
    requires !i.Known(g)
    ensures CreatesOk(i.Name(g, t), host)
  {
  }

  lemma NameKeepsHost(i: Ids, host: Host, g: u32, t: Interface)
    requires MapsOk(i) && CreatesOk(i, host) && HostOk(i, host)
    requires !i.Known(g)
    ensures HostOk(i.Name(g, t), host)
  {
  }

  lemma NameKeepsDying(i: Ids, host: Host, g: u32, t: Interface)
    requires Good(i, host)
    requires !i.Known(g)
    ensures DiesOk(i.Name(g, t), host)
  {
  }

  lemma NameKeepsGood(i: Ids, host: Host, g: u32, t: Interface)
    requires Good(i, host)
    requires !i.Known(g)
    ensures Good(i.Name(g, t), host)
  {
    NameKeepsMaps(i, g, t);
    NameKeepsRecords(i, g, t);
    NameKeepsCreates(i, host, g, t);
    NameKeepsHost(i, host, g, t);
    NameKeepsDying(i, host, g, t);
  }

  lemma UnnameKeepsMaps(i: Ids, g: u32)
    requires MapsOk(i) && NamesOk(i) && RecordsOk(i)
    requires g !in i.guestToHost
    ensures MapsOk(i.Unname(g)) && NamesOk(i.Unname(g))
  {
  }

  lemma UnnameKeepsRecords(i: Ids, g: u32)
    requires MapsOk(i) && NamesOk(i) && RecordsOk(i)
    requires g !in i.guestToHost
    ensures RecordsOk(i.Unname(g))
  {
  }

  lemma UnnameKeepsCreates(i: Ids, host: Host, g: u32)
    requires MapsOk(i) && CreatesOk(i, host) && HostOk(i, host)
    requires g !in i.guestToHost
    ensures CreatesOk(i.Unname(g), host)
  {
  }

  lemma UnnameKeepsHost(i: Ids, host: Host, g: u32)
    requires MapsOk(i) && CreatesOk(i, host) && HostOk(i, host)
    requires g !in i.guestToHost
    ensures HostOk(i.Unname(g), host)
  {
  }

  lemma UnnameKeepsDying(i: Ids, host: Host, g: u32)
    requires Good(i, host)
    requires g !in i.guestToHost
    ensures DiesOk(i.Unname(g), host)
  {
  }

  lemma UnnameKeepsGood(i: Ids, host: Host, g: u32)
    requires Good(i, host)
    requires g !in i.guestToHost
    ensures Good(i.Unname(g), host)
  {
    UnnameKeepsMaps(i, g);
    UnnameKeepsRecords(i, g);
    UnnameKeepsCreates(i, host, g);
    UnnameKeepsHost(i, host, g);
    UnnameKeepsDying(i, host, g);
  }

  lemma PairKeepsMaps(i: Ids, g: u32, h: u32, t: Interface)
    requires MapsOk(i) && NamesOk(i) && RecordsOk(i)
    requires !i.Known(g) && i.Available(h) && 1 < g < GUEST_SERVER_ID_START
    ensures MapsOk(i.Pair(g, h, t)) && NamesOk(i.Pair(g, h, t))
  {
  }

  lemma PairKeepsRecords(i: Ids, g: u32, h: u32, t: Interface)
    requires MapsOk(i) && NamesOk(i) && RecordsOk(i)
    requires !i.Known(g) && i.Available(h) && 1 < g < GUEST_SERVER_ID_START
    ensures RecordsOk(i.Pair(g, h, t))
  {
  }

  lemma PairKeepsCreates(i: Ids, host: Host, g: u32, h: u32, t: Interface)
    requires MapsOk(i) && CreatesOk(i, host)
    requires !i.Known(g) && i.Available(h) && 1 < g < GUEST_SERVER_ID_START
    ensures CreatesOk(i.Pair(g, h, t), host.Learns(h))
  {
  }

  lemma PairKeepsHost(i: Ids, host: Host, g: u32, h: u32, t: Interface)
    requires MapsOk(i) && HostOk(i, host)
    requires !i.Known(g) && i.Available(h) && 1 < g < GUEST_SERVER_ID_START
    ensures HostOk(i.Pair(g, h, t), host.Learns(h))
  {
  }

  lemma PairKeepsDying(i: Ids, host: Host, g: u32, h: u32, t: Interface)
    requires Good(i, host)
    requires !i.Known(g) && i.Available(h) && 1 < g < GUEST_SERVER_ID_START
    ensures DiesOk(i.Pair(g, h, t), host.Learns(h))
  {
  }

  lemma PairKeepsGood(i: Ids, host: Host, g: u32, h: u32, t: Interface)
    requires Good(i, host)
    requires !i.Known(g) && i.Available(h) && 1 < g < GUEST_SERVER_ID_START
    ensures Good(i.Pair(g, h, t), host.Learns(h))
  {
    PairKeepsMaps(i, g, h, t);
    PairKeepsRecords(i, g, h, t);
    PairKeepsCreates(i, host, g, h, t);
    PairKeepsHost(i, host, g, h, t);
    PairKeepsDying(i, host, g, h, t);
  }

  lemma RecordKeepsMaps(i: Ids, h: u32)
    requires MapsOk(i) && NamesOk(i) && RecordsOk(i)
    requires h in i.hostToGuest && h !in i.hostInterfaces && i.hostToGuest[h] in i.interfaces
             && i.interfaces[i.hostToGuest[h]] == TextInputV3
    ensures MapsOk(i.Record(h, HostTextInputV1)) && NamesOk(i.Record(h, HostTextInputV1))
  {
  }

  lemma RecordKeepsRecords(i: Ids, h: u32)
    requires MapsOk(i) && NamesOk(i) && RecordsOk(i)
    requires h in i.hostToGuest && h !in i.hostInterfaces && i.hostToGuest[h] in i.interfaces
             && i.interfaces[i.hostToGuest[h]] == TextInputV3
    ensures RecordsOk(i.Record(h, HostTextInputV1))
  {
  }

  lemma RecordKeepsCreates(i: Ids, host: Host, h: u32)
    requires MapsOk(i) && CreatesOk(i, host) && HostOk(i, host)
    requires h in i.hostToGuest && h !in i.hostInterfaces && i.hostToGuest[h] in i.interfaces
             && i.interfaces[i.hostToGuest[h]] == TextInputV3
    ensures CreatesOk(i.Record(h, HostTextInputV1), host)
  {
  }

  lemma RecordKeepsHost(i: Ids, host: Host, h: u32)
    requires MapsOk(i) && CreatesOk(i, host) && HostOk(i, host)
    requires h in i.hostToGuest && h !in i.hostInterfaces && i.hostToGuest[h] in i.interfaces
             && i.interfaces[i.hostToGuest[h]] == TextInputV3
    ensures HostOk(i.Record(h, HostTextInputV1), host)
  {
  }

  lemma RecordKeepsDying(i: Ids, host: Host, h: u32)
    requires Good(i, host)
    requires h in i.hostToGuest && h !in i.hostInterfaces && i.hostToGuest[h] in i.interfaces
             && i.interfaces[i.hostToGuest[h]] == TextInputV3
    ensures DiesOk(i.Record(h, HostTextInputV1), host)
  {
  }

  lemma RecordKeepsGood(i: Ids, host: Host, h: u32)
    requires Good(i, host)
    requires h in i.hostToGuest && h !in i.hostInterfaces && i.hostToGuest[h] in i.interfaces
             && i.interfaces[i.hostToGuest[h]] == TextInputV3
    ensures Good(i.Record(h, HostTextInputV1), host)
  {
    RecordKeepsMaps(i, h);
    RecordKeepsRecords(i, h);
    RecordKeepsCreates(i, host, h);
    RecordKeepsHost(i, host, h);
    RecordKeepsDying(i, host, h);
  }

  lemma ExposeKeepsMaps(i: Ids, host: Host, p: u32, g: u32, h: u32)
    requires MapsOk(i) && NamesOk(i)
    requires !i.Known(g) && i.Available(h) && GUEST_SERVER_ID_START <= g && h !in host.owned && p in i.creates
    ensures MapsOk(i.Expose(p, g, h)) && NamesOk(i.Expose(p, g, h))
  {
  }

  lemma ExposeKeepsRecords(i: Ids, host: Host, p: u32, g: u32, h: u32)
    requires MapsOk(i) && RecordsOk(i)
    requires !i.Known(g) && i.Available(h) && GUEST_SERVER_ID_START <= g && h !in host.owned && p in i.creates
    ensures RecordsOk(i.Expose(p, g, h))
  {
  }

  lemma ExposeKeepsCreates(i: Ids, host: Host, p: u32, g: u32, h: u32)
    requires MapsOk(i) && CreatesOk(i, host)
    requires !i.Known(g) && i.Available(h) && GUEST_SERVER_ID_START <= g && h !in host.owned && p in i.creates
    ensures CreatesOk(i.Expose(p, g, h), host.Answers(p).Serves(h))
  {
  }

  lemma ExposeKeepsHeld(i: Ids, host: Host, p: u32, g: u32, h: u32)
    requires MapsOk(i) && HostOk(i, host) && CreatesOk(i, host)
    requires !i.Known(g) && i.Available(h) && GUEST_SERVER_ID_START <= g && h !in host.owned && p in i.creates
    ensures HoldsOk(i.Expose(p, g, h), host.Answers(p).Serves(h))
  {
  }

  lemma ExposeKeepsServed(i: Ids, host: Host, p: u32, g: u32, h: u32)
    requires MapsOk(i) && HostOk(i, host) && CreatesOk(i, host)
    requires !i.Known(g) && i.Available(h) && GUEST_SERVER_ID_START <= g && h !in host.owned && p in i.creates
    ensures ServesOk(i.Expose(p, g, h), host.Answers(p).Serves(h))
  {
  }

  lemma ExposeKeepsDying(i: Ids, host: Host, p: u32, g: u32, h: u32)
    requires Good(i, host)
    requires !i.Known(g) && i.Available(h) && GUEST_SERVER_ID_START <= g && h !in host.owned && p in i.creates
    ensures DiesOk(i.Expose(p, g, h), host.Answers(p).Serves(h))
  {
  }

  lemma ExposeKeepsGood(i: Ids, host: Host, p: u32, g: u32, h: u32)
    requires Good(i, host)
    requires !i.Known(g) && i.Available(h) && GUEST_SERVER_ID_START <= g && h !in host.owned && p in i.creates
    ensures Good(i.Expose(p, g, h), host.Answers(p).Serves(h))
  {
    ExposeKeepsMaps(i, host, p, g, h);
    ExposeKeepsRecords(i, host, p, g, h);
    ExposeKeepsCreates(i, host, p, g, h);
    ExposeKeepsHeld(i, host, p, g, h);
    ExposeKeepsServed(i, host, p, g, h);
    ExposeKeepsDying(i, host, p, g, h);
  }

  lemma ImportKeepsMaps(i: Ids, h: u32)
    requires MapsOk(i) && NamesOk(i) && RecordsOk(i)
    requires h in i.hostToGuest && i.hostToGuest[h] in i.interfaces
             && i.interfaces[i.hostToGuest[h]] == WlBuffer
    ensures MapsOk(i.Import(h)) && NamesOk(i.Import(h))
  {
  }

  lemma ImportKeepsRecords(i: Ids, h: u32)
    requires MapsOk(i) && NamesOk(i) && RecordsOk(i)
    requires h in i.hostToGuest && i.hostToGuest[h] in i.interfaces
             && i.interfaces[i.hostToGuest[h]] == WlBuffer
    ensures RecordsOk(i.Import(h))
  {
  }

  lemma ImportKeepsCreates(i: Ids, host: Host, h: u32)
    requires CreatesOk(i, host) && HostOk(i, host)
    ensures CreatesOk(i.Import(h), host)
  {
  }

  lemma ImportKeepsHost(i: Ids, host: Host, h: u32)
    requires CreatesOk(i, host) && HostOk(i, host)
    ensures HostOk(i.Import(h), host)
  {
  }

  lemma ImportKeepsDying(i: Ids, host: Host, h: u32)
    requires Good(i, host)
    requires h in i.hostToGuest && i.hostToGuest[h] in i.interfaces
             && i.interfaces[i.hostToGuest[h]] == WlBuffer
    ensures DiesOk(i.Import(h), host)
  {
  }

  lemma ImportKeepsGood(i: Ids, host: Host, h: u32)
    requires Good(i, host)
    requires h in i.hostToGuest && i.hostToGuest[h] in i.interfaces
             && i.interfaces[i.hostToGuest[h]] == WlBuffer
    ensures Good(i.Import(h), host)
  {
    ImportKeepsMaps(i, h);
    ImportKeepsRecords(i, h);
    ImportKeepsCreates(i, host, h);
    ImportKeepsHost(i, host, h);
    ImportKeepsDying(i, host, h);
  }

  lemma BindKeepsMaps(i: Ids, h: u32, t: Interface)
    requires MapsOk(i) && NamesOk(i)
    requires i.Available(h) && t != LinuxBufferParams
    ensures MapsOk(i.Bind(h, t)) && NamesOk(i.Bind(h, t))
  {
  }

  lemma AvailableIsNoOrphan(i: Ids, host: Host, h: u32)
    requires CreatesOk(i, host) && i.Available(h)
    ensures h !in i.orphans
  {
  }

  lemma BindKeepsRecords(i: Ids, host: Host, h: u32, t: Interface)
    requires MapsOk(i) && RecordsOk(i) && CreatesOk(i, host)
    requires i.Available(h) && t != LinuxBufferParams
    ensures RecordsOk(i.Bind(h, t))
  {
    hide CreatesOk;
    AvailableIsNoOrphan(i, host, h);
  }

  lemma BindKeepsCreates(i: Ids, host: Host, h: u32, t: Interface)
    requires MapsOk(i) && CreatesOk(i, host) && HostOk(i, host)
    requires i.Available(h) && t != LinuxBufferParams
    ensures CreatesOk(i.Bind(h, t), host.Learns(h))
  {
  }

  lemma BindKeepsHost(i: Ids, host: Host, h: u32, t: Interface)
    requires MapsOk(i) && CreatesOk(i, host) && HostOk(i, host)
    requires i.Available(h) && t != LinuxBufferParams
    ensures HostOk(i.Bind(h, t), host.Learns(h))
  {
  }

  lemma BindKeepsDying(i: Ids, host: Host, h: u32, t: Interface)
    requires Good(i, host)
    requires i.Available(h) && t != LinuxBufferParams
    ensures DiesOk(i.Bind(h, t), host.Learns(h))
  {
  }

  lemma BindKeepsGood(i: Ids, host: Host, h: u32, t: Interface)
    requires Good(i, host)
    requires i.Available(h) && t != LinuxBufferParams
    ensures Good(i.Bind(h, t), host.Learns(h))
  {
    BindKeepsMaps(i, h, t);
    BindKeepsRecords(i, host, h, t);
    BindKeepsCreates(i, host, h, t);
    BindKeepsHost(i, host, h, t);
    BindKeepsDying(i, host, h, t);
  }

  lemma FadeKeepsMaps(i: Ids, h: u32)
    requires MapsOk(i) && RecordsOk(i) && NamesOk(i)
    requires h in i.hostOnly || h in i.barriers
    ensures MapsOk(i.Fade(h)) && NamesOk(i.Fade(h))
  {
  }

  lemma FadeKeepsRecords(i: Ids, h: u32)
    requires MapsOk(i) && RecordsOk(i) && NamesOk(i)
    requires h in i.hostOnly || h in i.barriers
    ensures RecordsOk(i.Fade(h))
  {
  }

  lemma FadeKeepsCreates(i: Ids, host: Host, h: u32)
    requires MapsOk(i) && CreatesOk(i, host) && RecordsOk(i) && HostOk(i, host)
    requires h in i.hostOnly || h in i.barriers
    ensures CreatesOk(i.Fade(h), host.Loses(h))
  {
  }

  lemma FadeKeepsHost(i: Ids, host: Host, h: u32)
    requires MapsOk(i) && CreatesOk(i, host) && RecordsOk(i) && HostOk(i, host)
    requires h in i.hostOnly || h in i.barriers
    ensures HostOk(i.Fade(h), host.Loses(h))
  {
  }

  lemma FadeKeepsDying(i: Ids, host: Host, h: u32)
    requires Good(i, host)
    requires h in i.hostOnly || h in i.barriers
    ensures DiesOk(i.Fade(h), host.Loses(h))
  {
  }

  lemma FadeKeepsGood(i: Ids, host: Host, h: u32)
    requires Good(i, host)
    requires h in i.hostOnly || h in i.barriers
    ensures Good(i.Fade(h), host.Loses(h))
  {
    FadeKeepsMaps(i, h);
    FadeKeepsRecords(i, h);
    FadeKeepsCreates(i, host, h);
    FadeKeepsHost(i, host, h);
    FadeKeepsDying(i, host, h);
  }

  lemma RetireKeepsMaps(i: Ids, host: Host, h: u32)
    requires MapsOk(i) && RecordsOk(i) && NamesOk(i)
    requires h in i.hostOnly && h !in host.dying
    ensures MapsOk(i.Retire(h)) && NamesOk(i.Retire(h))
  {
  }

  lemma RetireKeepsRecords(i: Ids, host: Host, h: u32)
    requires MapsOk(i) && RecordsOk(i) && NamesOk(i)
    requires h in i.hostOnly && h !in host.dying
    ensures RecordsOk(i.Retire(h))
  {
  }

  lemma RetireKeepsCreates(i: Ids, host: Host, h: u32)
    requires MapsOk(i) && CreatesOk(i, host) && RecordsOk(i) && HostOk(i, host)
    requires h in i.hostOnly && h !in host.dying
    ensures CreatesOk(i.Retire(h), host)
  {
  }

  lemma RetireKeepsHost(i: Ids, host: Host, h: u32)
    requires MapsOk(i) && CreatesOk(i, host) && RecordsOk(i) && HostOk(i, host)
    requires h in i.hostOnly && h !in host.dying
    ensures HostOk(i.Retire(h), host)
  {
  }

  lemma RetireKeepsDying(i: Ids, host: Host, h: u32)
    requires Good(i, host)
    requires h in i.hostOnly && h !in host.dying
    ensures DiesOk(i.Retire(h), host)
  {
  }

  lemma RetireKeepsGood(i: Ids, host: Host, h: u32)
    requires Good(i, host)
    requires h in i.hostOnly && h !in host.dying
    ensures Good(i.Retire(h), host)
  {
    RetireKeepsMaps(i, host, h);
    RetireKeepsRecords(i, host, h);
    RetireKeepsCreates(i, host, h);
    RetireKeepsHost(i, host, h);
    RetireKeepsDying(i, host, h);
  }

  lemma DoomKeepsMaps(i: Ids, g: u32)
    requires MapsOk(i) && NamesOk(i) && RecordsOk(i)
    requires g in i.guestToHost && g != 1 && g < GUEST_SERVER_ID_START && i.guestToHost[g] !in i.creates
    ensures MapsOk(i.Doom(g)) && NamesOk(i.Doom(g))
  {
  }

  lemma DoomKeepsRecords(i: Ids, g: u32)
    requires MapsOk(i) && NamesOk(i) && RecordsOk(i)
    requires g in i.guestToHost && g != 1 && g < GUEST_SERVER_ID_START && i.guestToHost[g] !in i.creates
    ensures RecordsOk(i.Doom(g))
  {
  }

  lemma DoomKeepsCreates(i: Ids, host: Host, g: u32)
    requires MapsOk(i) && CreatesOk(i, host) && HostOk(i, host)
    requires g in i.guestToHost && g != 1 && g < GUEST_SERVER_ID_START && i.guestToHost[g] !in i.creates
    ensures CreatesOk(i.Doom(g), host.Loses(i.guestToHost[g]))
  {
  }

  lemma DoomKeepsHost(i: Ids, host: Host, g: u32)
    requires MapsOk(i) && CreatesOk(i, host) && HostOk(i, host)
    requires g in i.guestToHost && g != 1 && g < GUEST_SERVER_ID_START && i.guestToHost[g] !in i.creates
    ensures HostOk(i.Doom(g), host.Loses(i.guestToHost[g]))
  {
  }

  lemma DoomKeepsDying(i: Ids, host: Host, g: u32)
    requires Good(i, host)
    requires g in i.guestToHost && g != 1 && g < GUEST_SERVER_ID_START && i.guestToHost[g] !in i.creates
    ensures DiesOk(i.Doom(g), host.Loses(i.guestToHost[g]))
  {
  }

  lemma DoomKeepsGood(i: Ids, host: Host, g: u32)
    requires Good(i, host)
    requires g in i.guestToHost && g != 1 && g < GUEST_SERVER_ID_START && i.guestToHost[g] !in i.creates
    ensures Good(i.Doom(g), host.Loses(i.guestToHost[g]))
  {
    DoomKeepsMaps(i, g);
    DoomKeepsRecords(i, g);
    DoomKeepsCreates(i, host, g);
    DoomKeepsHost(i, host, g);
    DoomKeepsDying(i, host, g);
  }

  lemma OrphanKeepsMaps(i: Ids, g: u32)
    requires MapsOk(i) && NamesOk(i) && RecordsOk(i)
    requires g in i.guestToHost && g != 1 && g < GUEST_SERVER_ID_START && i.guestToHost[g] in i.creates
    ensures MapsOk(i.Orphan(g)) && NamesOk(i.Orphan(g))
  {
  }

  lemma OrphanKeepsRecords(i: Ids, g: u32)
    requires MapsOk(i) && NamesOk(i) && RecordsOk(i)
    requires g in i.guestToHost && g != 1 && g < GUEST_SERVER_ID_START && i.guestToHost[g] in i.creates
    ensures RecordsOk(i.Orphan(g))
  {
  }

  lemma OrphanKeepsCreates(i: Ids, host: Host, g: u32)
    requires MapsOk(i) && CreatesOk(i, host)
    requires g in i.guestToHost && g != 1 && g < GUEST_SERVER_ID_START && i.guestToHost[g] in i.creates
    ensures CreatesOk(i.Orphan(g), host.Loses(i.guestToHost[g]))
  {
  }

  lemma OrphanKeepsHost(i: Ids, host: Host, g: u32)
    requires MapsOk(i) && CreatesOk(i, host) && HostOk(i, host)
    requires g in i.guestToHost && g != 1 && g < GUEST_SERVER_ID_START && i.guestToHost[g] in i.creates
    ensures HostOk(i.Orphan(g), host.Loses(i.guestToHost[g]))
  {
  }

  lemma OrphanKeepsDying(i: Ids, host: Host, g: u32)
    requires Good(i, host)
    requires g in i.guestToHost && g != 1 && g < GUEST_SERVER_ID_START && i.guestToHost[g] in i.creates
    ensures DiesOk(i.Orphan(g), host.Loses(i.guestToHost[g]))
  {
  }

  lemma OrphanKeepsGood(i: Ids, host: Host, g: u32)
    requires Good(i, host)
    requires g in i.guestToHost && g != 1 && g < GUEST_SERVER_ID_START && i.guestToHost[g] in i.creates
    ensures Good(i.Orphan(g), host.Loses(i.guestToHost[g]))
  {
    OrphanKeepsMaps(i, g);
    OrphanKeepsRecords(i, g);
    OrphanKeepsCreates(i, host, g);
    OrphanKeepsHost(i, host, g);
    OrphanKeepsDying(i, host, g);
  }

  lemma DeferKeepsMaps(i: Ids, g: u32)
    requires MapsOk(i) && NamesOk(i) && RecordsOk(i)
    requires g in i.guestToHost && g !in i.pendingGuest && g in i.interfaces && i.interfaces[g] == WlBuffer
    ensures MapsOk(i.Defer(g, WlBuffer)) && NamesOk(i.Defer(g, WlBuffer))
  {
  }

  lemma DeferKeepsRecords(i: Ids, g: u32)
    requires MapsOk(i) && NamesOk(i) && RecordsOk(i)
    requires g in i.guestToHost && g !in i.pendingGuest && g in i.interfaces && i.interfaces[g] == WlBuffer
    ensures RecordsOk(i.Defer(g, WlBuffer))
  {
  }

  lemma DeferKeepsCreates(i: Ids, host: Host, g: u32)
    requires MapsOk(i) && CreatesOk(i, host)
    requires g in i.guestToHost && g !in i.pendingGuest && g in i.interfaces && i.interfaces[g] == WlBuffer
    ensures CreatesOk(i.Defer(g, WlBuffer), host)
  {
  }

  lemma DeferKeepsHost(i: Ids, host: Host, g: u32)
    requires MapsOk(i) && HostOk(i, host)
    requires g in i.guestToHost && g !in i.pendingGuest && g in i.interfaces && i.interfaces[g] == WlBuffer
    ensures HostOk(i.Defer(g, WlBuffer), host)
  {
  }

  lemma DeferKeepsDying(i: Ids, host: Host, g: u32)
    requires Good(i, host)
    requires g in i.guestToHost && g !in i.pendingGuest && g in i.interfaces && i.interfaces[g] == WlBuffer
    ensures DiesOk(i.Defer(g, WlBuffer), host)
  {
  }

  lemma DeferKeepsGood(i: Ids, host: Host, g: u32)
    requires Good(i, host)
    requires g in i.guestToHost && g !in i.pendingGuest && g in i.interfaces && i.interfaces[g] == WlBuffer
    ensures Good(i.Defer(g, WlBuffer), host)
  {
    DeferKeepsMaps(i, g);
    DeferKeepsRecords(i, g);
    DeferKeepsCreates(i, host, g);
    DeferKeepsHost(i, host, g);
    DeferKeepsDying(i, host, g);
  }

  lemma ForgetServedKeepsMaps(i: Ids, g: u32)
    requires MapsOk(i) && NamesOk(i) && RecordsOk(i)
    requires g in i.guestToHost && GUEST_SERVER_ID_START <= g && i.guestToHost[g] !in i.creates
             && i.guestToHost[g] !in i.orphans
    ensures MapsOk(i.Forget(g)) && NamesOk(i.Forget(g))
  {
  }

  lemma ForgetServedKeepsRecords(i: Ids, g: u32)
    requires MapsOk(i) && NamesOk(i) && RecordsOk(i)
    requires g in i.guestToHost && GUEST_SERVER_ID_START <= g && i.guestToHost[g] !in i.creates
             && i.guestToHost[g] !in i.orphans
    ensures RecordsOk(i.Forget(g))
  {
  }

  lemma ForgetServedKeepsCreates(i: Ids, host: Host, g: u32)
    requires MapsOk(i) && CreatesOk(i, host)
    requires g in i.guestToHost && GUEST_SERVER_ID_START <= g && i.guestToHost[g] !in i.creates
             && i.guestToHost[g] !in i.orphans
    ensures CreatesOk(i.Forget(g), host.Frees(i.guestToHost[g]))
  {
  }

  lemma ForgetServedKeepsHost(i: Ids, host: Host, g: u32)
    requires MapsOk(i) && HostOk(i, host)
    requires g in i.guestToHost && GUEST_SERVER_ID_START <= g && i.guestToHost[g] !in i.creates
             && i.guestToHost[g] !in i.orphans
    ensures HostOk(i.Forget(g), host.Frees(i.guestToHost[g]))
  {
  }

  lemma ForgetServedKeepsDying(i: Ids, host: Host, g: u32)
    requires Good(i, host)
    requires g in i.guestToHost && GUEST_SERVER_ID_START <= g && i.guestToHost[g] !in i.creates
             && i.guestToHost[g] !in i.orphans
    ensures DiesOk(i.Forget(g), host.Frees(i.guestToHost[g]))
  {
  }

  lemma ForgetServedKeepsGood(i: Ids, host: Host, g: u32)
    requires Good(i, host)
    requires g in i.guestToHost && GUEST_SERVER_ID_START <= g && i.guestToHost[g] !in i.creates
             && i.guestToHost[g] !in i.orphans
    ensures Good(i.Forget(g), host.Frees(i.guestToHost[g]))
  {
    ForgetServedKeepsMaps(i, g);
    ForgetServedKeepsRecords(i, g);
    ForgetServedKeepsCreates(i, host, g);
    ForgetServedKeepsHost(i, host, g);
    ForgetServedKeepsDying(i, host, g);
  }

  lemma ForgetDeletedKeepsMaps(i: Ids, g: u32)
    requires MapsOk(i) && NamesOk(i) && RecordsOk(i)
    requires g in i.guestToHost && g in i.pendingGuest && g < GUEST_SERVER_ID_START
             && i.guestToHost[g] !in i.orphans
    ensures MapsOk(i.Forget(g)) && NamesOk(i.Forget(g))
  {
  }

  lemma ForgetDeletedKeepsRecords(i: Ids, g: u32)
    requires MapsOk(i) && NamesOk(i) && RecordsOk(i)
    requires g in i.guestToHost && g in i.pendingGuest && g < GUEST_SERVER_ID_START
             && i.guestToHost[g] !in i.orphans
    ensures RecordsOk(i.Forget(g))
  {
  }

  lemma ForgetDeletedKeepsCreates(i: Ids, host: Host, g: u32)
    requires MapsOk(i) && CreatesOk(i, host)
    requires g in i.guestToHost && g in i.pendingGuest && g < GUEST_SERVER_ID_START
             && i.guestToHost[g] !in i.orphans
    ensures CreatesOk(i.Forget(g), host.Deletes(i.guestToHost[g]))
  {
  }

  lemma ForgetDeletedKeepsHost(i: Ids, host: Host, g: u32)
    requires MapsOk(i) && HostOk(i, host) && RecordsOk(i)
    requires g in i.guestToHost && g in i.pendingGuest && g < GUEST_SERVER_ID_START
             && i.guestToHost[g] !in i.orphans
    ensures HostOk(i.Forget(g), host.Deletes(i.guestToHost[g]))
  {
  }

  lemma ForgetDeletedKeepsDying(i: Ids, host: Host, g: u32)
    requires Good(i, host)
    requires g in i.guestToHost && g in i.pendingGuest && g < GUEST_SERVER_ID_START
             && i.guestToHost[g] !in i.orphans
    ensures DiesOk(i.Forget(g), host.Deletes(i.guestToHost[g]))
  {
  }

  lemma ForgetDeletedKeepsGood(i: Ids, host: Host, g: u32)
    requires Good(i, host)
    requires g in i.guestToHost && g in i.pendingGuest && g < GUEST_SERVER_ID_START
             && i.guestToHost[g] !in i.orphans
    ensures Good(i.Forget(g), host.Deletes(i.guestToHost[g]))
  {
    ForgetDeletedKeepsMaps(i, g);
    ForgetDeletedKeepsRecords(i, g);
    ForgetDeletedKeepsCreates(i, host, g);
    ForgetDeletedKeepsHost(i, host, g);
    ForgetDeletedKeepsDying(i, host, g);
  }

  lemma UnpairOrphanKeepsMaps(i: Ids, host: Host, g: u32)
    requires MapsOk(i) && NamesOk(i) && CreatesOk(i, host)
    requires g in i.guestToHost && i.guestToHost[g] in i.orphans && g in i.pendingGuest
    ensures MapsOk(i.Unpair(g, LinuxBufferParams))
  {
  }

  lemma UnpairOrphanKeepsNames(i: Ids, host: Host, g: u32)
    requires MapsOk(i) && NamesOk(i) && CreatesOk(i, host)
    requires g in i.guestToHost && i.guestToHost[g] in i.orphans && g in i.pendingGuest
    ensures NamesOk(i.Unpair(g, LinuxBufferParams))
  {
  }

  lemma UnpairOrphanKeepsRecords(i: Ids, host: Host, g: u32)
    requires MapsOk(i) && RecordsOk(i) && CreatesOk(i, host)
    requires g in i.guestToHost && i.guestToHost[g] in i.orphans && g in i.pendingGuest
    ensures RecordsOk(i.Unpair(g, LinuxBufferParams))
  {
    hide CreatesOk;
    OrphanHasNoRecord(i, host, i.guestToHost[g]);
  }

  lemma OrphanHasNoRecord(i: Ids, host: Host, p: u32)
    requires RecordsOk(i) && CreatesOk(i, host) && p in i.orphans && p in i.hostToGuest
    ensures p !in i.hostInterfaces
  {
  }

  lemma UnpairOrphanKeepsCreates(i: Ids, host: Host, g: u32)
    requires MapsOk(i) && CreatesOk(i, host) && RecordsOk(i)
    requires g in i.guestToHost && i.guestToHost[g] in i.orphans && g in i.pendingGuest
    ensures CreatesOk(i.Unpair(g, LinuxBufferParams), host.Deletes(i.guestToHost[g]))
  {
  }

  lemma UnpairOrphanKeepsHeld(i: Ids, host: Host, g: u32)
    requires MapsOk(i) && HostOk(i, host) && RecordsOk(i) && CreatesOk(i, host)
    requires g in i.guestToHost && i.guestToHost[g] in i.orphans && g in i.pendingGuest
    ensures HoldsOk(i.Unpair(g, LinuxBufferParams), host.Deletes(i.guestToHost[g]))
  {
  }

  lemma UnpairOrphanKeepsServed(i: Ids, host: Host, g: u32)
    requires MapsOk(i) && HostOk(i, host) && RecordsOk(i) && CreatesOk(i, host)
    requires g in i.guestToHost && i.guestToHost[g] in i.orphans && g in i.pendingGuest
    ensures ServesOk(i.Unpair(g, LinuxBufferParams), host.Deletes(i.guestToHost[g]))
  {
  }

  lemma UnpairOrphanKeepsDying(i: Ids, host: Host, g: u32)
    requires Good(i, host)
    requires g in i.guestToHost && i.guestToHost[g] in i.orphans && g in i.pendingGuest
    ensures DiesOk(i.Unpair(g, LinuxBufferParams), host.Deletes(i.guestToHost[g]))
  {
  }

  lemma UnpairOrphanKeepsGood(i: Ids, host: Host, g: u32)
    requires Good(i, host)
    requires g in i.guestToHost && i.guestToHost[g] in i.orphans && g in i.pendingGuest
    ensures Good(i.Unpair(g, LinuxBufferParams), host.Deletes(i.guestToHost[g]))
  {
    UnpairOrphanKeepsMaps(i, host, g);
    UnpairOrphanKeepsNames(i, host, g);
    UnpairOrphanKeepsRecords(i, host, g);
    UnpairOrphanKeepsCreates(i, host, g);
    UnpairOrphanKeepsHeld(i, host, g);
    UnpairOrphanKeepsServed(i, host, g);
    UnpairOrphanKeepsDying(i, host, g);
  }

  lemma UnpairTextInputKeepsMaps(i: Ids, g: u32)
    requires MapsOk(i) && NamesOk(i)
    requires g in i.guestToHost && g !in i.pendingGuest && g in i.interfaces && i.interfaces[g] == TextInputV3
    ensures MapsOk(i.Unpair(g, TextInputV3)) && NamesOk(i.Unpair(g, TextInputV3))
  {
  }

  lemma UnpairTextInputKeepsRecords(i: Ids, g: u32)
    requires MapsOk(i) && RecordsOk(i)
    requires g in i.guestToHost && g !in i.pendingGuest && g in i.interfaces && i.interfaces[g] == TextInputV3
    ensures RecordsOk(i.Unpair(g, TextInputV3))
  {
  }

  lemma UnpairTextInputKeepsCreates(i: Ids, host: Host, g: u32)
    requires MapsOk(i) && CreatesOk(i, host)
    requires g in i.guestToHost && g !in i.pendingGuest && g in i.interfaces && i.interfaces[g] == TextInputV3
    ensures CreatesOk(i.Unpair(g, TextInputV3), host)
  {
  }

  lemma UnpairTextInputKeepsHeld(i: Ids, host: Host, g: u32)
    requires MapsOk(i) && HostOk(i, host) && NamesOk(i) && CreatesOk(i, host)
    requires g in i.guestToHost && g !in i.pendingGuest && g in i.interfaces && i.interfaces[g] == TextInputV3
    ensures HoldsOk(i.Unpair(g, TextInputV3), host)
  {
  }

  lemma UnpairTextInputKeepsServed(i: Ids, host: Host, g: u32)
    requires MapsOk(i) && HostOk(i, host) && NamesOk(i) && CreatesOk(i, host)
    requires g in i.guestToHost && g !in i.pendingGuest && g in i.interfaces && i.interfaces[g] == TextInputV3
    ensures ServesOk(i.Unpair(g, TextInputV3), host)
  {
  }

  lemma UnpairTextInputKeepsDying(i: Ids, host: Host, g: u32)
    requires Good(i, host)
    requires g in i.guestToHost && g !in i.pendingGuest && g in i.interfaces && i.interfaces[g] == TextInputV3
    ensures DiesOk(i.Unpair(g, TextInputV3), host)
  {
  }

  lemma UnpairTextInputKeepsGood(i: Ids, host: Host, g: u32)
    requires Good(i, host)
    requires g in i.guestToHost && g !in i.pendingGuest && g in i.interfaces && i.interfaces[g] == TextInputV3
    ensures Good(i.Unpair(g, TextInputV3), host)
  {
    UnpairTextInputKeepsMaps(i, g);
    UnpairTextInputKeepsRecords(i, g);
    UnpairTextInputKeepsCreates(i, host, g);
    UnpairTextInputKeepsHeld(i, host, g);
    UnpairTextInputKeepsServed(i, host, g);
    UnpairTextInputKeepsDying(i, host, g);
  }

  lemma EndKeepsMaps(i: Ids, g: u32)
    requires MapsOk(i) && NamesOk(i)
    requires g in i.guestToHost && g != 1 && g < GUEST_SERVER_ID_START && g in i.interfaces
             && i.interfaces[g] == WlCallback && i.guestToHost[g] !in i.hostInterfaces
             && g !in i.pendingGuest
    ensures MapsOk(i.End(g)) && NamesOk(i.End(g))
  {
  }

  lemma EndKeepsRecords(i: Ids, g: u32)
    requires MapsOk(i) && RecordsOk(i)
    requires g in i.guestToHost && g != 1 && g < GUEST_SERVER_ID_START && g in i.interfaces
             && i.interfaces[g] == WlCallback && i.guestToHost[g] !in i.hostInterfaces
             && g !in i.pendingGuest
    ensures RecordsOk(i.End(g))
  {
  }

  lemma EndKeepsCreates(i: Ids, host: Host, g: u32)
    requires MapsOk(i) && CreatesOk(i, host)
    requires g in i.guestToHost && g != 1 && g < GUEST_SERVER_ID_START && g in i.interfaces
             && i.interfaces[g] == WlCallback && i.guestToHost[g] !in i.hostInterfaces
             && g !in i.pendingGuest
    ensures CreatesOk(i.End(g), host.Loses(i.guestToHost[g]))
  {
  }

  lemma EndKeepsHost(i: Ids, host: Host, g: u32)
    requires MapsOk(i) && HostOk(i, host) && CreatesOk(i, host) && RecordsOk(i)
    requires g in i.guestToHost && g != 1 && g < GUEST_SERVER_ID_START && g in i.interfaces
             && i.interfaces[g] == WlCallback && i.guestToHost[g] !in i.hostInterfaces
             && g !in i.pendingGuest
    ensures HostOk(i.End(g), host.Loses(i.guestToHost[g]))
  {
  }

  lemma EndKeepsDying(i: Ids, host: Host, g: u32)
    requires Good(i, host)
    requires g in i.guestToHost && g != 1 && g < GUEST_SERVER_ID_START && g in i.interfaces
             && i.interfaces[g] == WlCallback && i.guestToHost[g] !in i.hostInterfaces
             && g !in i.pendingGuest
    ensures DiesOk(i.End(g), host.Loses(i.guestToHost[g]))
  {
  }

  lemma EndKeepsGood(i: Ids, host: Host, g: u32)
    requires Good(i, host)
    requires g in i.guestToHost && g != 1 && g < GUEST_SERVER_ID_START && g in i.interfaces
             && i.interfaces[g] == WlCallback && i.guestToHost[g] !in i.hostInterfaces
             && g !in i.pendingGuest
    ensures Good(i.End(g), host.Loses(i.guestToHost[g]))
  {
    EndKeepsMaps(i, g);
    EndKeepsRecords(i, g);
    EndKeepsCreates(i, host, g);
    EndKeepsHost(i, host, g);
    EndKeepsDying(i, host, g);
  }

  lemma AcknowledgeKeepsMaps(i: Ids, h: u32)
    requires MapsOk(i) && NamesOk(i) && RecordsOk(i)
    requires h in i.pendingHost
    ensures MapsOk(i.Acknowledge(h)) && NamesOk(i.Acknowledge(h))
  {
  }

  lemma AcknowledgeKeepsRecords(i: Ids, h: u32)
    requires MapsOk(i) && NamesOk(i) && RecordsOk(i)
    requires h in i.pendingHost
    ensures RecordsOk(i.Acknowledge(h))
  {
  }

  lemma AcknowledgeKeepsCreates(i: Ids, host: Host, h: u32)
    requires MapsOk(i) && CreatesOk(i, host) && HostOk(i, host) && RecordsOk(i)
    requires h in i.pendingHost
    ensures CreatesOk(i.Acknowledge(h), host.Deletes(h))
  {
  }

  lemma AcknowledgeKeepsHost(i: Ids, host: Host, h: u32)
    requires MapsOk(i) && CreatesOk(i, host) && HostOk(i, host) && RecordsOk(i)
    requires h in i.pendingHost
    ensures HostOk(i.Acknowledge(h), host.Deletes(h))
  {
  }

  lemma AcknowledgeKeepsDying(i: Ids, host: Host, h: u32)
    requires Good(i, host)
    requires h in i.pendingHost
    ensures DiesOk(i.Acknowledge(h), host.Deletes(h))
  {
  }

  lemma AcknowledgeKeepsGood(i: Ids, host: Host, h: u32)
    requires Good(i, host)
    requires h in i.pendingHost
    ensures Good(i.Acknowledge(h), host.Deletes(h))
  {
    AcknowledgeKeepsMaps(i, h);
    AcknowledgeKeepsRecords(i, h);
    AcknowledgeKeepsCreates(i, host, h);
    AcknowledgeKeepsHost(i, host, h);
    AcknowledgeKeepsDying(i, host, h);
  }

  lemma BeginKeepsMaps(i: Ids, p: u32, c: PendingCreate)
    requires MapsOk(i) && NamesOk(i) && RecordsOk(i)
    requires p in i.hostToGuest && i.hostToGuest[p] == c.guestParams && c.guestParams !in i.pendingGuest
             && c.guestParams in i.interfaces && i.interfaces[c.guestParams] == LinuxBufferParams
             && p !in i.orphans
    ensures MapsOk(i.Begin(p, c)) && NamesOk(i.Begin(p, c))
  {
  }

  lemma BeginKeepsRecords(i: Ids, p: u32, c: PendingCreate)
    requires MapsOk(i) && NamesOk(i) && RecordsOk(i)
    requires p in i.hostToGuest && i.hostToGuest[p] == c.guestParams && c.guestParams !in i.pendingGuest
             && c.guestParams in i.interfaces && i.interfaces[c.guestParams] == LinuxBufferParams
             && p !in i.orphans
    ensures RecordsOk(i.Begin(p, c))
  {
  }

  lemma BeginKeepsCreates(i: Ids, host: Host, p: u32, c: PendingCreate)
    requires MapsOk(i) && CreatesOk(i, host) && HostOk(i, host)
    requires p in i.hostToGuest && i.hostToGuest[p] == c.guestParams && c.guestParams !in i.pendingGuest
             && c.guestParams in i.interfaces && i.interfaces[c.guestParams] == LinuxBufferParams
             && p !in i.orphans
    ensures CreatesOk(i.Begin(p, c), host.Asked(p))
  {
  }

  lemma BeginKeepsHost(i: Ids, host: Host, p: u32, c: PendingCreate)
    requires MapsOk(i) && CreatesOk(i, host) && HostOk(i, host)
    requires p in i.hostToGuest && i.hostToGuest[p] == c.guestParams && c.guestParams !in i.pendingGuest
             && c.guestParams in i.interfaces && i.interfaces[c.guestParams] == LinuxBufferParams
             && p !in i.orphans
    ensures HostOk(i.Begin(p, c), host.Asked(p))
  {
  }

  lemma BeginKeepsDying(i: Ids, host: Host, p: u32, c: PendingCreate)
    requires Good(i, host)
    requires p in i.hostToGuest && i.hostToGuest[p] == c.guestParams && c.guestParams !in i.pendingGuest
             && c.guestParams in i.interfaces && i.interfaces[c.guestParams] == LinuxBufferParams
             && p !in i.orphans
    ensures DiesOk(i.Begin(p, c), host.Asked(p))
  {
  }

  lemma BeginKeepsGood(i: Ids, host: Host, p: u32, c: PendingCreate)
    requires Good(i, host)
    requires p in i.hostToGuest && i.hostToGuest[p] == c.guestParams && c.guestParams !in i.pendingGuest
             && c.guestParams in i.interfaces && i.interfaces[c.guestParams] == LinuxBufferParams
             && p !in i.orphans
    ensures Good(i.Begin(p, c), host.Asked(p))
  {
    BeginKeepsMaps(i, p, c);
    BeginKeepsRecords(i, p, c);
    BeginKeepsCreates(i, host, p, c);
    BeginKeepsHost(i, host, p, c);
    BeginKeepsDying(i, host, p, c);
  }

  lemma AnswerKeepsMaps(i: Ids, p: u32)
    requires MapsOk(i) && NamesOk(i) && RecordsOk(i)
    ensures MapsOk(i.Answer(p)) && NamesOk(i.Answer(p))
  {
  }

  lemma AnswerKeepsRecords(i: Ids, p: u32)
    requires MapsOk(i) && NamesOk(i) && RecordsOk(i)
    ensures RecordsOk(i.Answer(p))
  {
  }

  lemma AnswerKeepsCreates(i: Ids, host: Host, p: u32)
    requires MapsOk(i) && CreatesOk(i, host) && HostOk(i, host)
    requires p in i.creates
    ensures CreatesOk(i.Answer(p), host.Answers(p))
  {
  }

  lemma AnswerKeepsHost(i: Ids, host: Host, p: u32)
    requires MapsOk(i) && CreatesOk(i, host) && HostOk(i, host)
    requires p in i.creates
    ensures HostOk(i.Answer(p), host.Answers(p))
  {
  }

  lemma AnswerKeepsDying(i: Ids, host: Host, p: u32)
    requires Good(i, host)
    requires p in i.creates
    ensures DiesOk(i.Answer(p), host.Answers(p))
  {
  }

  lemma AnswerKeepsGood(i: Ids, host: Host, p: u32)
    requires Good(i, host)
    requires p in i.creates
    ensures Good(i.Answer(p), host.Answers(p))
  {
    AnswerKeepsMaps(i, p);
    AnswerKeepsRecords(i, p);
    AnswerKeepsCreates(i, host, p);
    AnswerKeepsHost(i, host, p);
    AnswerKeepsDying(i, host, p);
  }

  lemma AnswerOrphanKeepsMaps(i: Ids, p: u32)
    requires MapsOk(i) && NamesOk(i)
    requires p in i.orphans
    ensures MapsOk(i.AnswerOrphan(p)) && NamesOk(i.AnswerOrphan(p))
  {
  }

  lemma AnswerOrphanKeepsRecords(i: Ids, p: u32)
    requires MapsOk(i) && RecordsOk(i)
    requires p in i.orphans
    ensures RecordsOk(i.AnswerOrphan(p))
  {
  }

  lemma AnswerOrphanKeepsCreates(i: Ids, host: Host, p: u32)
    requires MapsOk(i) && CreatesOk(i, host)
    requires p in i.orphans
    ensures CreatesOk(i.AnswerOrphan(p), host.Answers(p))
  {
  }

  lemma AnswerOrphanKeepsHost(i: Ids, host: Host, p: u32)
    requires MapsOk(i) && CreatesOk(i, host) && HostOk(i, host) && RecordsOk(i)
    requires p in i.orphans
    ensures HostOk(i.AnswerOrphan(p), host.Answers(p))
  {
  }

  lemma AnswerOrphanKeepsDying(i: Ids, host: Host, p: u32)
    requires Good(i, host)
    requires p in i.orphans
    ensures DiesOk(i.AnswerOrphan(p), host.Answers(p))
  {
  }

  lemma AnswerOrphanKeepsGood(i: Ids, host: Host, p: u32)
    requires Good(i, host)
    requires p in i.orphans
    ensures Good(i.AnswerOrphan(p), host.Answers(p))
  {
    AnswerOrphanKeepsMaps(i, p);
    AnswerOrphanKeepsRecords(i, p);
    AnswerOrphanKeepsCreates(i, host, p);
    AnswerOrphanKeepsHost(i, host, p);
    AnswerOrphanKeepsDying(i, host, p);
  }

  lemma ReserveKeepsMaps(i: Ids, h: u32)
    requires MapsOk(i) && NamesOk(i) && RecordsOk(i) && i.Available(h)
    ensures MapsOk(i.Reserve(h)) && NamesOk(i.Reserve(h))
  {
  }

  lemma ReserveKeepsRecords(i: Ids, h: u32)
    requires MapsOk(i) && NamesOk(i) && RecordsOk(i) && i.Available(h)
    ensures RecordsOk(i.Reserve(h))
  {
  }

  lemma ReserveKeepsCreates(i: Ids, host: Host, h: u32)
    requires CreatesOk(i, host) && HostOk(i, host)
    ensures CreatesOk(i.Reserve(h), host)
  {
  }

  lemma ReserveKeepsHost(i: Ids, host: Host, h: u32)
    requires CreatesOk(i, host) && HostOk(i, host)
    ensures HostOk(i.Reserve(h), host)
  {
  }

  lemma ReserveKeepsDying(i: Ids, host: Host, h: u32)
    requires Good(i, host)
    requires i.Available(h)
    ensures DiesOk(i.Reserve(h), host)
  {
  }

  lemma ReserveKeepsGood(i: Ids, host: Host, h: u32)
    requires Good(i, host)
    requires i.Available(h)
    ensures Good(i.Reserve(h), host)
  {
    ReserveKeepsMaps(i, h);
    ReserveKeepsRecords(i, h);
    ReserveKeepsCreates(i, host, h);
    ReserveKeepsHost(i, host, h);
    ReserveKeepsDying(i, host, h);
  }
}
