/**
 Synthetic linux-dmabuf feedback: the capability list as a format table plus
 tranches of 16-bit indices (sommelier/src/handler/linux_dmabuf.rs).
 */
module Feedback {
  import opened Prelude
  import opened DmabufParams
  import opened Wire

  const MAX_FEEDBACK_FORMATS: nat := 0x1_0000
  const MAX_TRANCHE_INDICES_PER_EVENT: nat := (65_532 - 8 - 4) / 2
  const MAX_MESSAGE: nat := 65_532

  datatype Pair = Pair(format: u32, modifier: u64)

  // ---- the pairs worth announcing ----

  /** Supported capabilities, each at its first occurrence. */
  function Distinct(capabilities: seq<Pair>): seq<Pair> {
    if capabilities == [] then []
    else
      var init, last := Distinct(capabilities[..|capabilities| - 1]), capabilities[|capabilities| - 1];
      if IsSupportedFormat(last.format) && last !in init then init + [last] else init
  }

  lemma {:induction false} DistinctIs(capabilities: seq<Pair>)
    ensures var d := Distinct(capabilities);
            && (forall p :: p in d <==> p in capabilities && IsSupportedFormat(p.format))
            && (forall i, j | 0 <= i < j < |d| :: d[i] != d[j])
  {
    if capabilities != [] {
      var init, last := capabilities[..|capabilities| - 1], capabilities[|capabilities| - 1];
      DistinctIs(init);
      assert forall p :: p in capabilities <==> p in init || p == last;
    }
  }

  function Limited(pairs: seq<Pair>): seq<Pair> {
    if |pairs| <= MAX_FEEDBACK_FORMATS then pairs else pairs[..MAX_FEEDBACK_FORMATS]
  }

  method FeedbackPairs(capabilities: seq<Pair>) returns (pairs: seq<Pair>)
    ensures pairs == Limited(Distinct(capabilities))
  {
    pairs := [];
    var seen: set<Pair> := {};
    var i := 0;
    while i < |capabilities|
      invariant 0 <= i <= |capabilities|
      invariant pairs == Limited(Distinct(capabilities[..i]))
      invariant forall p :: p in seen <==> p in Distinct(capabilities[..i])
    {
      var p := capabilities[i];
      assert capabilities[..i + 1][..i] == capabilities[..i];
      if IsSupportedFormat(p.format) && p !in seen {
        seen := seen + {p};
        if |pairs| < MAX_FEEDBACK_FORMATS {
          pairs := pairs + [p];
        }
      }
      i := i + 1;
    }
    assert capabilities[..|capabilities|] == capabilities;
  }

  // ---- the format table ----

  function EntryBytes(order: ByteOrder, p: Pair): (bytes: seq<byte>)
    ensures |bytes| == 16
  {
    U32Bytes(order, p.format) + [0, 0, 0, 0] + U64Bytes(order, p.modifier)
  }

  /** The pair a client finds at `index` of a mapped table. */
  function Entry(order: ByteOrder, table: seq<byte>, index: nat): Option<Pair> {
    if 16 * index + 16 > |table| then None
    else
      var entry := table[16 * index..16 * index + 16];
      Some(Pair(BytesU32(order, entry[..4]), BytesU64(order, entry[8..])))
  }

  lemma EntryReadsBack(order: ByteOrder, p: Pair)
    ensures BytesU32(order, EntryBytes(order, p)[..4]) == p.format
    ensures BytesU64(order, EntryBytes(order, p)[8..]) == p.modifier
  {
    var bytes := EntryBytes(order, p);
    U32RoundTrip(order, p.format);
    U64RoundTrip(order, p.modifier);
    assert bytes[..4] == U32Bytes(order, p.format);
    assert bytes[8..] == U64Bytes(order, p.modifier);
    hide U32Bytes, U64Bytes, BytesU32, BytesU64;
  }

  method CreateFormatTable(order: ByteOrder, pairs: seq<Pair>) returns (table: seq<byte>)
    ensures |table| == 16 * |pairs|
    ensures forall i | 0 <= i < |pairs| :: Entry(order, table, i) == Some(pairs[i])
  {
    table := [];
    var i := 0;
    while i < |pairs|
      invariant 0 <= i <= |pairs|
      invariant |table| == 16 * i
      invariant forall j | 0 <= j < i :: Entry(order, table, j) == Some(pairs[j])
    {
      table := ExtendTable(order, table, pairs, i);
      i := i + 1;
    }
  }

  lemma EarlierEntries(order: ByteOrder, table: seq<byte>, entry: seq<byte>, j: nat)
    requires 16 * j + 16 <= |table|
    ensures Entry(order, table + entry, j) == Entry(order, table, j)
  {
    hide BytesU32, BytesU64;
    assert (table + entry)[16 * j..16 * j + 16] == table[16 * j..16 * j + 16];
  }

  lemma LastEntry(order: ByteOrder, table: seq<byte>, pair: Pair, i: nat)
    requires |table| == 16 * i
    ensures Entry(order, table + EntryBytes(order, pair), i) == Some(pair)
    ensures |table + EntryBytes(order, pair)| == 16 * (i + 1)
  {
    EntryReadsBack(order, pair);
    assert (table + EntryBytes(order, pair))[16 * i..16 * i + 16] == EntryBytes(order, pair);
    hide BytesU32, BytesU64, EntryBytes;
  }

  method ExtendTable(order: ByteOrder, table: seq<byte>, pairs: seq<Pair>, i: nat) returns (r: seq<byte>)
    requires i < |pairs| && |table| == 16 * i
    requires forall j | 0 <= j < i :: Entry(order, table, j) == Some(pairs[j])
    ensures |r| == 16 * (i + 1)
    ensures forall j | 0 <= j <= i :: Entry(order, r, j) == Some(pairs[j])
  {
    r := table + EntryBytes(order, pairs[i]);
    LastEntry(order, table, pairs[i], i);
    hide Entry, EntryBytes;
    forall j | 0 <= j < i ensures Entry(order, r, j) == Entry(order, table, j) {
      EarlierEntries(order, table, EntryBytes(order, pairs[i]), j);
    }
  }

  // ---- the event sequence ----

  datatype Event =
    | FormatTable(table: seq<byte>, size: u32)
    | MainDevice(device: seq<byte>)
    | TrancheTargetDevice(device: seq<byte>)
    | TrancheFlags(flags: u32)
    | TrancheFormats(indices: seq<byte>)
    | TrancheDone
    | Done

  function Payload(order: ByteOrder, e: Event): seq<byte> {
    match e
    case FormatTable(_, size) => U32Bytes(order, size)
    case MainDevice(device) => Block(order, device)
    case TrancheTargetDevice(device) => Block(order, device)
    case TrancheFlags(flags) => U32Bytes(order, flags)
    case TrancheFormats(indices) => Block(order, indices)
    case TrancheDone => []
    case Done => []
  }

  /** The event can be encoded, within the largest aligned message. */
  predicate Encodes(order: ByteOrder, e: Event) {
    |Payload(order, e)| % 4 == 0 && 8 + |Payload(order, e)| <= MAX_MESSAGE
  }

  /** What a client that has mapped `table` makes of one tranche event. */
  function Announced(order: ByteOrder, table: seq<byte>, indices: seq<byte>): seq<Option<Pair>> {
    seq(|indices| / 2, k requires 0 <= k < |indices| / 2 => Entry(order, table, BytesU16(order, indices[2 * k..2 * k + 2])))
  }

  /** What the client makes of a whole sequence. */
  function Decoded(order: ByteOrder, table: seq<byte>, events: seq<Event>): seq<Option<Pair>> {
    if events == [] then []
    else
      var init, last := Decoded(order, table, events[..|events| - 1]), events[|events| - 1];
      if last.TrancheFormats? then init + Announced(order, table, last.indices) else init
  }

  function Listed(pairs: seq<Pair>): seq<Option<Pair>> {
    seq(|pairs|, i requires 0 <= i < |pairs| => Some(pairs[i]))
  }

  lemma DecodedAppend(order: ByteOrder, table: seq<byte>, events: seq<Event>, e: Event)
    ensures Decoded(order, table, events + [e]) == Decoded(order, table, events)
            + if e.TrancheFormats? then Announced(order, table, e.indices) else []
  {
    assert (events + [e])[..|events|] == events;
  }

  /** `index as u16` for each index of one event. */
  method TrancheBytes(order: ByteOrder, start: nat, end: nat) returns (bytes: seq<byte>)
    requires start <= end <= MAX_FEEDBACK_FORMATS
    ensures |bytes| == 2 * (end - start)
    ensures forall k | 0 <= k < end - start :: BytesU16(order, bytes[2 * k..2 * k + 2]) == start + k
  {
    hide U16Bytes, BytesU16;
    bytes := [];
    var i := start;
    while i < end
      invariant start <= i <= end && |bytes| == 2 * (i - start)
      invariant forall k | 0 <= k < i - start :: BytesU16(order, bytes[2 * k..2 * k + 2]) == start + k
    {
      var more := bytes + U16Bytes(order, i % 0x1_0000);
      U16RoundTrip(order, i);
      assert more[2 * (i - start)..2 * (i - start) + 2] == U16Bytes(order, i);
      forall k | 0 <= k < i - start ensures BytesU16(order, more[2 * k..2 * k + 2]) == start + k {
        assert more[2 * k..2 * k + 2] == bytes[2 * k..2 * k + 2];
      }
      bytes := more;
      i := i + 1;
    }
  }

  lemma TrancheAnnounces(order: ByteOrder, table: seq<byte>, pairs: seq<Pair>, bytes: seq<byte>, start: nat, end: nat)
    requires start <= end <= |pairs| <= MAX_FEEDBACK_FORMATS && |bytes| == 2 * (end - start)
    requires forall i | 0 <= i < |pairs| :: Entry(order, table, i) == Some(pairs[i])
    requires forall k | 0 <= k < end - start :: BytesU16(order, bytes[2 * k..2 * k + 2]) == start + k
    ensures Listed(pairs[..start]) + Announced(order, table, bytes) == Listed(pairs[..end])
  {
    hide Entry, BytesU16;
  }

  lemma SmallEventsEncode(order: ByteOrder, table: seq<byte>, size: u32, device: seq<byte>)
    ensures Encodes(order, FormatTable(table, size)) && Encodes(order, TrancheFlags(0))
    ensures Encodes(order, TrancheDone) && Encodes(order, Done)
    ensures Encodes(order, MainDevice(device)) <==> Encodes(order, TrancheTargetDevice(device))
  {
  }

  /** A full tranche is the largest message there is. */
  lemma TrancheEncodes(order: ByteOrder, indices: seq<byte>)
    requires |indices| <= 2 * MAX_TRANCHE_INDICES_PER_EVENT
    ensures Encodes(order, TrancheFormats(indices))
    ensures |indices| == 2 * MAX_TRANCHE_INDICES_PER_EVENT ==> 8 + |Payload(order, TrancheFormats(indices))| == MAX_MESSAGE
  {
    hide U32Bytes, Zeros;
    assert |Block(order, indices)| == 4 + |indices| + Padding(|indices|);
    hide Block;
  }

  /** Events in order, each one encodable, announcing `announced` over a table of `count` entries. */
  ghost predicate Sequence(order: ByteOrder, events: seq<Event>, table: seq<byte>, announced: seq<Option<Pair>>) {
    && |events| > 0 && events[0] == FormatTable(table, |table| % 0x1_0000_0000)
    && (forall i | 0 <= i < |events| :: Encodes(order, events[i]))
    && Decoded(order, table, events) == announced
  }

  lemma Extends(order: ByteOrder, events: seq<Event>, table: seq<byte>, announced: seq<Option<Pair>>, e: Event)
    requires Sequence(order, events, table, announced) && Encodes(order, e)
    ensures Sequence(order, events + [e], table,
                     if e.TrancheFormats? then announced + Announced(order, table, e.indices) else announced)
  {
    DecodedAppend(order, table, events, e);
    hide Encodes, Decoded, Announced;
  }

  lemma SequenceMeans(order: ByteOrder, events: seq<Event>, table: seq<byte>, announced: seq<Option<Pair>>)
    requires Sequence(order, events, table, announced) && |table| < 0x1_0000_0000
    ensures events != [] && events[0] == FormatTable(table, |table|)
    ensures (forall i | 0 <= i < |events| :: Encodes(order, events[i])) && Decoded(order, table, events) == announced
  {
  }

  lemma Starts(order: ByteOrder, table: seq<byte>)
    ensures Sequence(order, [FormatTable(table, |table| % 0x1_0000_0000)], table, [])
  {
    var size := |table| % 0x1_0000_0000;
    hide Encodes, Announced;
    SmallEventsEncode(order, table, size, []);
    var events := [FormatTable(table, size)];
    assert events[..|events| - 1] == [];
    assert Decoded(order, table, []) == [];
    assert Decoded(order, table, events) == Decoded(order, table, events[..|events| - 1]);
  }

  /** What precedes the tranches: the table first, so that every index can refer to it. */
  predicate BeginsFor(events: seq<Event>, device: seq<byte>) {
    && |events| >= 4 && events[0].FormatTable? && events[1] == MainDevice(device)
    && events[2] == TrancheTargetDevice(device) && events[3] == TrancheFlags(0)
    && forall i | 4 <= i < |events| :: events[i].TrancheFormats?
  }

  method Header(order: ByteOrder, table: seq<byte>, device: seq<byte>) returns (events: seq<Event>)
    requires Encodes(order, MainDevice(device))
    ensures Sequence(order, events, table, []) && BeginsFor(events, device)
  {
    hide Encodes, Decoded, Sequence;
    Starts(order, table);
    SmallEventsEncode(order, table, 0, device);
    events := [FormatTable(table, |table| % 0x1_0000_0000)];
    Extends(order, events, table, [], MainDevice(device));
    events := events + [MainDevice(device)];
    Extends(order, events, table, [], TrancheTargetDevice(device));
    events := events + [TrancheTargetDevice(device)];
    Extends(order, events, table, [], TrancheFlags(0));
    events := events + [TrancheFlags(0)];
  }

  /** The emitted sequence. A client that maps the table and looks up every announced
      index gets the pairs, once each and in order; no index wraps, and every event can
      be encoded. Refused exactly when there are no pairs, too many, or an oversized device. */
  method BuildSyntheticFeedback(order: ByteOrder, pairs: seq<Pair>, device: seq<byte>) returns (r: Option<seq<Event>>)
    ensures r.Some? <==> 0 < |pairs| <= MAX_FEEDBACK_FORMATS && Encodes(order, MainDevice(device))
    ensures r.Some? ==>
              var events := r.value;
              && |events| >= 6 && BeginsFor(events[..|events| - 2], device)
              && events[|events| - 2..] == [TrancheDone, Done]
              && events[0].size == 16 * |pairs| == |events[0].table|
              && (forall i | 0 <= i < |events| :: Encodes(order, events[i]))
              && Decoded(order, events[0].table, events) == Listed(pairs)
  {
    if pairs == [] || |pairs| > MAX_FEEDBACK_FORMATS {
      return None;
    }
    if !Encodes(order, MainDevice(device)) {
      return None;
    }
    hide Encodes, Decoded, BeginsFor, Listed, Sequence;
    var events;
    ghost var table;
    events, table := Announcement(order, pairs, device);
    SequenceMeans(order, events, table, Listed(pairs));
    r := Some(events);
  }

  method Announcement(order: ByteOrder, pairs: seq<Pair>, device: seq<byte>)
      returns (events: seq<Event>, ghost announced: seq<byte>)
    requires 0 < |pairs| <= MAX_FEEDBACK_FORMATS && Encodes(order, MainDevice(device))
    ensures |announced| == 16 * |pairs| && Sequence(order, events, announced, Listed(pairs))
    ensures |events| >= 6 && BeginsFor(events[..|events| - 2], device)
    ensures events[|events| - 2..] == [TrancheDone, Done]
  {
    hide Encodes, Decoded, Sequence, Entry, Announced;
    var table := CreateFormatTable(order, pairs);
    announced := table;
    events := Header(order, table, device);
    assert Listed(pairs[..0]) == [];
    var start := 0;
    while start < |pairs|
      invariant 0 <= start <= |pairs|
      invariant Sequence(order, events, table, Listed(pairs[..start])) && BeginsFor(events, device)
    {
      var end := if |pairs| < start + MAX_TRANCHE_INDICES_PER_EVENT then |pairs| else start + MAX_TRANCHE_INDICES_PER_EVENT;
      var bytes := TrancheBytes(order, start, end);
      TrancheAnnounces(order, table, pairs, bytes, start, end);
      TrancheEncodes(order, bytes);
      Extends(order, events, table, Listed(pairs[..start]), TrancheFormats(bytes));
      events := events + [TrancheFormats(bytes)];
      start := end;
    }
    assert pairs[..start] == pairs;
    ghost var body := events;
    SmallEventsEncode(order, table, 0, device);
    Extends(order, events, table, Listed(pairs), TrancheDone);
    events := events + [TrancheDone];
    Extends(order, events, table, Listed(pairs), Done);
    events := events + [Done];
    assert events[..|events| - 2] == body;
  }
}
