/** The VirtWL transport: byte streams cut into kernel transactions (sommelier/src/virtwl_channel.rs). */
module VirtwlChannel {
  import opened Prelude
  import opened Closing

  const BUFFER_SIZE: nat := 4096
  const SEND_MAX_ALLOCS: nat := 28
  /** `struct virtwl_ioctl_txn`: the descriptor array and the length word. */
  const HEADER_SIZE: nat := 4 * SEND_MAX_ALLOCS + 4
  const MAX_SEND_SIZE: nat := BUFFER_SIZE - HEADER_SIZE

  datatype Transaction = Transaction(fds: seq<Fd>, data: seq<byte>)
  {
    predicate Fits() {
      |fds| == SEND_MAX_ALLOCS && HEADER_SIZE + |data| <= BUFFER_SIZE
    }
  }

  datatype ChannelError = TooManyDescriptors | InvalidDescriptor | MalformedDescriptors

  /** A descriptor array: the descriptors, then -1 up to the array's length. */
  function Packed(fds: seq<Fd>): (raw: seq<Fd>)
    requires |fds| <= SEND_MAX_ALLOCS
    ensures |raw| == SEND_MAX_ALLOCS
  {
    fds + seq(SEND_MAX_ALLOCS - |fds|, _ => -1)
  }

  /** The bytes a receiver of these transactions sees. */
  function Payload(txns: seq<Transaction>): seq<byte> {
    if txns == [] then [] else Payload(txns[..|txns| - 1]) + txns[|txns| - 1].data
  }

  // ---- sending ----

  method SendChunk(data: seq<byte>, fds: seq<Fd>) returns (txn: Transaction)
    requires |fds| <= SEND_MAX_ALLOCS
    ensures txn == Transaction(Packed(fds), data)
  {
    var a := new Fd[SEND_MAX_ALLOCS](_ => 0);
    for i := 0 to |fds|
      invariant a[..i] == fds[..i]
    {
      a[i] := fds[i];
    }
    for i := |fds| to SEND_MAX_ALLOCS
      invariant a[..i] == Packed(fds)[..i]
    {
      a[i] := -1;
    }
    assert a[..SEND_MAX_ALLOCS] == Packed(fds)[..SEND_MAX_ALLOCS];
    txn := Transaction(a[..], data);
  }

  /** Cut `data` into transactions; the descriptors belong to its first byte and
      travel with the first transaction only. */
  method Send(data: seq<byte>, fds: seq<Fd>) returns (r: Result<seq<Transaction>, ChannelError>)
    ensures r.Ok? <==> |fds| <= SEND_MAX_ALLOCS
    ensures r.Err? ==> r.error == TooManyDescriptors
    ensures r.Ok? ==>
              var txns := r.value;
              && |txns| > 0
              && Payload(txns) == data
              && (forall i | 0 <= i < |txns| :: txns[i].Fits())
              && txns[0].fds == Packed(fds)
              && (forall i | 1 <= i < |txns| :: txns[i].fds == Packed([]))
              && (forall i | 0 <= i < |txns| - 1 :: |txns[i].data| == MAX_SEND_SIZE)
              && (data != [] ==> txns[|txns| - 1].data != [])
  {
    if |fds| > SEND_MAX_ALLOCS {
      return Err(TooManyDescriptors);
    }
    var size := if |data| < MAX_SEND_SIZE then |data| else MAX_SEND_SIZE;
    var first := SendChunk(data[..size], fds);
    var txns := [first];
    var sent := size;
    assert Payload([first]) == first.data by {
      assert [first][..0] == [];
    }
    while sent < |data|
      invariant size <= sent <= |data| && |txns| > 0
      invariant Payload(txns) == data[..sent]
      invariant forall i | 0 <= i < |txns| :: txns[i].Fits()
      invariant txns[0].fds == Packed(fds)
      invariant forall i | 1 <= i < |txns| :: txns[i].fds == Packed([])
      invariant forall i | 0 <= i < |txns| - 1 :: |txns[i].data| == MAX_SEND_SIZE
      invariant sent < |data| ==> |txns[|txns| - 1].data| == MAX_SEND_SIZE
      invariant data != [] ==> txns[|txns| - 1].data != []
    {
      var end := if |data| - sent < MAX_SEND_SIZE then |data| else sent + MAX_SEND_SIZE;
      var chunk := SendChunk(data[sent..end], []);
      assert (txns + [chunk])[..|txns|] == txns;
      assert data[..sent] + data[sent..end] == data[..end];
      txns := txns + [chunk];
      sent := end;
    }
    assert data[..sent] == data;
    r := Ok(txns);
  }

  // ---- receiving ----

  /** Distinct descriptors, then -1 to the end; `n` is how many there are. */
  ghost predicate WellFormed(raw: seq<Fd>, n: nat) {
    && n <= |raw|
    && (forall i | 0 <= i < n :: raw[i] >= 0)
    && (forall i, j | 0 <= i < j < n :: raw[i] != raw[j])
    && (forall i | n <= i < |raw| :: raw[i] == -1)
  }

  lemma OneReading(raw: seq<Fd>, n: nat, m: nat)
    requires WellFormed(raw, n) && WellFormed(raw, m)
    ensures n == m
  {
    assert n < |raw| ==> raw[n] == -1;
    assert m < |raw| ==> raw[m] == -1;
  }

  /** Accept exactly the well-formed arrays, in order; otherwise close every descriptor once. */
  method OwnedFdsFromTxn(raw: seq<Fd>) returns (r: Result<seq<Fd>, ChannelError>, closed: seq<Fd>)
    ensures r.Ok? ==> WellFormed(raw, |r.value|) && r.value == raw[..|r.value|] && closed == []
    ensures r.Err? ==> forall n :: !WellFormed(raw, n)
    ensures r.Err? ==> (forall fd :: fd in closed <==> fd in raw && fd >= 0)
    ensures r.Err? ==> forall i, j | 0 <= i < j < |closed| :: closed[i] != closed[j]
  {
    var packed := true;
    var seen: set<Fd> := {};
    var received: seq<Fd> := [];
    closed := [];
    for i := 0 to |raw|
      invariant WellFormed(raw[..i], |received|) && received == raw[..|received|]
      invariant packed <==> |received| == i
      invariant forall fd :: fd in seen <==> fd in received
      invariant closed == []
    {
      if raw[i] == -1 {
        packed := false;
        continue;
      }
      if raw[i] < -1 {
        closed := CloseEach(raw, []);
        return Err(InvalidDescriptor), closed;
      }
      if !packed || raw[i] in seen {
        ghost var k :| 0 <= k < i && if packed then raw[k] == raw[i] else raw[..i][k] == -1;
        closed := CloseEach(raw, []);
        return Err(MalformedDescriptors), closed;
      }
      seen := seen + {raw[i]};
      received := received + [raw[i]];
    }
    assert raw[..|raw|] == raw;
    r := Ok(received);
  }

  /** What one side packs, the other accepts, exactly when the descriptors are distinct and valid. */
  lemma PackedIsWellFormedIff(fds: seq<Fd>)
    requires |fds| <= SEND_MAX_ALLOCS
    ensures WellFormed(Packed(fds), |fds|) <==>
            && (forall i | 0 <= i < |fds| :: fds[i] >= 0)
            && (forall i, j | 0 <= i < j < |fds| :: fds[i] != fds[j])
  {
    assert forall i | 0 <= i < |fds| :: Packed(fds)[i] == fds[i];
  }

  /** Sent descriptors arrive unchanged and in order. */
  method RoundTrip(data: seq<byte>, fds: seq<Fd>) returns (arrived: seq<Fd>, bytes: seq<byte>)
    requires |fds| <= SEND_MAX_ALLOCS
    requires forall i | 0 <= i < |fds| :: fds[i] >= 0
    requires forall i, j | 0 <= i < j < |fds| :: fds[i] != fds[j]
    ensures arrived == fds && bytes == data
  {
    var sent := Send(data, fds);
    PackedIsWellFormedIff(fds);
    var r, closed := OwnedFdsFromTxn(sent.value[0].fds);
    OneReading(Packed(fds), |fds|, |r.value|);
    arrived := r.value;
    bytes := Payload(sent.value);
  }
}
