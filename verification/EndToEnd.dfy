/** A byte stream from the client's application to the exit. */
module EndToEnd {
  import opened Bytes
  import opened Wrappers
  import opened OnionLayers
  import Frames = CellFraming
  import Relay = RelayCells

  const CMD_RELAY: byte := 3

  /** `SendRelayCell` overwrites the digest field of the encoded cell. */
  function Stamp(payload: seq<byte>, digest: Relay.Digest): (r: seq<byte>)
    requires |payload| >= 9
    ensures |r| == |payload|
  {
    payload[..5] + digest + payload[9..]
  }

  datatype Chunk = Chunk(data: seq<byte>, digest: Relay.Digest)

  function DataOf(chunks: seq<Chunk>): seq<byte> {
    if chunks == [] then [] else chunks[0].data + DataOf(chunks[1..])
  }

  function RelayPayload(streamID: uint16, c: Chunk): (r: seq<byte>)
    requires |c.data| <= Relay.MAX_DATA
    ensures |r| == Frames.PAYLOAD_LEN
  {
    Stamp(Relay.Encoded(Relay.NewRelayCell(streamID, Relay.RELAY_DATA, c.data)).value, c.digest)
  }

  /** The bytes the client puts on its guard connection. */
  function Send(hops: seq<Cipher>, circID: uint32, streamID: uint16, chunks: seq<Chunk>): seq<byte>
    requires forall i :: 0 <= i < |chunks| ==> |chunks[i].data| <= Relay.MAX_DATA
    decreases |chunks|
  {
    if chunks == [] then []
    else
      var payload := RelayPayload(streamID, chunks[0]);
      Frames.Written(Frames.Cell(circID, CMD_RELAY, Wrap(hops, payload)))
      + Send(AdvanceAll(hops, |payload|), circID, streamID, chunks[1..])
  }

  /** The stream data the exit gets out of those bytes, once every relay has peeled its layer. */
  function Receive(relays: seq<Cipher>, wire: seq<byte>): Option<seq<byte>>
    decreases |wire|
  {
    if wire == [] then Some([])
    else match Frames.Decode(wire)
      case None => None
      case Some((cell, rest)) =>
        match Relay.Decoded(Unwrap(relays, cell.payload))
        case None => None
        case Some(rc) =>
          match Receive(AdvanceAll(relays, |cell.payload|), rest)
          case None => None
          case Some(more) => Some(rc.data + more)
  }

  /** Stamping leaves the data readable. */
  lemma StampedReadsBack(streamID: uint16, c: Chunk)
    requires |c.data| <= Relay.MAX_DATA
    ensures Relay.Decoded(RelayPayload(streamID, c))
         == Some(Relay.NewRelayCell(streamID, Relay.RELAY_DATA, c.data).(digest := c.digest))
  {
    var rc := Relay.NewRelayCell(streamID, Relay.RELAY_DATA, c.data);
    var plain, p := Relay.Encoded(rc).value, RelayPayload(streamID, c);
    Relay.NewCellReadsBackIff(streamID, Relay.RELAY_DATA, c.data);
    assert p[0] == plain[0] && p[1..3] == plain[1..3] && p[3..5] == plain[3..5];
    assert p[5..9] == c.digest && p[9..11] == plain[9..11];
    assert p[11..11 + rc.length] == plain[11..11 + rc.length];
  }

  /** What a hop's payload looks like under the layers: a DATA cell (2), not recognized by its fields, for
      this stream, with the stamped digest and the length of the chunk. */
  lemma PayloadBytes(streamID: uint16, c: Chunk)
    requires |c.data| <= Relay.MAX_DATA
    ensures var p := RelayPayload(streamID, c);
            && |p| == 509 && p[0] == 2 && p[1] == 0 && p[2] == 0
            && (p[3] as int) * 256 + p[4] == streamID && p[5..9] == c.digest
            && (p[9] as int) * 256 + p[10] == |c.data| && p[11..11 + |c.data|] == c.data
  {
    var rc := Relay.NewRelayCell(streamID, Relay.RELAY_DATA, c.data);
    var plain, p := Relay.Encoded(rc).value, RelayPayload(streamID, c);
    Relay.EncodedBytes(rc);
    assert p[..5] == plain[..5] && p[9..] == plain[9..];
    assert p[9] == p[9..][0] && p[10] == p[9..][1] && p[11..11 + |c.data|] == p[9..][2..2 + |c.data|];
    assert plain[11..11 + |c.data|] == plain[9..][2..2 + |c.data|];
  }

  /** Each chunk is one RELAY cell (3) of 514 bytes under the circuit's ID. */
  lemma SendsOneCellEach(hops: seq<Cipher>, circID: uint32, streamID: uint16, chunks: seq<Chunk>)
    requires chunks != [] && forall i :: 0 <= i < |chunks| ==> |chunks[i].data| <= Relay.MAX_DATA
    ensures var w, payload := Send(hops, circID, streamID, chunks), RelayPayload(streamID, chunks[0]);
            && |w| >= 514 && w[4] == 3
            && (((w[0] as int) * 256 + w[1]) * 256 + w[2]) * 256 + w[3] == circID
            && w[5..514] == Wrap(hops, payload)
            && w[514..] == Send(AdvanceAll(hops, 509), circID, streamID, chunks[1..])
  {
    var payload := RelayPayload(streamID, chunks[0]);
    var cell := Frames.Cell(circID, CMD_RELAY, Wrap(hops, payload));
    Frames.HeaderBytes(cell);
    Frames.FixedCellBytes(cell);
    var w, first := Send(hops, circID, streamID, chunks), Frames.Written(cell);
    assert w[..514] == first && w[5..514] == first[5..514];
    assert w[0] == first[0] && w[1] == first[1] && w[2] == first[2] && w[3] == first[3] && w[4] == first[4];
  }

  /** End to end: any stream cut into chunks of at most 498 bytes arrives unchanged and in order,
      for any number of hops, any keystreams and positions, and any stamped digests. The path is
      ordered and loses nothing, and one sender at a time writes to it; `OnionRuns` has the runs where
      a send fails or cells overtake each other. */
  lemma {:induction false} StreamArrives(hops: seq<Cipher>, circID: uint32, streamID: uint16, chunks: seq<Chunk>)
    requires forall i :: 0 <= i < |chunks| ==> |chunks[i].data| <= Relay.MAX_DATA
    ensures Receive(hops, Send(hops, circID, streamID, chunks)) == Some(DataOf(chunks))
    decreases |chunks|
  {
    if chunks != [] {
      var payload := RelayPayload(streamID, chunks[0]);
      var cell := Frames.Cell(circID, CMD_RELAY, Wrap(hops, payload));
      var rest := Send(AdvanceAll(hops, |payload|), circID, streamID, chunks[1..]);
      Frames.ReadsBackIffFits(cell, rest);
      PeelPrefix(hops, |hops|, payload);
      assert hops[..|hops|] == hops && hops[|hops|..] == [];
      StampedReadsBack(streamID, chunks[0]);
      StreamArrives(AdvanceAll(hops, |payload|), circID, streamID, chunks[1..]);
    }
  }
}
