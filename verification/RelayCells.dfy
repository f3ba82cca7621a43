/** Relay cells (pkg/cell/relay.go; section 6.1 of tor-spec). */
module RelayCells {
  import opened Bytes
  import opened Wrappers
  import Frames = CellFraming

  const HEADER_LEN := 11
  const MAX_DATA := Frames.PAYLOAD_LEN - HEADER_LEN

  const RELAY_DATA: byte := 2

  type Digest = d: seq<byte> | |d| == 4 witness [0, 0, 0, 0]

  datatype RelayCell = RelayCell(command: byte, recognized: uint16, streamID: uint16,
                                 digest: Digest, length: uint16, data: seq<byte>)

  function NewRelayCell(streamID: uint16, command: byte, data: seq<byte>): RelayCell {
    RelayCell(command, 0, streamID, [0, 0, 0, 0], if |data| > 0xFFFF then 0xFFFF else |data|, data)
  }

  function Header(rc: RelayCell): (r: seq<byte>)
    ensures |r| == HEADER_LEN
  {
    [rc.command] + PutUint16(rc.recognized) + PutUint16(rc.streamID) + rc.digest + PutUint16(rc.length)
  }

  lemma HeaderSlices(rc: RelayCell)
    ensures var h := Header(rc);
            && h[0] == rc.command && h[1..3] == PutUint16(rc.recognized) && h[3..5] == PutUint16(rc.streamID)
            && h[5..9] == rc.digest && h[9..11] == PutUint16(rc.length)
  {
  }

  function Encoded(rc: RelayCell): (r: Option<seq<byte>>)
    ensures r.Some? ==> |r.value| == Frames.PAYLOAD_LEN
  {
    if |rc.data| > MAX_DATA then None
    else Some(Header(rc) + rc.data + Zeros(MAX_DATA - |rc.data|))
  }

  function Decoded(payload: seq<byte>): Option<RelayCell> {
    if |payload| < HEADER_LEN then None
    else
      var length := Uint16(payload[9..11]);
      if length > MAX_DATA || length > |payload| - HEADER_LEN then None
      else Some(RelayCell(payload[0], Uint16(payload[1..3]), Uint16(payload[3..5]), payload[5..9],
                          length, payload[11..11 + length]))
  }

  /** `copy(buf[at:], src)` for a source that fits. */
  method CopyInto(buf: array<byte>, at: nat, src: seq<byte>)
    requires at + |src| <= buf.Length
    modifies buf
    ensures forall j :: at <= j < at + |src| ==> buf[j] == src[j - at]
    ensures forall j :: 0 <= j < at || at + |src| <= j < buf.Length ==> buf[j] == old(buf[j])
  {
    for i := 0 to |src|
      invariant forall j :: at <= j < at + i ==> buf[j] == src[j - at]
      invariant forall j :: 0 <= j < buf.Length && !(at <= j < at + i) ==> buf[j] == old(buf[j])
    {
      buf[at + i] := src[i];
    }
  }

  method WriteHeader(buf: array<byte>, rc: RelayCell)
    requires buf.Length == Frames.PAYLOAD_LEN
    modifies buf
    ensures forall j :: 0 <= j < HEADER_LEN ==> buf[j] == Header(rc)[j]
    ensures forall j :: HEADER_LEN <= j < Frames.PAYLOAD_LEN ==> buf[j] == old(buf[j])
  {
    buf[0] := rc.command;
    CopyInto(buf, 1, PutUint16(rc.recognized));
    CopyInto(buf, 3, PutUint16(rc.streamID));
    CopyInto(buf, 5, rc.digest);
    CopyInto(buf, 9, PutUint16(rc.length));
    HeaderSlices(rc);
    ghost var h := Header(rc);
    forall j | 0 <= j < HEADER_LEN
      ensures buf[j] == h[j]
    {
      if 1 <= j < 3 {
        assert h[j] == h[1..3][j - 1];
      } else if 3 <= j < 5 {
        assert h[j] == h[3..5][j - 3];
      } else if 5 <= j < 9 {
        assert h[j] == h[5..9][j - 5];
      } else if 9 <= j {
        assert h[j] == h[9..11][j - 9];
      }
    }
  }

  /** Where each field stands in the 509 bytes; more than 498 bytes of data are refused. */
  lemma EncodedBytes(rc: RelayCell)
    ensures Encoded(rc).None? <==> |rc.data| > 498
    ensures Encoded(rc).Some? ==>
              var p := Encoded(rc).value; var end := 11 + |rc.data|;
              && |p| == 509 && p[0] == rc.command
              && (p[1] as int) * 256 + p[2] == rc.recognized && (p[3] as int) * 256 + p[4] == rc.streamID
              && p[5..9] == rc.digest && (p[9] as int) * 256 + p[10] == rc.length
              && p[11..end] == rc.data && forall i :: end <= i < 509 ==> p[i] == 0
  {
    if |rc.data| <= 498 {
      var p, h := Encoded(rc).value, Header(rc);
      HeaderSlices(rc);
      assert p[..11] == h;
      assert p[1..3] == h[1..3] && p[3..5] == h[3..5] && p[5..9] == h[5..9] && p[9..11] == h[9..11];
      assert p[0] == h[0] && p[1] == p[1..3][0] && p[2] == p[1..3][1] && p[3] == p[3..5][0] && p[4] == p[3..5][1];
      assert p[9] == p[9..11][0] && p[10] == p[9..11][1];
    }
  }

  method Encode(rc: RelayCell) returns (payload: Option<seq<byte>>)
    ensures payload == Encoded(rc)
  {
    if |rc.data| > MAX_DATA {
      return None;
    }
    var buf := new byte[Frames.PAYLOAD_LEN](i => 0);
    WriteHeader(buf, rc);
    CopyInto(buf, HEADER_LEN, rc.data);
    assert buf[..] == Header(rc) + rc.data + Zeros(MAX_DATA - |rc.data|);
    payload := Some(buf[..]);
  }

  method DecodeRelayCell(payload: seq<byte>) returns (r: Option<RelayCell>)
    ensures r == Decoded(payload)
  {
    if |payload| < HEADER_LEN {
      return None;
    }
    var length := Uint16(payload[9..11]);
    if length > MAX_DATA {
      return None;
    }
    if length > |payload| - HEADER_LEN {
      return None;
    }
    var data: seq<byte> := [];
    if length > 0 {
      data := payload[11..11 + length];
    }
    assert data == payload[11..11 + length];
    return Some(RelayCell(payload[0], Uint16(payload[1..3]), Uint16(payload[3..5]), payload[5..9], length, data));
  }

  /** What is read from those places; a length above 498, or above what follows the header, is refused. */
  lemma DecodedBytes(p: seq<byte>)
    ensures Decoded(p).Some? <==>
            |p| >= 11 && (p[9] as int) * 256 + p[10] <= 498 && (p[9] as int) * 256 + p[10] <= |p| - 11
    ensures Decoded(p).Some? ==>
              var rc := Decoded(p).value;
              && rc.command == p[0]
              && rc.recognized == (p[1] as int) * 256 + p[2] && rc.streamID == (p[3] as int) * 256 + p[4]
              && rc.digest == p[5..9] && rc.length == (p[9] as int) * 256 + p[10]
              && rc.data == p[11..11 + rc.length]
  {
  }

  lemma HeaderFields(rc: RelayCell, p: seq<byte>)
    requires |p| >= 11 && p[..11] == Header(rc)
    ensures p[0] == rc.command && Uint16(p[1..3]) == rc.recognized && Uint16(p[3..5]) == rc.streamID
    ensures p[5..9] == rc.digest && Uint16(p[9..11]) == rc.length
  {
    var h := Header(rc);
    HeaderSlices(rc);
    assert p[1..3] == h[1..3] && p[3..5] == h[3..5] && p[5..9] == h[5..9] && p[9..11] == h[9..11];
    assert p[0] == p[..11][0];
    Uint16RoundTrip(rc.recognized);
    Uint16RoundTrip(rc.streamID);
    Uint16RoundTrip(rc.length);
  }

  /** What decoding makes of an encoded relay cell with any length field: the field decides how much
      of the data and of the zero padding comes back. */
  lemma DecodedOfEncoded(rc: RelayCell)
    requires |rc.data| <= MAX_DATA
    ensures Decoded(Encoded(rc).value) ==
            if rc.length > MAX_DATA then None
            else Some(rc.(data := (rc.data + Zeros(MAX_DATA - |rc.data|))[..rc.length]))
  {
    var p := Encoded(rc).value;
    var body := rc.data + Zeros(MAX_DATA - |rc.data|);
    assert p == Header(rc) + body;
    assert p[..11] == Header(rc) && p[11..] == body;
    HeaderFields(rc, p);
    if rc.length <= MAX_DATA {
      assert p[11..11 + rc.length] == body[..rc.length];
    }
  }

  /** A new relay cell survives encoding and decoding exactly when its data is at most 498 bytes. */
  lemma NewCellReadsBackIff(streamID: uint16, command: byte, data: seq<byte>)
    ensures var rc := NewRelayCell(streamID, command, data);
            (Encoded(rc).Some? && Decoded(Encoded(rc).value) == Some(rc)) <==> |data| <= MAX_DATA
  {
    var rc := NewRelayCell(streamID, command, data);
    if |data| <= MAX_DATA {
      DecodedOfEncoded(rc);
      assert (data + Zeros(MAX_DATA - |data|))[..|data|] == data;
    }
  }
}
