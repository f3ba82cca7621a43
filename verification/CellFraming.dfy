/** Wire framing of cells (pkg/cell/cell.go; section 3 of tor-spec). */
module CellFraming {
  import opened Bytes
  import opened Wrappers

  const PAYLOAD_LEN := 509

  datatype Cell = Cell(circID: uint32, command: byte, payload: seq<byte>)

  predicate IsVariableLength(command: byte) {
    command >= 128
  }

  // ----- encoding -----------------------------------------------------------------------------

  function Header(c: Cell): (r: seq<byte>)
    ensures |r| == 5
  {
    PutUint32(c.circID) + [c.command]
  }

  /** Everything `Encode` writes, whether or not it then reports an error: a variable-length cell
      that is too long leaves its header behind, and a long fixed cell is written in full. */
  function Written(c: Cell): (r: seq<byte>)
    ensures |r| >= 5
  {
    if IsVariableLength(c.command) then
      if |c.payload| > 0xFFFF then Header(c) else Header(c) + PutUint16(|c.payload|) + c.payload
    else if |c.payload| < PAYLOAD_LEN then Header(c) + c.payload + Zeros(PAYLOAD_LEN - |c.payload|)
    else Header(c) + c.payload
  }

  class Writer {
    var bytes: seq<byte>

    constructor ()
      ensures bytes == []
    {
      bytes := [];
    }

    method Write(b: seq<byte>)
      modifies this
      ensures bytes == old(bytes) + b
    {
      bytes := bytes + b;
    }

    method Encode(c: Cell) returns (ok: bool)
      modifies this
      ensures ok <==> !(IsVariableLength(c.command) && |c.payload| > 0xFFFF)
      ensures bytes == old(bytes) + Written(c)
    {
      Write(PutUint32(c.circID));
      Write([c.command]);
      if IsVariableLength(c.command) {
        if |c.payload| > 0xFFFF {
          return false;
        }
        Write(PutUint16(|c.payload|));
      }
      Write(c.payload);
      if !IsVariableLength(c.command) {
        var padding := PAYLOAD_LEN - |c.payload|;
        if padding > 0 {
          Write(Zeros(padding));
        }
      }
      return true;
    }
  }

  // ----- decoding -----------------------------------------------------------------------------

  /** The first cell of a byte stream and what follows it. */
  function Decode(s: seq<byte>): (r: Option<(Cell, seq<byte>)>)
    ensures r.Some? ==> |r.value.1| < |s|
  {
    if |s| < 5 then None
    else
      var circID, command, body := Uint32(s[..4]), s[4], s[5..];
      if IsVariableLength(command) then
        if |body| < 2 then None
        else
          var n := Uint16(body[..2]);
          if |body| - 2 < n then None else Some((Cell(circID, command, body[2..2 + n]), body[2 + n..]))
      else if |body| < PAYLOAD_LEN then None
      else Some((Cell(circID, command, body[..PAYLOAD_LEN]), body[PAYLOAD_LEN..]))
  }

  class Reader {
    var data: seq<byte>

    constructor (data: seq<byte>)
      ensures this.data == data
    {
      this.data := data;
    }

    /** `io.ReadFull`: a short read consumes what there is and fails. */
    method ReadFull(n: nat) returns (r: Option<seq<byte>>)
      modifies this
      ensures |old(data)| >= n ==> r == Some(old(data)[..n]) && data == old(data)[n..]
      ensures |old(data)| < n ==> r == None && data == []
    {
      if |data| < n {
        data := [];
        return None;
      }
      r := Some(data[..n]);
      data := data[n..];
    }

    method DecodeCell() returns (r: Option<Cell>)
      modifies this
      ensures match Decode(old(data))
              case Some((c, rest)) => r == Some(c) && data == rest
              case None => r == None && data == []
    {
      ghost var s := data;
      var circ := ReadFull(4);
      if circ.None? { return None; }
      var cmd := ReadFull(1);
      if cmd.None? { return None; }
      var command := cmd.value[0];
      assert |s| >= 5 && command == s[4] && data == s[5..];
      var n: nat := PAYLOAD_LEN;
      if IsVariableLength(command) {
        var len := ReadFull(2);
        if len.None? { return None; }
        n := Uint16(len.value);
      }
      var payload := ReadFull(n);
      if payload.None? { return None; }
      if IsVariableLength(command) {
        assert s[5..][2..][..n] == s[5..][2..2 + n] && s[5..][2..][n..] == s[5..][2 + n..];
      }
      return Some(Cell(Uint32(circ.value), command, payload.value));
    }
  }

  // ----- the bytes on the wire ----------------------------------------------------------------

  lemma WordBytes(x: uint32)
    ensures var h := PutUint32(x); (((h[0] as int) * 256 + h[1]) * 256 + h[2]) * 256 + h[3] == x
  {
    var hi, lo := x / 0x1_0000, x % 0x1_0000;
    assert hi == hi / 256 * 256 + hi % 256 && lo == lo / 256 * 256 + lo % 256 && x == hi * 0x1_0000 + lo;
  }

  /** Five header bytes: the circuit ID, highest byte first, and the command. */
  lemma HeaderBytes(c: Cell)
    ensures var w := Written(c);
            (((w[0] as int) * 256 + w[1]) * 256 + w[2]) * 256 + w[3] == c.circID && w[4] == c.command
  {
    var w, h := Written(c), PutUint32(c.circID);
    assert w[..4] == h && w[4] == c.command;
    assert w[0] == w[..4][0] && w[1] == w[..4][1] && w[2] == w[..4][2] && w[3] == w[..4][3];
    WordBytes(c.circID);
  }

  /** Below command 128 the payload follows, and zeros up to 514 bytes; a longer one is not cut. */
  lemma FixedCellBytes(c: Cell)
    requires c.command < 128
    ensures |Written(c)| == if |c.payload| <= 509 then 514 else 5 + |c.payload|
    ensures Written(c)[5..5 + |c.payload|] == c.payload
    ensures forall i :: 5 + |c.payload| <= i < |Written(c)| ==> Written(c)[i] == 0
  {
  }

  /** From command 128 on, CERTS (129) for one, two bytes of length follow, the higher first, and then the
      payload; one longer than 65535 bytes leaves the header alone. */
  lemma VariableCellBytes(c: Cell)
    requires c.command >= 128
    ensures |c.payload| <= 65535 ==>
              Written(c)[5..] == [|c.payload| / 256, |c.payload| % 256] + c.payload
    ensures |c.payload| > 65535 ==> |Written(c)| == 5
  {
  }

  // ----- round trips --------------------------------------------------------------------------

  /** The payload sizes the format can carry. */
  predicate Fits(c: Cell) {
    |c.payload| <= if IsVariableLength(c.command) then 0xFFFF else PAYLOAD_LEN
  }

  /** The cell a reader gets back: fixed payloads are zero-padded. */
  function Padded(c: Cell): Cell {
    if IsVariableLength(c.command) || |c.payload| >= PAYLOAD_LEN then c
    else c.(payload := c.payload + Zeros(PAYLOAD_LEN - |c.payload|))
  }

  lemma HeaderReads(c: Cell, body: seq<byte>)
    ensures var s := Header(c) + body;
            |s| >= 5 && Uint32(s[..4]) == c.circID && s[4] == c.command && s[5..] == body
  {
  }

  /** A cell is read back, with everything after it left alone, exactly when its payload fits. */
  lemma ReadsBackIffFits(c: Cell, rest: seq<byte>)
    ensures Decode(Written(c) + rest) == Some((Padded(c), rest)) <==> Fits(c)
  {
    if IsVariableLength(c.command) {
      if Fits(c) {
        var body := PutUint16(|c.payload|) + c.payload + rest;
        assert Written(c) + rest == Header(c) + body;
        HeaderReads(c, body);
        Uint16RoundTrip(|c.payload|);
        assert body[..2] == PutUint16(|c.payload|);
        assert body[2..2 + |c.payload|] == c.payload && body[2 + |c.payload|..] == rest;
      }
    } else {
      var body := Padded(c).payload + rest;
      assert Written(c) + rest == Header(c) + body;
      HeaderReads(c, body);
      if Fits(c) {
        assert body[..PAYLOAD_LEN] == Padded(c).payload && body[PAYLOAD_LEN..] == rest;
      } else {
        assert |body[..PAYLOAD_LEN]| < |Padded(c).payload|;
      }
    }
  }

  /** No proper prefix of an encoded cell decodes. */
  lemma PrefixesAreIncomplete(c: Cell, n: nat)
    requires Fits(c) && n < |Written(c)|
    ensures Decode(Written(c)[..n]) == None
  {
  }

  function WrittenAll(cells: seq<Cell>): seq<byte> {
    if cells == [] then [] else Written(cells[0]) + WrittenAll(cells[1..])
  }

  function DecodeAll(s: seq<byte>): Option<seq<Cell>>
    decreases |s|
  {
    if s == [] then Some([])
    else match Decode(s)
      case None => None
      case Some((c, rest)) =>
        match DecodeAll(rest)
        case None => None
        case Some(more) => Some([c] + more)
  }

  function PaddedAll(cells: seq<Cell>): seq<Cell> {
    if cells == [] then [] else [Padded(cells[0])] + PaddedAll(cells[1..])
  }

  /** Framing: decoding the concatenation of any list of cells gives back that list, zero-padded,
      and consumes every byte. */
  lemma {:induction false} StreamsReadBack(cells: seq<Cell>)
    requires forall i :: 0 <= i < |cells| ==> Fits(cells[i])
    ensures DecodeAll(WrittenAll(cells)) == Some(PaddedAll(cells))
  {
    if cells != [] {
      ReadsBackIffFits(cells[0], WrittenAll(cells[1..]));
      StreamsReadBack(cells[1..]);
    }
  }
}
