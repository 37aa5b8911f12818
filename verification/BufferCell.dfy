/** Byte buffers as chains of cells: 96 bytes a cell, the rest behind one reference. */
module BufferCell {
  import opened Wrappers
  import opened Cells
  import opened Powers

  const BYTES_PER_CELL: nat := 96

  function BytesToBits(bytes: seq<Byte>): (bits: Bits)
    ensures |bits| == 8 * |bytes|
  {
    if bytes == [] then [] else BytesToBits(bytes[..|bytes| - 1]) + ToBits(bytes[|bytes| - 1], 8)
  }

  /** The chain of a buffer. */
  function Chain(buffer: seq<Byte>): Cell
    decreases |buffer|
  {
    if |buffer| <= BYTES_PER_CELL then Cell(BytesToBits(buffer), [])
    else Cell(BytesToBits(buffer[..BYTES_PER_CELL]), [Chain(buffer[BYTES_PER_CELL..])])
  }

  /** Up to `n` whole bytes from the front of some bits. */
  function TakeBytes(bits: Bits, n: nat): seq<Byte>
    decreases |bits| + n
  {
    if n == 0 || |bits| < 8 then []
    else
      EightBits(bits[..8]);
      [FromBits(bits[..8])] + TakeBytes(bits[8..], n - 1)
  }

  lemma EightBits(bits: Bits)
    requires |bits| == 8
    ensures FromBits(bits) < 256
  {
    FromBitsBound(bits);
    PowersOfTwo();
  }

  /** The bytes of a cell, then those behind its first reference, and so on. */
  function Unchain(c: Cell): seq<Byte> {
    TakeBytes(c.data, BYTES_PER_CELL) + if c.refs == [] then [] else Unchain(c.refs[0])
  }

  function CountCells(c: Cell): nat {
    1 + if c.refs == [] then 0 else CountCells(c.refs[0])
  }

  lemma BytesOneMore(bits: Bits, bytes: seq<Byte>, i: nat)
    requires i < |bytes|
    ensures bits + BytesToBits(bytes[..i + 1]) == bits + BytesToBits(bytes[..i]) + ToBits(bytes[i], 8)
  {
    assert bytes[..i + 1][..i] == bytes[..i];
  }

  /** Writes the bytes one by one. */
  method StoreBytes(builder: CellBuilder, bytes: seq<Byte>) returns (ok: bool)
    modifies builder`data
    ensures ok && builder.data == old(builder.data) + BytesToBits(bytes)
  {
    PowersOfTwo();
    for i := 0 to |bytes|
      invariant builder.data == old(builder.data) + BytesToBits(bytes[..i])
    {
      BytesOneMore(old(builder.data), bytes, i);
      ok := builder.StoreUint(8, bytes[i]);
      if !ok {
        return;
      }
    }
    assert bytes[..|bytes|] == bytes;
    ok := true;
  }

  method BuildCellChain(start: nat, buffer: seq<Byte>) returns (r: Option<Cell>)
    requires start <= |buffer|
    ensures r == Some(Chain(buffer[start..]))
    decreases |buffer| - start
  {
    var builder := new CellBuilder();
    var end := if start + BYTES_PER_CELL < |buffer| then start + BYTES_PER_CELL else |buffer|;
    ghost var rest := buffer[start..];
    var stored := StoreBytes(builder, buffer[start..end]);
    if !stored {
      return None;
    }
    assert builder.data == BytesToBits(buffer[start..end]);
    if end < |buffer| {
      var next := BuildCellChain(end, buffer);
      if next.None? {
        return None;
      }
      var linked := builder.StoreReference(next.value);
      if !linked {
        return None;
      }
      assert rest[..BYTES_PER_CELL] == buffer[start..end] && rest[BYTES_PER_CELL..] == buffer[end..];
    } else {
      assert rest == buffer[start..end];
    }
    assert Cell(builder.data, builder.refs) == Chain(rest);
    r := builder.Build();
  }

  method BufferToCell(buffer: seq<Byte>) returns (r: Option<Cell>)
    ensures r == Some(Chain(buffer))
  {
    r := BuildCellChain(0, buffer);
    assert buffer[0..] == buffer;
  }

  lemma TakeOneByte(bits: Bits, start: nat, n: nat)
    requires start + 8 <= |bits| && n > 0
    ensures FromBits(bits[start..start + 8]) < 256
    ensures forall bytes: seq<Byte> ::
              bytes + TakeBytes(bits[start..], n) == bytes + [FromBits(bits[start..start + 8])] + TakeBytes(bits[start + 8..], n - 1)
  {
    assert bits[start..][..8] == bits[start..start + 8] && bits[start..][8..] == bits[start + 8..];
    EightBits(bits[start..start + 8]);
    var b, rest := FromBits(bits[start..start + 8]), TakeBytes(bits[start + 8..], n - 1);
    assert TakeBytes(bits[start..], n) == [b] + rest;
    forall bytes: seq<Byte> ensures bytes + ([b] + rest) == bytes + [b] + rest {
    }
  }

  /** Reads bytes until there are 96 of them or fewer than 8 bits are left, then follows the next reference. */
  method LoadBytes(c: Cell) returns (bytes: seq<Byte>, next: Option<Cell>)
    ensures bytes == TakeBytes(c.data, BYTES_PER_CELL)
    ensures next == if c.refs == [] then None else Some(c.refs[0])
  {
    var parser := new CellParser(c);
    bytes := [];
    for i := 0 to BYTES_PER_CELL
      invariant parser.position <= |c.data| && parser.nextRef == 0
      invariant bytes + TakeBytes(c.data[parser.position..], BYTES_PER_CELL - i) == TakeBytes(c.data, BYTES_PER_CELL)
    {
      ghost var start := parser.position;
      var val := parser.LoadUint(8);
      if val.None? {
        break;
      }
      TakeOneByte(c.data, start, BYTES_PER_CELL - i);
      bytes := bytes + [val.value];
    }
    next := parser.NextReference();
  }

  lemma UnchainFront(c: Cell, bytes: seq<Byte>)
    ensures bytes + Unchain(c)
            == bytes + TakeBytes(c.data, BYTES_PER_CELL) + (if c.refs == [] then [] else Unchain(c.refs[0]))
  {
    JoinAssociates(bytes, TakeBytes(c.data, BYTES_PER_CELL), if c.refs == [] then [] else Unchain(c.refs[0]));
  }

  lemma JoinAssociates(a: seq<Byte>, b: seq<Byte>, c: seq<Byte>)
    ensures a + (b + c) == a + b + c
  {
  }

  method CellToBuffer(c: Cell) returns (bytes: seq<Byte>)
    ensures bytes == Unchain(c)
  {
    var current := Some(c);
    bytes := [];
    while current.Some?
      invariant bytes + (if current.Some? then Unchain(current.value) else []) == Unchain(c)
      decreases if current.Some? then CountCells(current.value) else 0
    {
      UnchainFront(current.value, bytes);
      var here, next := LoadBytes(current.value);
      bytes := bytes + here;
      current := next;
    }
  }

  lemma {:induction false} BytesToBitsFront(bytes: seq<Byte>)
    requires bytes != []
    ensures BytesToBits(bytes) == ToBits(bytes[0], 8) + BytesToBits(bytes[1..])
  {
    var n := |bytes| - 1;
    if n > 0 {
      BytesToBitsFront(bytes[..n]);
      assert bytes[..n][1..] == bytes[1..][..n - 1];
      assert bytes[1..][n - 1] == bytes[n];
    }
  }

  lemma {:induction false} TakeBytesRoundTrip(bytes: seq<Byte>, n: nat)
    requires |bytes| <= n
    ensures TakeBytes(BytesToBits(bytes), n) == bytes
    decreases n
  {
    if bytes != [] {
      BytesToBitsFront(bytes);
      PowersOfTwo();
      BitsRoundTrip(bytes[0], 8);
      var bits := BytesToBits(bytes);
      assert bits[..8] == ToBits(bytes[0], 8) && bits[8..] == BytesToBits(bytes[1..]);
      TakeBytesRoundTrip(bytes[1..], n - 1);
    }
  }

  /** Decoding the chain of a buffer gives the buffer back. */
  lemma {:induction false} ChainRoundTrip(buffer: seq<Byte>)
    ensures Unchain(Chain(buffer)) == buffer
    decreases |buffer|
  {
    if |buffer| <= BYTES_PER_CELL {
      TakeBytesRoundTrip(buffer, BYTES_PER_CELL);
    } else {
      TakeBytesRoundTrip(buffer[..BYTES_PER_CELL], BYTES_PER_CELL);
      ChainRoundTrip(buffer[BYTES_PER_CELL..]);
    }
  }

  lemma ChainIsInjective(a: seq<Byte>, b: seq<Byte>)
    requires Chain(a) == Chain(b)
    ensures a == b
  {
    ChainRoundTrip(a);
    ChainRoundTrip(b);
  }

  /** A chain: whole bytes, at most 96 of them and at most one reference in every cell. */
  predicate IsChain(c: Cell) {
    |c.data| % 8 == 0 && |c.data| <= 8 * 96 && |c.refs| <= 1 && forall i | 0 <= i < |c.refs| :: IsChain(c.refs[i])
  }

  /** The chain is as short as it can be: one cell, or one per started 96 bytes. */
  lemma {:induction false} ChainShape(buffer: seq<Byte>)
    ensures IsChain(Chain(buffer)) && WellFormed(Chain(buffer))
    ensures CountCells(Chain(buffer)) == if buffer == [] then 1 else (|buffer| + 95) / 96
    decreases |buffer|
  {
    if |buffer| > BYTES_PER_CELL {
      ChainShape(buffer[BYTES_PER_CELL..]);
    }
  }

  lemma SliceOfRest(bytes: seq<Byte>, k: nat, a: nat, b: nat)
    requires a <= b && k + b <= |bytes|
    ensures bytes[k..][a..b] == bytes[k + a..k + b]
  {
  }

  /** The cell `j` references down a chain. */
  function Link(c: Cell, j: nat): Option<Cell>
    decreases j
  {
    if j == 0 then Some(c) else if c.refs == [] then None else Link(c.refs[0], j - 1)
  }

  /** Cell `j` holds bytes 96 `j` to 96 `j` + 96 of the buffer, and is the last when the buffer ends there. */
  lemma {:induction false} ChainCellAt(buffer: seq<Byte>, j: nat)
    requires j == 0 || 96 * j < |buffer|
    ensures var end := if 96 * j + 96 < |buffer| then 96 * j + 96 else |buffer|;
            var c := Link(Chain(buffer), j);
            && c.Some? && c.value.data == BytesToBits(buffer[96 * j..end])
            && (c.value.refs == [] <==> end == |buffer|)
    decreases j
  {
    if j > 0 {
      var rest := buffer[BYTES_PER_CELL..];
      ChainCellAt(rest, j - 1);
      var end := if 96 * j + 96 < |buffer| then 96 * j + 96 else |buffer|;
      SliceOfRest(buffer, 96, 96 * (j - 1), end - 96);
    } else if |buffer| <= BYTES_PER_CELL {
      assert buffer[..|buffer|] == buffer;
    }
  }

  /** Byte `i` takes bits 8 `i` to 8 `i` + 8. */
  lemma {:induction false} BytesToBitsAt(bytes: seq<Byte>, i: nat)
    requires i < |bytes|
    ensures BytesToBits(bytes)[8 * i..8 * i + 8] == ToBits(bytes[i], 8)
    decreases |bytes|
  {
    var n := |bytes| - 1;
    if i < n {
      BytesToBitsAt(bytes[..n], i);
      assert BytesToBits(bytes)[8 * i..8 * i + 8] == BytesToBits(bytes[..n])[8 * i..8 * i + 8];
    }
  }
}
