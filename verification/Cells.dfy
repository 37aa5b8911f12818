/** Cells of a TON bag of cells: at most 1023 bits of data and at most 4 references. */
module Cells {
  import opened Powers
  import opened Wrappers

  const MAX_CELL_BITS: nat := 1023
  const MAX_REFERENCES: nat := 4

  type Byte = n: nat | n < 256

  type Bits = seq<bool>

  datatype Cell = Cell(data: Bits, refs: seq<Cell>)

  predicate WellFormed(c: Cell) {
    && |c.data| <= MAX_CELL_BITS && |c.refs| <= MAX_REFERENCES
    && forall i | 0 <= i < |c.refs| :: WellFormed(c.refs[i])
  }

  /** The low `width` bits of a number, most significant first. */
  function ToBits(n: nat, width: nat): (bits: Bits)
    ensures |bits| == width
    decreases n + width
  {
    if width == 0 then [] else ToBits(n / 2, width - 1) + [n % 2 == 1]
  }

  function FromBits(bits: Bits): nat {
    if bits == [] then 0 else 2 * FromBits(bits[..|bits| - 1]) + if bits[|bits| - 1] then 1 else 0
  }

  lemma {:induction false} BitsRoundTrip(n: nat, width: nat)
    requires n < Pow2(width)
    ensures FromBits(ToBits(n, width)) == n
    decreases width
  {
    if width > 0 {
      BitsRoundTrip(n / 2, width - 1);
      var bits := ToBits(n, width);
      assert bits[..|bits| - 1] == ToBits(n / 2, width - 1);
    }
  }

  /** Bit `i` from the left has weight 2^(`width` - 1 - `i`). */
  lemma {:induction false} ToBitsAt(n: nat, width: nat, i: nat)
    requires i < width
    ensures ToBits(n, width)[i] <==> (n / Pow2(width - 1 - i)) % 2 == 1
    decreases width
  {
    if i < width - 1 {
      ToBitsAt(n / 2, width - 1, i);
      assert Pow2(width - 1 - i) == 2 * Pow2(width - 2 - i);
      DivideTwice(n, Pow2(width - 2 - i));
    }
  }

  lemma DivideTwice(n: nat, k: nat)
    requires k > 0
    ensures (n / 2) / k == n / (2 * k)
  {
    var q := (n / 2) / k;
    var r := (n / 2) % k;
    assert n / 2 == q * k + r;
    var s := 2 * r + n % 2;
    assert n == q * (2 * k) + s && 0 <= s < 2 * k;
    QuotientIs(n, 2 * k, q, s);
  }

  lemma QuotientIs(n: nat, m: nat, q: nat, s: nat)
    requires m > 0 && n == q * m + s && s < m
    ensures n / m == q
  {
    assert n == (n / m) * m + n % m;
    assert (n / m - q) * m == s - n % m;
    MultipleIsFar(n / m - q, m);
  }

  lemma MultipleIsFar(d: int, m: nat)
    ensures d >= 1 ==> d * m >= m
    ensures d <= -1 ==> d * m + m <= 0
  {
  }

  lemma {:induction false} FromBitsBound(bits: Bits)
    ensures FromBits(bits) < Pow2(|bits|)
  {
    if bits != [] {
      FromBitsBound(bits[..|bits| - 1]);
    }
  }

  class CellBuilder {
    var data: Bits
    var refs: seq<Cell>

    constructor ()
      ensures data == [] && refs == []
    {
      data, refs := [], [];
    }

    /** Refuses a number that needs more bits than it is given. */
    method StoreUint(width: nat, n: nat) returns (ok: bool)
      modifies this`data
      ensures ok <==> n < Pow2(width)
      ensures data == if ok then old(data) + ToBits(n, width) else old(data)
    {
      ok := n < Pow2(width);
      if ok {
        data := data + ToBits(n, width);
      }
    }

    method StoreBits(bits: Bits)
      modifies this`data
      ensures data == old(data) + bits
    {
      data := data + bits;
    }

    method StoreReference(c: Cell) returns (ok: bool)
      modifies this`refs
      ensures ok <==> |old(refs)| < 4
      ensures refs == if ok then old(refs) + [c] else old(refs)
    {
      ok := |refs| < MAX_REFERENCES;
      if ok {
        refs := refs + [c];
      }
    }

    method Build() returns (r: Option<Cell>)
      ensures r == if |data| <= 1023 then Some(Cell(data, refs)) else None
    {
      return if |data| <= MAX_CELL_BITS then Some(Cell(data, refs)) else None;
    }
  }

  class CellParser {
    const cell: Cell
    var position: nat
    var nextRef: nat

    constructor (cell: Cell)
      ensures this.cell == cell && position == 0 && nextRef == 0
    {
      this.cell := cell;
      position, nextRef := 0, 0;
    }

    method LoadUint(width: nat) returns (r: Option<nat>)
      requires position <= |cell.data|
      modifies this`position
      ensures position <= |cell.data|
      ensures r.Some? <==> old(position) + width <= |cell.data|
      ensures r.Some? ==> position == old(position) + width && r.value == FromBits(cell.data[old(position)..position])
      ensures r.None? ==> position == old(position)
    {
      if position + width > |cell.data| {
        return None;
      }
      r := Some(FromBits(cell.data[position..position + width]));
      position := position + width;
    }

    method NextReference() returns (r: Option<Cell>)
      modifies this`nextRef
      ensures r == if old(nextRef) < |cell.refs| then Some(cell.refs[old(nextRef)]) else None
      ensures nextRef == if r.Some? then old(nextRef) + 1 else old(nextRef)
    {
      if nextRef >= |cell.refs| {
        return None;
      }
      r := Some(cell.refs[nextRef]);
      nextRef := nextRef + 1;
    }
  }
}
