/**
 The activation spill file: a fixed magic, the dtype, the shape, the payload size and
 the payload, all lengths little-endian. A file is its bytes; paths, disk space and
 temporary names are not modelled.
 */
module SpillCodec {
  import opened Prelude

  type Octet = b: int | 0 <= b < 256

  const TWO_63: int := 0x8000_0000_0000_0000
  const TWO_64: int := 0x1_0000_0000_0000_0000

  type I64 = x: int | -TWO_63 <= x < TWO_63
  type U64 = x: int | 0 <= x < TWO_64

  /** A string is a byte sequence that is well-formed UTF-8. */
  type Text = s: seq<Octet> | Utf8(s)

  const MAGIC: seq<Octet> := [0x53, 0x43, 0x53, 0x50, 0x49, 0x4C, 0x4C, 0x31]
  const MAX_DTYPE_BYTES: nat := 256
  const MAX_TENSOR_RANK: nat := 64
  const MAX_SPILL_BYTES: nat := 64 * 1024 * 1024 * 1024

  datatype Meta = Meta(dtype: Text, shape: seq<I64>, nbytes: U64)

  datatype SpillError =
    | SizesDisagree
    | InvalidDtype
    | InvalidShape
    | ExcessiveAllocation(bytes: nat)
    | UnexpectedEnd
    | BadMagic
    | NotUtf8
    | SizeMismatch(expected: nat, actual: nat)

  // ----- UTF-8 (table 3-7 of the Unicode Standard) -----

  predicate Tail(s: seq<Octet>, i: nat) {
    i < |s| && 0x80 <= s[i] < 0xC0
  }

  /** How many bytes the well-formed character at the front takes; zero if there is none. */
  function CharBytes(s: seq<Octet>): (n: nat)
    requires s != []
    ensures n <= |s|
  {
    var b := s[0];
    if b < 0x80 then 1
    else if 0xC2 <= b <= 0xDF && Tail(s, 1) then 2
    else if 0xE0 <= b <= 0xEF && Tail(s, 1) && Tail(s, 2)
            && (b == 0xE0 ==> s[1] >= 0xA0) && (b == 0xED ==> s[1] < 0xA0) then 3
    else if 0xF0 <= b <= 0xF4 && Tail(s, 1) && Tail(s, 2) && Tail(s, 3)
            && (b == 0xF0 ==> s[1] >= 0x90) && (b == 0xF4 ==> s[1] < 0x90) then 4
    else 0
  }

  predicate Utf8(s: seq<Octet>) {
    s == [] || (CharBytes(s) > 0 && Utf8(s[CharBytes(s)..]))
  }

  // ----- Little-endian integers -----

  function Pow256(n: nat): (p: nat)
    ensures p > 0
  {
    if n == 0 then 1 else 256 * Pow256(n - 1)
  }

  function Le(v: nat, n: nat): (s: seq<Octet>)
    ensures |s| == n
  {
    if n == 0 then [] else [v % 256] + Le(v / 256, n - 1)
  }

  function FromLe(s: seq<Octet>): (v: nat) {
    if s == [] then 0 else s[0] + 256 * FromLe(s[1..])
  }

  lemma {:induction false} FromLeLe(v: nat, n: nat)
    requires v < Pow256(n)
    ensures FromLe(Le(v, n)) == v
  {
    if n > 0 {
      FromLeLe(v / 256, n - 1);
      assert Le(v, n)[1..] == Le(v / 256, n - 1);
    }
  }

  lemma {:induction false} LeFromLe(s: seq<Octet>)
    ensures FromLe(s) < Pow256(|s|)
    ensures Le(FromLe(s), |s|) == s
  {
    if s != [] {
      LeFromLe(s[1..]);
      assert s == [s[0]] + s[1..];
      assert FromLe(s) / 256 == FromLe(s[1..]) && FromLe(s) % 256 == s[0];
    }
  }

  lemma {:induction false} Widths()
    ensures Pow256(4) == 0x1_0000_0000 && Pow256(8) == TWO_64
  {
    assert Pow256(2) == 0x1_0000 && Pow256(4) == 0x1_0000_0000;
    assert Pow256(6) == 0x1_0000_0000_0000 && Pow256(8) == TWO_64;
  }

  /** Two's complement. */
  function Unsigned(x: I64): U64 {
    if x >= 0 then x else x + TWO_64
  }

  function Signed(u: U64): I64 {
    if u < TWO_63 then u else u - TWO_64
  }

  function DimBytes(shape: seq<I64>): (s: seq<Octet>)
    ensures |s| == 8 * |shape|
  {
    if shape == [] then [] else Le(Unsigned(shape[0]), 8) + DimBytes(shape[1..])
  }

  // ----- Writing -----

  predicate NonNegative(shape: seq<I64>) {
    forall i | 0 <= i < |shape| :: shape[i] >= 0
  }

  /** What the writer accepts. */
  predicate Writable(m: Meta, payload: seq<Octet>) {
    && |payload| == m.nbytes
    && 0 < |m.dtype| <= MAX_DTYPE_BYTES
    && |m.shape| <= MAX_TENSOR_RANK && NonNegative(m.shape)
    && m.nbytes <= MAX_SPILL_BYTES
  }

  function Header(m: Meta): seq<Octet> {
    MAGIC + Le(|m.dtype|, 4) + m.dtype + Le(|m.shape|, 4) + DimBytes(m.shape) + Le(m.nbytes, 8)
  }

  /** The file for a writable tensor. */
  function Layout(m: Meta, payload: seq<Octet>): seq<Octet> {
    Header(m) + payload
  }

  // ----- Reading -----

  function ReadDims(file: seq<Octet>, at: nat, n: nat): Result<seq<I64>, SpillError>
    decreases n
  {
    if n == 0 then Ok([])
    else if at + 8 > |file| then Err(UnexpectedEnd)
    else
      Widths();
      LeFromLe(file[at..at + 8]);
      var dim := Signed(FromLe(file[at..at + 8]));
      if dim < 0 then Err(InvalidShape)
      else
        var rest := ReadDims(file, at + 8, n - 1);
        if rest.Err? then rest else Ok([dim] + rest.value)
  }

  /** What the reader makes of a file. */
  function Decode(file: seq<Octet>): Result<(Meta, seq<Octet>), SpillError> {
    if |file| < 8 then Err(UnexpectedEnd)
    else if file[..8] != MAGIC then Err(BadMagic)
    else if |file| < 12 then Err(UnexpectedEnd)
    else
      var dtypeLen := FromLe(file[8..12]);
      if dtypeLen == 0 || dtypeLen > MAX_DTYPE_BYTES then Err(InvalidDtype)
      else if |file| < 12 + dtypeLen then Err(UnexpectedEnd)
      else if !Utf8(file[12..12 + dtypeLen]) then Err(NotUtf8)
      else DecodeShape(file, file[12..12 + dtypeLen])
  }

  function DecodeShape(file: seq<Octet>, dtype: Text): Result<(Meta, seq<Octet>), SpillError> {
    var at := 12 + |dtype|;
    if |file| < at + 4 then Err(UnexpectedEnd)
    else
      var ndim := FromLe(file[at..at + 4]);
      if ndim > MAX_TENSOR_RANK then Err(InvalidShape)
      else
        var shape := ReadDims(file, at + 4, ndim);
        if shape.Err? then Err(shape.error) else DecodePayload(file, dtype, shape.value, at + 4 + 8 * ndim)
  }

  function DecodePayload(file: seq<Octet>, dtype: Text, shape: seq<I64>, at: nat)
    : Result<(Meta, seq<Octet>), SpillError>
  {
    if |file| < at + 8 then Err(UnexpectedEnd)
    else
      Widths();
      LeFromLe(file[at..at + 8]);
      var nbytes := FromLe(file[at..at + 8]);
      if nbytes > MAX_SPILL_BYTES then Err(ExcessiveAllocation(nbytes))
      else if at + 8 + nbytes != |file| then Err(SizeMismatch(at + 8 + nbytes, |file|))
      else Ok((Meta(dtype, shape, nbytes), file[at + 8..]))
  }

  // ----- Reading undoes writing, and writing undoes reading -----

  /** Where the shape field starts, where the payload size starts, and where the payload starts. */
  function ShapeAt(m: Meta): nat {
    12 + |m.dtype|
  }

  function SizeAt(m: Meta): nat {
    16 + |m.dtype| + 8 * |m.shape|
  }

  lemma {:induction false} Fields(m: Meta, payload: seq<Octet>)
    ensures var f := Layout(m, payload);
            && |f| == SizeAt(m) + 8 + |payload|
            && f[..8] == MAGIC
            && f[8..12] == Le(|m.dtype|, 4)
            && f[12..ShapeAt(m)] == m.dtype
            && f[ShapeAt(m)..ShapeAt(m) + 4] == Le(|m.shape|, 4)
            && f[ShapeAt(m) + 4..SizeAt(m)] == DimBytes(m.shape)
            && f[SizeAt(m)..SizeAt(m) + 8] == Le(m.nbytes, 8)
            && f[SizeAt(m) + 8..] == payload
  {
    hide Le, DimBytes;
  }

  /** A file is determined by its fields. */
  lemma {:induction false} FromFields(f: seq<Octet>, m: Meta, payload: seq<Octet>)
    requires |f| == SizeAt(m) + 8 + |payload|
    requires f[..8] == MAGIC && f[8..12] == Le(|m.dtype|, 4) && f[12..ShapeAt(m)] == m.dtype
    requires f[ShapeAt(m)..ShapeAt(m) + 4] == Le(|m.shape|, 4) && f[ShapeAt(m) + 4..SizeAt(m)] == DimBytes(m.shape)
    requires f[SizeAt(m)..SizeAt(m) + 8] == Le(m.nbytes, 8) && f[SizeAt(m) + 8..] == payload
    ensures f == Layout(m, payload)
  {
    var a, b := ShapeAt(m), SizeAt(m);
    hide Le, DimBytes, ShapeAt, SizeAt;
    assert 12 <= a <= a + 4 <= b && b + 8 <= |f| by { Positions(m); }
    hide *;
    assert f[..12] == MAGIC + Le(|m.dtype|, 4) by { Join(f, 8, 12); }
    assert f[..a] == MAGIC + Le(|m.dtype|, 4) + m.dtype by { Join(f, 12, a); }
    assert f[..a + 4] == MAGIC + Le(|m.dtype|, 4) + m.dtype + Le(|m.shape|, 4) by { Join(f, a, a + 4); }
    assert f[..b] == MAGIC + Le(|m.dtype|, 4) + m.dtype + Le(|m.shape|, 4) + DimBytes(m.shape) by { Join(f, a + 4, b); }
    HeaderIs(f, m, payload);
  }

  lemma {:induction false} Positions(m: Meta)
    ensures 12 <= ShapeAt(m) <= ShapeAt(m) + 4 <= SizeAt(m)
  {
  }

  lemma {:induction false} Join(f: seq<Octet>, i: nat, j: nat)
    requires i <= j <= |f|
    ensures f[..i] + f[i..j] == f[..j]
  {
  }

  lemma {:induction false} HeaderIs(f: seq<Octet>, m: Meta, payload: seq<Octet>)
    requires SizeAt(m) + 8 <= |f|
    requires f[..SizeAt(m)] == MAGIC + Le(|m.dtype|, 4) + m.dtype + Le(|m.shape|, 4) + DimBytes(m.shape)
    requires f[SizeAt(m)..SizeAt(m) + 8] == Le(m.nbytes, 8) && f[SizeAt(m) + 8..] == payload
    ensures f == Layout(m, payload)
  {
    hide Le, DimBytes, SizeAt;
    Join(f, SizeAt(m), SizeAt(m) + 8);
    assert f == f[..SizeAt(m) + 8] + f[SizeAt(m) + 8..];
  }

  lemma {:induction false} ReadDimsOfDimBytes(f: seq<Octet>, at: nat, shape: seq<I64>)
    requires at + 8 * |shape| <= |f| && f[at..at + 8 * |shape|] == DimBytes(shape) && NonNegative(shape)
    ensures ReadDims(f, at, |shape|) == Ok(shape)
    decreases |shape|
  {
    if shape != [] {
      var rest := shape[1..];
      var bytes := f[at..at + 8 * |shape|];
      Widths();
      assert f[at..at + 8] == bytes[..8] == Le(Unsigned(shape[0]), 8);
      FromLeLe(Unsigned(shape[0]), 8);
      assert f[at + 8..at + 8 + 8 * |rest|] == bytes[8..] == DimBytes(rest);
      hide Le;
      ReadDimsOfDimBytes(f, at + 8, rest);
      assert shape == [shape[0]] + rest;
    }
  }

  lemma {:induction false} DimBytesOfReadDims(f: seq<Octet>, at: nat, n: nat)
    requires at <= |f| && ReadDims(f, at, n).Ok?
    ensures var shape := ReadDims(f, at, n).value;
            |shape| == n && NonNegative(shape) && at + 8 * n <= |f| && f[at..at + 8 * n] == DimBytes(shape)
    decreases n
  {
    if n > 0 {
      var shape := ReadDims(f, at, n).value;
      DimBytesOfReadDims(f, at + 8, n - 1);
      var head := f[at..at + 8];
      LeFromLe(head);
      Widths();
      assert Unsigned(shape[0]) == FromLe(head);
      hide Le, FromLe;
      assert shape[1..] == ReadDims(f, at + 8, n - 1).value;
      assert f[at..at + 8 * n] == head + f[at + 8..at + 8 * n];
    }
  }

  lemma {:induction false} PayloadDecodes(m: Meta, payload: seq<Octet>, f: seq<Octet>)
    requires Writable(m, payload) && |f| == SizeAt(m) + 8 + |payload|
    requires f[SizeAt(m)..SizeAt(m) + 8] == Le(m.nbytes, 8) && f[SizeAt(m) + 8..] == payload
    ensures DecodePayload(f, m.dtype, m.shape, SizeAt(m)) == Ok((m, payload))
  {
    Widths();
    FromLeLe(m.nbytes, 8);
    hide Le, FromLe, Pow256;
  }

  lemma {:induction false} ShapeDecodes(m: Meta, payload: seq<Octet>, f: seq<Octet>)
    requires Writable(m, payload) && |f| == SizeAt(m) + 8 + |payload|
    requires f[ShapeAt(m)..ShapeAt(m) + 4] == Le(|m.shape|, 4) && f[ShapeAt(m) + 4..SizeAt(m)] == DimBytes(m.shape)
    requires DecodePayload(f, m.dtype, m.shape, SizeAt(m)) == Ok((m, payload))
    ensures DecodeShape(f, m.dtype) == Ok((m, payload))
  {
    Widths();
    FromLeLe(|m.shape|, 4);
    ReadDimsOfDimBytes(f, ShapeAt(m) + 4, m.shape);
    hide Le, FromLe, Pow256, ReadDims, DimBytes, DecodePayload;
  }

  /** Reading back what was written returns the same metadata and the same bytes. */
  lemma {:induction false} WrittenThenRead(m: Meta, payload: seq<Octet>)
    requires Writable(m, payload)
    ensures Decode(Layout(m, payload)) == Ok((m, payload))
  {
    Fields(m, payload);
    Widths();
    FromLeLe(|m.dtype|, 4);
    hide Le, FromLe, Layout, Pow256, DecodePayload, DecodeShape, DimBytes, Utf8, NonNegative;
    PayloadDecodes(m, payload, Layout(m, payload));
    ShapeDecodes(m, payload, Layout(m, payload));
  }

  lemma {:induction false} PayloadReads(f: seq<Octet>, dtype: Text, shape: seq<I64>, at: nat)
    requires DecodePayload(f, dtype, shape, at).Ok?
    ensures var (m, payload) := DecodePayload(f, dtype, shape, at).value;
            && at + 8 + |payload| == |f| && m == Meta(dtype, shape, |payload|) && m.nbytes <= MAX_SPILL_BYTES
            && f[at..at + 8] == Le(m.nbytes, 8) && f[at + 8..] == payload
  {
    LeFromLe(f[at..at + 8]);
    hide Le, FromLe, Pow256;
  }

  lemma {:induction false} ShapeReads(f: seq<Octet>, dtype: Text)
    requires DecodeShape(f, dtype).Ok?
    ensures var (m, payload) := DecodeShape(f, dtype).value;
            && |f| == SizeAt(m) + 8 + |payload| && m.dtype == dtype && m.nbytes == |payload| <= MAX_SPILL_BYTES
            && |m.shape| <= MAX_TENSOR_RANK && NonNegative(m.shape)
            && f[ShapeAt(m)..ShapeAt(m) + 4] == Le(|m.shape|, 4) && f[ShapeAt(m) + 4..SizeAt(m)] == DimBytes(m.shape)
            && f[SizeAt(m)..SizeAt(m) + 8] == Le(m.nbytes, 8) && f[SizeAt(m) + 8..] == payload
  {
    var at := 12 + |dtype|;
    var ndim := FromLe(f[at..at + 4]);
    LeFromLe(f[at..at + 4]);
    DimBytesOfReadDims(f, at + 4, ndim);
    hide Le, FromLe, ReadDims, DecodePayload, DimBytes, NonNegative;
    PayloadReads(f, dtype, ReadDims(f, at + 4, ndim).value, at + 4 + 8 * ndim);
  }

  /** Every file the reader accepts is exactly the encoding of what it returns. */
  lemma {:induction false} ReadIsWritten(f: seq<Octet>)
    requires Decode(f).Ok?
    ensures var (m, payload) := Decode(f).value;
            Writable(m, payload) && f == Layout(m, payload)
  {
    var (m, payload) := Decode(f).value;
    var dtype := f[12..12 + FromLe(f[8..12])];
    LeFromLe(f[8..12]);
    hide Le, FromLe, Layout, DecodeShape, Utf8, NonNegative, DimBytes;
    ShapeReads(f, dtype);
    FromFields(f, m, payload);
  }

  /** No accepted file is a proper prefix of another, so truncating or extending an accepted file makes it rejected. */
  lemma {:induction false} NoTruncationOrExtension(f: seq<Octet>, g: seq<Octet>)
    requires f < g && Decode(f).Ok?
    ensures Decode(g).Err?
  {
    if Decode(g).Ok? {
      var (m, payload) := Decode(f).value;
      var (m', payload') := Decode(g).value;
      ReadIsWritten(f);
      ReadIsWritten(g);
      hide Decode, Layout, Writable;
      SameSizes(f, g, m, payload, m', payload');
    }
  }

  lemma {:induction false} SamePart(f: seq<Octet>, g: seq<Octet>, i: nat, j: nat)
    requires f <= g && i <= j <= |f|
    ensures f[i..j] == g[i..j]
  {
  }

  lemma {:induction false} SmallNumbers(m: Meta, payload: seq<Octet>)
    requires Writable(m, payload)
    ensures |m.dtype| < 0x1_0000_0000 && |m.shape| < 0x1_0000_0000 && m.nbytes < TWO_64 && |payload| == m.nbytes
  {
  }

  lemma {:induction false} SameSizes(f: seq<Octet>, g: seq<Octet>, m: Meta, payload: seq<Octet>, m': Meta, payload': seq<Octet>)
    requires f <= g && Writable(m, payload) && Writable(m', payload')
    requires f == Layout(m, payload) && g == Layout(m', payload')
    ensures |f| == |g|
  {
    Fields(m, payload);
    Fields(m', payload');
    SmallNumbers(m, payload);
    SmallNumbers(m', payload');
    hide Layout, Le, DimBytes, Writable;
    SamePart(f, g, 8, 12);
    SameNumber(|m.dtype|, |m'.dtype|, 4);
    SamePart(f, g, ShapeAt(m), ShapeAt(m) + 4);
    SameNumber(|m.shape|, |m'.shape|, 4);
    SamePart(f, g, SizeAt(m), SizeAt(m) + 8);
    SameNumber(m.nbytes, m'.nbytes, 8);
  }

  lemma {:induction false} SameNumber(v: nat, v': nat, n: nat)
    requires Le(v, n) == Le(v', n) && (n == 4 || n == 8)
    requires v < 0x1_0000_0000 || (n == 8 && v < TWO_64)
    requires v' < 0x1_0000_0000 || (n == 8 && v' < TWO_64)
    ensures v == v'
  {
    Widths();
    FromLeLe(v, n);
    FromLeLe(v', n);
  }

  // ----- The writer and the reader as they run -----

  lemma {:induction false} DimBytesSnoc(shape: seq<I64>, dim: I64)
    ensures DimBytes(shape + [dim]) == DimBytes(shape) + Le(Unsigned(dim), 8)
  {
    hide Le;
    if shape == [] {
      assert shape + [dim] == [dim];
      assert DimBytes([dim]) == Le(Unsigned(dim), 8) + DimBytes([]);
    } else {
      assert (shape + [dim])[1..] == shape[1..] + [dim];
      DimBytesSnoc(shape[1..], dim);
    }
  }

  method WriteSpill(m: Meta, payload: seq<Octet>) returns (r: Result<seq<Octet>, SpillError>)
    ensures r.Ok? <==> Writable(m, payload)
    ensures r.Ok? ==> r.value == Layout(m, payload)
    ensures r.Err? && r.error.SizesDisagree? <==> |payload| != m.nbytes
  {
    if |payload| != m.nbytes {
      return Err(SizesDisagree);
    }
    if m.dtype == [] || |m.dtype| > MAX_DTYPE_BYTES {
      return Err(InvalidDtype);
    }
    if |m.shape| > MAX_TENSOR_RANK || exists i | 0 <= i < |m.shape| :: m.shape[i] < 0 {
      return Err(InvalidShape);
    }
    if m.nbytes > MAX_SPILL_BYTES {
      return Err(ExcessiveAllocation(m.nbytes));
    }
    hide Le, DimBytes, Utf8, NonNegative;
    var file := MAGIC;
    file := file + Le(|m.dtype|, 4);
    file := file + m.dtype;
    file := file + Le(|m.shape|, 4);
    file := WriteShape(file, m.shape);
    file := file + Le(m.nbytes, 8);
    file := file + payload;
    return Ok(file);
  }

  method WriteShape(start: seq<Octet>, shape: seq<I64>) returns (file: seq<Octet>)
    ensures file == start + DimBytes(shape)
  {
    file := start;
    for i := 0 to |shape|
      invariant file == start + DimBytes(shape[..i])
    {
      DimBytesSnoc(shape[..i], shape[i]);
      assert shape[..i + 1] == shape[..i] + [shape[i]];
      file := file + Le(Unsigned(shape[i]), 8);
    }
    assert shape[..|shape|] == shape;
  }

  function Prepend(shape: seq<I64>, rest: Result<seq<I64>, SpillError>): Result<seq<I64>, SpillError> {
    if rest.Err? then rest else Ok(shape + rest.value)
  }

  method ReadShape(file: seq<Octet>, start: nat, ndim: nat) returns (r: Result<seq<I64>, SpillError>)
    ensures r == ReadDims(file, start, ndim)
  {
    var shape: seq<I64>, at := [], start;
    PrependEmpty(ReadDims(file, start, ndim));
    for i := 0 to ndim
      invariant at == start + 8 * i
      invariant Prepend(shape, ReadDims(file, at, ndim - i)) == ReadDims(file, start, ndim)
    {
      if at + 8 > |file| {
        return Err(UnexpectedEnd);
      }
      Widths();
      LeFromLe(file[at..at + 8]);
      var dim := Signed(FromLe(file[at..at + 8]));
      if dim < 0 {
        return Err(InvalidShape);
      }
      ghost var rest := ReadDims(file, at + 8, ndim - i - 1);
      assert rest.Ok? ==> shape + ([dim] + rest.value) == shape + [dim] + rest.value;
      shape, at := shape + [dim], at + 8;
    }
    assert shape + [] == shape;
    return Ok(shape);
  }

  lemma {:induction false} PrependEmpty(r: Result<seq<I64>, SpillError>)
    ensures Prepend([], r) == r
  {
    if r.Ok? {
      assert [] + r.value == r.value;
    }
  }

  method ReadSpill(file: seq<Octet>) returns (r: Result<(Meta, seq<Octet>), SpillError>)
    ensures r == Decode(file)
  {
    hide FromLe, DecodeShape;
    if |file| < 8 {
      return Err(UnexpectedEnd);
    }
    if file[..8] != MAGIC {
      return Err(BadMagic);
    }
    if |file| < 12 {
      return Err(UnexpectedEnd);
    }
    var dtypeLen := FromLe(file[8..12]);
    if dtypeLen == 0 || dtypeLen > MAX_DTYPE_BYTES {
      return Err(InvalidDtype);
    }
    var at := 12 + dtypeLen;
    if |file| < at {
      return Err(UnexpectedEnd);
    }
    var dtype := file[12..at];
    if !Utf8(dtype) {
      return Err(NotUtf8);
    }
    r := ReadShapeAndPayload(file, dtype);
  }

  method ReadShapeAndPayload(file: seq<Octet>, dtype: Text) returns (r: Result<(Meta, seq<Octet>), SpillError>)
    ensures r == DecodeShape(file, dtype)
  {
    hide FromLe, ReadDims, DecodePayload;
    var at := 12 + |dtype|;
    if |file| < at + 4 {
      return Err(UnexpectedEnd);
    }
    var ndim := FromLe(file[at..at + 4]);
    if ndim > MAX_TENSOR_RANK {
      return Err(InvalidShape);
    }
    var shape := ReadShape(file, at + 4, ndim);
    if shape.Err? {
      return Err(shape.error);
    }
    r := ReadPayload(file, dtype, shape.value, at + 4 + 8 * ndim);
  }

  method ReadPayload(file: seq<Octet>, dtype: Text, shape: seq<I64>, at: nat)
    returns (r: Result<(Meta, seq<Octet>), SpillError>)
    ensures r == DecodePayload(file, dtype, shape, at)
  {
    if |file| < at + 8 {
      return Err(UnexpectedEnd);
    }
    Widths();
    LeFromLe(file[at..at + 8]);
    hide FromLe, Le, Pow256;
    var nbytes := FromLe(file[at..at + 8]);
    if nbytes > MAX_SPILL_BYTES {
      return Err(ExcessiveAllocation(nbytes));
    }
    if at + 8 + nbytes != |file| {
      return Err(SizeMismatch(at + 8 + nbytes, |file|));
    }
    return Ok((Meta(dtype, shape, nbytes), file[at + 8..]));
  }
}
