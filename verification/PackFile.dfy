/**
 The pack file: a manifest of named byte ranges, its validation, and positional reads.
 A file is its bytes.
 */
module PackFiles {
  import opened Prelude
  import Crc32

  const PACK_FORMAT_VERSION: nat := 1
  const MAX_TENSOR_BYTES: nat := 64 * 1024 * 1024 * 1024
  const MAX_MANIFEST_TENSORS: nat := 100_000
  const MAX_TENSOR_NAME_BYTES: nat := 4096
  const MAX_DTYPE_BYTES: nat := 128
  const MAX_TENSOR_RANK: nat := 64
  const U64_MAX: nat := 0xFFFF_FFFF_FFFF_FFFF

  /** Names and dtypes enter only through equality and their length in bytes. */
  datatype TensorEntry = TensorEntry(
    name: Name, nameBytes: nat, offset: nat, length: nat, dtypeBytes: nat, shape: seq<int>, checksum: Option<bv32>)

  datatype Manifest = Manifest(version: nat, tensors: seq<TensorEntry>)

  datatype PackError =
    | UnsupportedVersion(version: nat)
    | TooManyTensors(count: nat)
    | EmptyName
    | NameTooLong
    | ExcessiveAllocation(bytes: nat)
    | OffsetOverflow(name: Name)
    | DuplicateTensor(name: Name)
    | InvalidDtype(name: Name)
    | RankTooLarge(name: Name)
    | InvalidShape(name: Name)
    | OverlappingRanges(first: Name, second: Name)
    | OutOfBounds(offset: nat, length: nat, fileSize: nat)
    | UnknownTensor(name: Name)
    | ChecksumMismatch(name: Name, expected: bv32, got: bv32)

  datatype Range = Range(offset: nat, end: nat, name: Name)

  function RangeOf(t: TensorEntry): Range {
    Range(t.offset, t.offset + t.length, t.name)
  }

  /** Some byte position belongs to both ranges. */
  ghost predicate ShareAByte(a: Range, b: Range) {
    exists x: nat :: InRange(a, x) && InRange(b, x)
  }

  predicate InRange(a: Range, x: nat) {
    a.offset <= x < a.end
  }

  lemma {:induction false} SharingIsCrossing(a: Range, b: Range)
    ensures ShareAByte(a, b) <==> a.offset < a.end && b.offset < b.end && a.offset < b.end && b.offset < a.end
  {
    if a.offset < a.end && b.offset < b.end && a.offset < b.end && b.offset < a.end {
      var x := Max(a.offset, b.offset);
      assert InRange(a, x) && InRange(b, x);
    }
  }

  // ----- Sorting and sweeping -----

  predicate KeyLe(a: Range, b: Range) {
    a.offset < b.offset || (a.offset == b.offset && a.end <= b.end)
  }

  ghost predicate Sorted(rs: seq<Range>) {
    forall i, j | 0 <= i < j < |rs| :: KeyLe(rs[i], rs[j])
  }

  ghost predicate Disjoint(rs: seq<Range>) {
    forall i, j | 0 <= i < j < |rs| :: !ShareAByte(rs[i], rs[j])
  }

  /** One insertion: `r` goes in before the first range with a larger key. */
  method InsertSorted(rs: seq<Range>, r: Range) returns (out: seq<Range>)
    requires Sorted(rs)
    ensures Sorted(out) && multiset(out) == multiset(rs) + multiset{r}
  {
    var i := 0;
    while i < |rs| && KeyLe(rs[i], r)
      invariant 0 <= i <= |rs|
      invariant forall j | 0 <= j < i :: KeyLe(rs[j], r)
    {
      i := i + 1;
    }
    out := rs[..i] + [r] + rs[i..];
    assert rs == rs[..i] + rs[i..];
    forall a, b | 0 <= a < b < |out| ensures KeyLe(out[a], out[b]) {
      if a == i {
        assert KeyLe(r, rs[i]);
      }
    }
  }

  /** Some sort by (offset, end); ties end up in an order nothing depends on. */
  method SortRanges(rs: seq<Range>) returns (out: seq<Range>)
    ensures Sorted(out) && multiset(out) == multiset(rs)
  {
    out := [];
    for n := 0 to |rs|
      invariant Sorted(out) && multiset(out) == multiset(rs[..n])
    {
      assert rs[..n + 1] == rs[..n] + [rs[n]];
      out := InsertSorted(out, rs[n]);
    }
    assert rs[..|rs|] == rs;
  }

  /** The furthest end among the non-empty ranges seen, or nothing if all were empty. */
  ghost predicate Furthest(rs: seq<Range>, active: Option<Range>) {
    match active
    case None => forall i | 0 <= i < |rs| :: rs[i].end <= rs[i].offset
    case Some(a) => a in rs && a.offset < a.end && forall i | 0 <= i < |rs| && rs[i].offset < rs[i].end :: rs[i].end <= a.end
  }

  /** One pass over sorted ranges finds two that share a byte exactly when there are two. */
  method Sweep(rs: seq<Range>) returns (overlap: Option<(Range, Range)>)
    requires Sorted(rs)
    ensures overlap.None? <==> Disjoint(rs)
    ensures overlap.Some? ==> overlap.value.0 in rs && overlap.value.1 in rs && ShareAByte(overlap.value.0, overlap.value.1)
  {
    var active: Option<Range> := None;
    for n := 0 to |rs|
      invariant Furthest(rs[..n], active)
      invariant Disjoint(rs[..n])
    {
      var r := rs[n];
      if active.Some? && r.offset < active.value.end && r.offset < r.end {
        var i :| 0 <= i < n && rs[i] == active.value;
        SharingIsCrossing(rs[i], r);
        return Some((active.value, r));
      }
      NextDisjoint(rs, n, active);
      if r.offset < r.end && (active.None? || r.end > active.value.end) {
        active := Some(r);
      }
    }
    assert rs[..|rs|] == rs;
    return None;
  }

  lemma {:induction false} NextDisjoint(rs: seq<Range>, n: nat, active: Option<Range>)
    requires n < |rs| && Furthest(rs[..n], active) && Disjoint(rs[..n])
    requires !(active.Some? && rs[n].offset < active.value.end && rs[n].offset < rs[n].end)
    ensures Disjoint(rs[..n + 1])
  {
    forall i, j | 0 <= i < j < n + 1 ensures !ShareAByte(rs[i], rs[j]) {
      if j < n {
        assert rs[..n][i] == rs[i] && rs[..n][j] == rs[j];
      } else {
        assert rs[..n][i] == rs[i];
        SharingIsCrossing(rs[i], rs[j]);
      }
    }
  }

  /** Two elements taken together from a sequence stand at two different places in it. */
  lemma {:induction false} TwoPlaces(p: seq<Range>, v: Range, w: Range) returns (a: nat, b: nat)
    requires multiset{v, w} <= multiset(p)
    ensures a < |p| && b < |p| && a != b && p[a] == v && p[b] == w
  {
    assert v in multiset(p) && w in multiset(p);
    a :| a < |p| && p[a] == v;
    if v != w {
      b :| b < |p| && p[b] == w;
    } else {
      assert p == p[..a] + [v] + p[a + 1..];
      var rest := p[..a] + p[a + 1..];
      assert multiset(p) == multiset(rest) + multiset{v};
      assert w in multiset(rest);
      var c :| 0 <= c < |rest| && rest[c] == w;
      b := if c < a then c else c + 1;
    }
  }

  /** Whether ranges overlap does not depend on the order they are listed in. */
  lemma {:induction false} DisjointIsOrderFree(p: seq<Range>, q: seq<Range>)
    requires multiset(p) == multiset(q) && Disjoint(p)
    ensures Disjoint(q)
  {
    forall i, j | 0 <= i < j < |q| ensures !ShareAByte(q[i], q[j]) {
      assert q == q[..i] + [q[i]] + q[i + 1..j] + [q[j]] + q[j + 1..];
      assert multiset{q[i], q[j]} <= multiset(q);
      var a, b := TwoPlaces(p, q[i], q[j]);
      if a > b {
        SharingIsCrossing(p[a], p[b]);
        SharingIsCrossing(p[b], p[a]);
      }
    }
  }

  // ----- Validation -----

  ghost predicate EntryOk(t: TensorEntry) {
    && 0 < t.nameBytes <= MAX_TENSOR_NAME_BYTES
    && t.length <= MAX_TENSOR_BYTES
    && t.offset + t.length <= U64_MAX
    && 0 < t.dtypeBytes <= MAX_DTYPE_BYTES
    && |t.shape| <= MAX_TENSOR_RANK
    && forall i | 0 <= i < |t.shape| :: t.shape[i] >= 0
  }

  function Ranges(ts: seq<TensorEntry>): (rs: seq<Range>)
    ensures |rs| == |ts| && forall i | 0 <= i < |ts| :: rs[i] == RangeOf(ts[i])
  {
    seq(|ts|, i requires 0 <= i < |ts| => RangeOf(ts[i]))
  }

  ghost predicate NamesDistinct(ts: seq<TensorEntry>) {
    forall i, j | 0 <= i < j < |ts| :: ts[i].name != ts[j].name
  }

  /** What a manifest must satisfy: sane entries, distinct names, and no byte claimed twice. */
  ghost predicate Acceptable(m: Manifest) {
    && m.version == PACK_FORMAT_VERSION
    && |m.tensors| <= MAX_MANIFEST_TENSORS
    && (forall i | 0 <= i < |m.tensors| :: EntryOk(m.tensors[i]))
    && NamesDistinct(m.tensors)
    && Disjoint(Ranges(m.tensors))
  }

  method NegativeDimension(shape: seq<int>) returns (found: bool)
    ensures found <==> exists i | 0 <= i < |shape| :: shape[i] < 0
  {
    for i := 0 to |shape|
      invariant forall j | 0 <= j < i :: shape[j] >= 0
    {
      if shape[i] < 0 {
        return true;
      }
    }
    return false;
  }

  /** The checks on one entry, in the order they are made; `seen` holds the names before it. */
  method CheckEntry(t: TensorEntry, seen: set<Name>) returns (error: Option<PackError>)
    ensures error.None? <==> EntryOk(t) && t.name !in seen
  {
    if t.nameBytes == 0 {
      return Some(EmptyName);
    }
    if t.nameBytes > MAX_TENSOR_NAME_BYTES {
      return Some(NameTooLong);
    }
    if t.length > MAX_TENSOR_BYTES {
      return Some(ExcessiveAllocation(t.length));
    }
    if t.offset + t.length > U64_MAX {
      return Some(OffsetOverflow(t.name));
    }
    if t.name in seen {
      return Some(DuplicateTensor(t.name));
    }
    if t.dtypeBytes == 0 || t.dtypeBytes > MAX_DTYPE_BYTES {
      return Some(InvalidDtype(t.name));
    }
    if |t.shape| > MAX_TENSOR_RANK {
      return Some(RankTooLarge(t.name));
    }
    var negative := NegativeDimension(t.shape);
    if negative {
      return Some(InvalidShape(t.name));
    }
    return None;
  }

  method CheckEntries(ts: seq<TensorEntry>) returns (error: Option<PackError>)
    ensures error.None? <==> (forall i | 0 <= i < |ts| :: EntryOk(ts[i])) && NamesDistinct(ts)
  {
    var seen: set<Name> := {};
    for n := 0 to |ts|
      invariant forall i | 0 <= i < n :: EntryOk(ts[i]) && ts[i].name in seen
      invariant forall x | x in seen :: exists i | 0 <= i < n :: ts[i].name == x
      invariant forall i, j | 0 <= i < j < n :: ts[i].name != ts[j].name
    {
      error := CheckEntry(ts[n], seen);
      if error.Some? {
        return;
      }
      seen := seen + {ts[n].name};
    }
    return None;
  }

  /** Accepts exactly the acceptable manifests, whatever order the sort leaves equal ranges in. */
  method Validate(m: Manifest) returns (error: Option<PackError>)
    ensures error.None? <==> Acceptable(m)
  {
    if m.version != PACK_FORMAT_VERSION {
      return Some(UnsupportedVersion(m.version));
    }
    if |m.tensors| > MAX_MANIFEST_TENSORS {
      return Some(TooManyTensors(|m.tensors|));
    }
    error := CheckEntries(m.tensors);
    if error.Some? {
      return;
    }
    var sorted := SortRanges(Ranges(m.tensors));
    var overlap := Sweep(sorted);
    if overlap.Some? {
      if Disjoint(Ranges(m.tensors)) {
        DisjointIsOrderFree(Ranges(m.tensors), sorted);
      }
      return Some(OverlappingRanges(overlap.value.0.name, overlap.value.1.name));
    }
    DisjointIsOrderFree(sorted, Ranges(m.tensors));
    return None;
  }

  // ----- Reading -----

  /** An opened pack: the manifest, the file's bytes, and the entry number of each name. */
  datatype Reader = Reader(manifest: Manifest, file: Bytes, index: map<Name, nat>)

  ghost predicate WithinFile(ts: seq<TensorEntry>, fileSize: nat) {
    forall i | 0 <= i < |ts| :: ts[i].offset + ts[i].length <= fileSize
  }

  ghost predicate IndexOf(ts: seq<TensorEntry>, index: map<Name, nat>) {
    && (forall name | name in index :: index[name] < |ts| && ts[index[name]].name == name)
    && (forall i | 0 <= i < |ts| :: ts[i].name in index && index[ts[i].name] == i)
  }

  /** What `open` establishes. */
  ghost predicate Opened(r: Reader) {
    Acceptable(r.manifest) && WithinFile(r.manifest.tensors, |r.file|) && IndexOf(r.manifest.tensors, r.index)
  }

  method Open(file: Bytes, m: Manifest) returns (r: Result<Reader, PackError>)
    ensures r.Ok? <==> Acceptable(m) && WithinFile(m.tensors, |file|)
    ensures r.Ok? ==> Opened(r.value) && r.value.manifest == m && r.value.file == file
  {
    var error := Validate(m);
    if error.Some? {
      return Err(error.value);
    }
    var index: map<Name, nat> := map[];
    for n := 0 to |m.tensors|
      invariant forall i | 0 <= i < n :: m.tensors[i].offset + m.tensors[i].length <= |file|
      invariant forall name | name in index :: index[name] < n && m.tensors[index[name]].name == name
      invariant forall i | 0 <= i < n :: m.tensors[i].name in index && index[m.tensors[i].name] == i
    {
      var t := m.tensors[n];
      if t.offset + t.length > |file| {
        return Err(OutOfBounds(t.offset, t.length, |file|));
      }
      index := index[t.name := n];
    }
    return Ok(Reader(m, file, index));
  }

  /** `pread` with every check it makes. */
  function Pread(r: Reader, name: Name): Result<Bytes, PackError>
    requires forall n | n in r.index :: r.index[n] < |r.manifest.tensors|
  {
    if name !in r.index then Err(UnknownTensor(name))
    else
      var t := r.manifest.tensors[r.index[name]];
      if t.length > MAX_TENSOR_BYTES then Err(ExcessiveAllocation(t.length))
      else if t.offset + t.length > U64_MAX || t.offset + t.length > |r.file| then
        Err(OutOfBounds(t.offset, t.length, |r.file|))
      else
        var data := r.file[t.offset..t.offset + t.length];
        if t.checksum.Some? && Crc32.Checksum(data) != t.checksum.value then
          Err(ChecksumMismatch(name, t.checksum.value, Crc32.Checksum(data)))
        else Ok(data)
  }

  function EntryFor(r: Reader, name: Name): TensorEntry
    requires name in r.index && r.index[name] < |r.manifest.tensors|
  {
    r.manifest.tensors[r.index[name]]
  }

  /** After `open`, a read of a known name returns exactly its range of the file unless the checksum disagrees. */
  lemma {:induction false} OpenedReadsSucceed(r: Reader, name: Name)
    requires Opened(r) && name in r.index
    ensures var t := EntryFor(r, name);
            && t.name == name && t.offset + t.length <= |r.file|
            && var data := r.file[t.offset..t.offset + t.length];
               if t.checksum == None || t.checksum == Some(Crc32.Checksum(data)) then Pread(r, name) == Ok(data)
               else Pread(r, name) == Err(ChecksumMismatch(name, t.checksum.value, Crc32.Checksum(data)))
  {
    hide Crc32.Checksum;
    assert EntryOk(r.manifest.tensors[r.index[name]]);
  }

  /** The file changed only inside the range of one tensor. */
  ghost predicate ChangedOnlyIn(file: Bytes, file': Bytes, t: TensorEntry) {
    |file| == |file'| && forall x | 0 <= x < |file| && !InRange(RangeOf(t), x) :: file'[x] == file[x]
  }

  /** Writing over one tensor's bytes never changes what is read for another. */
  lemma {:induction false} TensorsAreIndependent(r: Reader, file': Bytes, a: Name, b: Name)
    requires Opened(r) && a in r.index && b in r.index && a != b
    requires ChangedOnlyIn(r.file, file', EntryFor(r, a))
    ensures Pread(r.(file := file'), b) == Pread(r, b)
  {
    hide Crc32.Checksum;
    var i, j := r.index[a], r.index[b];
    var s, t := r.manifest.tensors[i], r.manifest.tensors[j];
    var rs := Ranges(r.manifest.tensors);
    assert !ShareAByte(rs[i], rs[j]) by {
      SharingIsCrossing(rs[i], rs[j]);
      SharingIsCrossing(rs[j], rs[i]);
      assert i < j ==> !ShareAByte(rs[i], rs[j]);
      assert j < i ==> !ShareAByte(rs[j], rs[i]);
    }
    forall x | t.offset <= x < t.offset + t.length && x < |r.file| ensures file'[x] == r.file[x] {
      assert InRange(rs[j], x);
      assert !InRange(rs[i], x);
    }
    assert t.offset + t.length <= |r.file|;
    assert file'[t.offset..t.offset + t.length] == r.file[t.offset..t.offset + t.length];
  }

  /** `data` and `data'` agree except within a window of at most four consecutive bytes, where they differ. */
  ghost predicate BurstApart(data: Bytes, data': Bytes, start: nat, width: nat) {
    && |data| == |data'| && width <= 4 && start + width <= |data|
    && data[..start] == data'[..start] && data[start + width..] == data'[start + width..]
    && data != data'
  }

  /** A tensor that has a checksum and reads back now is never silently wrong after a burst of up to four bytes. */
  lemma {:induction false} CorruptionIsReported(r: Reader, file': Bytes, name: Name, start: nat, width: nat)
    requires Opened(r) && name in r.index && EntryFor(r, name).checksum.Some? && Pread(r, name).Ok?
    requires |file'| == |r.file|
    requires var t := EntryFor(r, name);
             && t.offset + t.length <= |r.file|
             && BurstApart(r.file[t.offset..t.offset + t.length], file'[t.offset..t.offset + t.length], start, width)
    ensures Pread(r.(file := file'), name).Err? && Pread(r.(file := file'), name).error.ChecksumMismatch?
  {
    hide Crc32.Checksum;
    var t := EntryFor(r, name);
    assert EntryOk(t);
    hide Acceptable, WithinFile, BurstApart;
    BurstChangesChecksum(r.file[t.offset..t.offset + t.length], file'[t.offset..t.offset + t.length], start, width);
  }

  lemma {:induction false} BurstChangesChecksum(data: Bytes, data': Bytes, start: nat, width: nat)
    requires BurstApart(data, data', start, width)
    ensures Crc32.Checksum(data) != Crc32.Checksum(data')
  {
    hide Crc32.Checksum;
    var s, s' := data[start..start + width], data'[start..start + width];
    assert data == data[..start] + s + data[start + width..];
    assert data' == data[..start] + s' + data[start + width..];
    Crc32.BurstIsDetected(data[..start], s, s', data[start + width..]);
  }
}
