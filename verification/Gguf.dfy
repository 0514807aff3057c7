// Reading the header and tensor directory of a GGUF file.
module Gguf {
  import opened Options
  import opened Utf8

  // What was read and where the next byte is.
  datatype Read<T> = Read(value: T, next: nat)

  datatype Tensor = Tensor(name: seq<Byte>, dims: seq<nat>, kind: nat, offset: nat)

  datatype File = File(version: nat, tensors: seq<Tensor>)

  const MAGIC: nat := 0x46554747
  const MAX_COUNT: nat := 0x10_0000
  const MAX_STRING: nat := 0x10_0000
  const MAX_ARRAY: nat := 0x1000_0000
  const MAX_DIMS: nat := 8

  // ----- little-endian numbers -----

  function Pow(n: nat): (p: nat)
    ensures p > 0
  {
    if n == 0 then 1 else 256 * Pow(n - 1)
  }

  // The i-th byte of v, the lowest first.
  function Digit(v: nat, i: nat): Byte {
    (v / Pow(i) % 256) as Byte
  }

  function Little(v: nat, n: nat): (s: seq<Byte>)
    ensures |s| == n
  {
    seq(n, i requires 0 <= i => Digit(v, i))
  }

  function Value(s: seq<Byte>): nat {
    if s == [] then 0 else s[0] as nat + 256 * Value(s[1..])
  }

  lemma Quotient(v: int, d: int, q: int, r: int)
    requires v == d * q + r && 0 <= r < d
    ensures v / d == q
  {
    var x := v / d;
    assert d * x <= v < d * x + d;
    if x < q { More(d, x + 1, q); }
    if x > q { More(d, q + 1, x); }
  }

  lemma More(d: int, a: int, b: int)
    requires d >= 0 && a <= b
    ensures d * a <= d * b
  {}

  lemma NextDigit(v: nat, i: nat)
    ensures Digit(v, i + 1) == Digit(v / 256, i)
  {
    var b, q := Pow(i), v / 256;
    assert q == b * (q / b) + q % b;
    assert v == 256 * (b * (q / b) + q % b) + v % 256;
    assert v == (256 * b) * (q / b) + (256 * (q % b) + v % 256);
    Quotient(v, 256 * b, q / b, 256 * (q % b) + v % 256);
  }

  lemma {:induction false} LittleRoundTrip(v: nat, n: nat)
    requires v < Pow(n)
    ensures Value(Little(v, n)) == v
  {
    if n > 0 {
      LittleRoundTrip(v / 256, n - 1);
      forall i | 0 <= i < n - 1 ensures Little(v, n)[1..][i] == Little(v / 256, n - 1)[i] {
        NextDigit(v, i);
      }
      assert Little(v, n)[1..] == Little(v / 256, n - 1);
      assert Pow(0) == 1;
      assert Little(v, n)[0] == Digit(v, 0);
    }
  }

  // ----- what the bytes mean -----

  function Number(data: seq<Byte>, pos: nat, n: nat): Option<Read<nat>> {
    if pos + n <= |data| then Some(Read(Value(data[pos..pos + n]), pos + n)) else None
  }

  function Text(data: seq<Byte>, pos: nat): Option<Read<seq<Byte>>> {
    var len := Number(data, pos, 8);
    if len.None? || len.value.value > MAX_STRING then None
    else
      var from, n := len.value.next, len.value.value;
      if from + n <= |data| then Some(Read(data[from..from + n], from + n)) else None
  }

  // Bytes of a value of fixed size, 0 for the others.
  function Width(kind: nat): nat {
    if kind == 0 || kind == 1 || kind == 7 then 1
    else if kind == 2 || kind == 3 then 2
    else if kind == 4 || kind == 5 || kind == 6 then 4
    else if kind == 10 || kind == 11 || kind == 12 then 8
    else 0
  }

  // Where a metadata value ends.
  function Skip(data: seq<Byte>, pos: nat, kind: nat): (r: Option<nat>)
    ensures r.Some? ==> pos < r.value <= |data|
    decreases if pos <= |data| then |data| - pos else 0, 0, 0
  {
    if Width(kind) > 0 then
      if pos + Width(kind) <= |data| then Some(pos + Width(kind)) else None
    else if kind == 8 then
      var s := Text(data, pos);
      if s.Some? then Some(s.value.next) else None
    else if kind == 9 then
      var elem := Number(data, pos, 4);
      var count := Number(data, pos + 4, 8);
      if elem.None? || count.None? || count.value.value > MAX_ARRAY then None
      else SkipMany(data, pos + 12, elem.value.value, count.value.value)
    else None
  }

  function SkipMany(data: seq<Byte>, pos: nat, kind: nat, n: nat): (r: Option<nat>)
    requires pos <= |data|
    ensures r.Some? ==> pos <= r.value <= |data|
    decreases |data| - pos, 1, n
  {
    if n == 0 then Some(pos)
    else
      var one := Skip(data, pos, kind);
      if one.None? then None else SkipMany(data, one.value, kind, n - 1)
  }

  function SkipPairs(data: seq<Byte>, pos: nat, n: nat): (r: Option<nat>)
    requires pos <= |data|
    ensures r.Some? ==> pos <= r.value <= |data|
    decreases n
  {
    if n == 0 then Some(pos)
    else
      var key := Text(data, pos);
      if key.None? then None
      else
        var kind := Number(data, key.value.next, 4);
        if kind.None? then None
        else
          var end := Skip(data, kind.value.next, kind.value.value);
          if end.None? then None else SkipPairs(data, end.value, n - 1)
  }

  function Numbers(data: seq<Byte>, pos: nat, n: nat): (r: Option<Read<seq<nat>>>)
    requires pos <= |data|
    ensures r.Some? ==> pos <= r.value.next <= |data| && |r.value.value| == n
  {
    if n == 0 then Some(Read([], pos))
    else
      var before := Numbers(data, pos, n - 1);
      if before.None? then None
      else
        var last := Number(data, before.value.next, 8);
        if last.None? then None else Some(Read(before.value.value + [last.value.value], last.value.next))
  }

  function OneTensor(data: seq<Byte>, pos: nat): (r: Option<Read<Tensor>>)
    requires pos <= |data|
    ensures r.Some? ==> pos <= r.value.next <= |data|
  {
    var name := Text(data, pos);
    if name.None? then None
    else
      var nd := Number(data, name.value.next, 4);
      if nd.None? || nd.value.value > MAX_DIMS then None
      else
        var dims := Numbers(data, nd.value.next, nd.value.value);
        if dims.None? then None
        else
          var kind := Number(data, dims.value.next, 4);
          if kind.None? then None
          else
            var offset := Number(data, kind.value.next, 8);
            if offset.None? then None
            else Some(Read(Tensor(name.value.value, dims.value.value, kind.value.value, offset.value.value),
                           offset.value.next))
  }

  function Table(data: seq<Byte>, pos: nat, n: nat): (r: Option<Read<seq<Tensor>>>)
    requires pos <= |data|
    ensures r.Some? ==> pos <= r.value.next <= |data|
  {
    if n == 0 then Some(Read([], pos))
    else
      var before := Table(data, pos, n - 1);
      if before.None? then None
      else
        var last := OneTensor(data, before.value.next);
        if last.None? then None else Some(Read(before.value.value + [last.value.value], last.value.next))
  }

  // The whole directory and where it ends.
  function Directory(data: seq<Byte>): Option<Read<File>> {
    var magic, version := Number(data, 0, 4), Number(data, 4, 4);
    var nTensors, nPairs := Number(data, 8, 8), Number(data, 16, 8);
    if nPairs.None? || magic.value.value != MAGIC || !(2 <= version.value.value <= 3)
       || nTensors.value.value > MAX_COUNT || nPairs.value.value > MAX_COUNT then None
    else
      var pairs := SkipPairs(data, 24, nPairs.value.value);
      if pairs.None? then None
      else
        var table := Table(data, pairs.value, nTensors.value.value);
        if table.None? then None else Some(Read(File(version.value.value, table.value.value), table.value.next))
  }

  // ----- the documented encoding -----

  // A metadata value by its type in the format.  Floating point numbers are their bits, and a truth
  // value is its byte, of which the reader takes any.
  datatype Meta =
    | Uint8(n: nat) | Int8(i: int) | Uint16(n: nat) | Int16(i: int) | Uint32(n: nat) | Int32(i: int)
    | Float32(bits: nat) | Bool(byte: nat) | Str(text: seq<Byte>) | Array(elem: nat, items: seq<Meta>)
    | Uint64(n: nat) | Int64(i: int) | Float64(bits: nat)

  datatype Pair = Pair(key: seq<Byte>, value: Meta)

  function Kind(v: Meta): nat {
    match v
    case Uint8(_) => 0
    case Int8(_) => 1
    case Uint16(_) => 2
    case Int16(_) => 3
    case Uint32(_) => 4
    case Int32(_) => 5
    case Float32(_) => 6
    case Bool(_) => 7
    case Str(_) => 8
    case Array(_, _) => 9
    case Uint64(_) => 10
    case Int64(_) => 11
    case Float64(_) => 12
  }

  // Values of their type, within the sizes the reader accepts.
  predicate InBounds(v: Meta) {
    match v
    case Uint8(n) => n < 0x100
    case Int8(i) => -0x80 <= i < 0x80
    case Uint16(n) => n < 0x1_0000
    case Int16(i) => -0x8000 <= i < 0x8000
    case Uint32(n) => n < 0x1_0000_0000
    case Int32(i) => -0x8000_0000 <= i < 0x8000_0000
    case Float32(bits) => bits < 0x1_0000_0000
    case Bool(byte) => byte < 0x100
    case Str(text) => |text| <= 0x10_0000
    case Array(elem, items) =>
      elem < 0x1_0000_0000 && |items| <= 0x1000_0000
      && forall i :: 0 <= i < |items| ==> Kind(items[i]) == elem && InBounds(items[i])
    case Uint64(n) => n < 0x1_0000_0000_0000_0000
    case Int64(i) => -0x8000_0000_0000_0000 <= i < 0x8000_0000_0000_0000
    case Float64(bits) => bits < 0x1_0000_0000_0000_0000
  }

  function Written(s: seq<Byte>): seq<Byte> {
    Little(|s|, 8) + s
  }

  // Numbers are little-endian, the signed ones in two's complement.
  function Encode(v: Meta): seq<Byte> {
    match v
    case Uint8(n) => Little(n, 1)
    case Int8(i) => Little(i % 0x100, 1)
    case Uint16(n) => Little(n, 2)
    case Int16(i) => Little(i % 0x1_0000, 2)
    case Uint32(n) => Little(n, 4)
    case Int32(i) => Little(i % 0x1_0000_0000, 4)
    case Float32(bits) => Little(bits, 4)
    case Bool(byte) => Little(byte, 1)
    case Str(text) => Written(text)
    case Array(elem, items) => Little(elem, 4) + (Little(|items|, 8) + EncodeAll(items))
    case Uint64(n) => Little(n, 8)
    case Int64(i) => Little(i % 0x1_0000_0000_0000_0000, 8)
    case Float64(bits) => Little(bits, 8)
  }

  function EncodeAll(items: seq<Meta>): seq<Byte> {
    if items == [] then [] else Encode(items[0]) + EncodeAll(items[1..])
  }

  function EncodePairs(pairs: seq<Pair>): seq<Byte> {
    if pairs == [] then []
    else Written(pairs[0].key) + (Little(Kind(pairs[0].value), 4) + (Encode(pairs[0].value) + EncodePairs(pairs[1..])))
  }

  function EncodeNumbers(ns: seq<nat>): seq<Byte> {
    if ns == [] then [] else EncodeNumbers(ns[..|ns| - 1]) + Little(ns[|ns| - 1], 8)
  }

  function EncodeTensor(t: Tensor): seq<Byte> {
    Written(t.name) + (Little(|t.dims|, 4) + (EncodeNumbers(t.dims) + (Little(t.kind, 4) + Little(t.offset, 8))))
  }

  function EncodeTable(ts: seq<Tensor>): seq<Byte> {
    if ts == [] then [] else EncodeTable(ts[..|ts| - 1]) + EncodeTensor(ts[|ts| - 1])
  }

  // "GGUF".
  function Letters(): seq<Byte> {
    [0x47, 0x47, 0x55, 0x46]
  }

  function EncodeFile(f: File, pairs: seq<Pair>): seq<Byte> {
    Letters() + EncodeBody(f, pairs)
  }

  function EncodeBody(f: File, pairs: seq<Pair>): seq<Byte> {
    Little(f.version, 4)
    + (Little(|f.tensors|, 8) + (Little(|pairs|, 8) + (EncodePairs(pairs) + EncodeTable(f.tensors))))
  }

  predicate TensorInBounds(t: Tensor) {
    && |t.name| <= 0x10_0000 && |t.dims| <= 8
    && t.kind < 0x1_0000_0000 && t.offset < 0x1_0000_0000_0000_0000
    && forall i :: 0 <= i < |t.dims| ==> t.dims[i] < 0x1_0000_0000_0000_0000
  }

  ghost predicate AllInBounds(ts: seq<Tensor>) {
    ts == [] || (AllInBounds(ts[..|ts| - 1]) && TensorInBounds(ts[|ts| - 1]))
  }

  predicate PairInBounds(p: Pair) {
    |p.key| <= 0x10_0000 && InBounds(p.value)
  }

  ghost predicate PairsInBounds(pairs: seq<Pair>) {
    forall i {:trigger PairInBounds(pairs[i])} :: 0 <= i < |pairs| ==> PairInBounds(pairs[i])
  }

  ghost predicate FileInBounds(f: File, pairs: seq<Pair>) {
    f.version in {2, 3} && |f.tensors| <= 0x10_0000 && |pairs| <= 0x10_0000 && AllInBounds(f.tensors)
    && PairsInBounds(pairs)
  }

  // ----- the reader -----

  // What a read leaves: a latched error if there was one or the bytes run out, else the value and the
  // position the bytes mean.
  ghost predicate Follows<T>(failed: bool, meant: Option<Read<T>>, err: bool, pos: nat, v: T) {
    if failed || meant.None? then err else !err && pos == meant.value.next && v == meant.value.value
  }

  ghost predicate Skipped(failed: bool, meant: Option<nat>, err: bool, pos: nat) {
    if failed || meant.None? then err else !err && pos == meant.value
  }

  class Reader {
    const data: seq<Byte>
    const buf: array<Byte>
    var pos: nat
    var err: bool

    ghost predicate Valid()
      reads this
    {
      pos <= |data| && buf.Length == 8
    }

    constructor (data: seq<Byte>)
      ensures Valid() && this.data == data && pos == 0 && !err && fresh(buf)
    {
      this.data, pos, err := data, 0, false;
      buf := new Byte[8](_ => 0);
    }

    // Up to n bytes into the buffer; what is short of n leaves the rest of it stale and latches the error.
    method Fill(n: nat)
      requires Valid() && n <= 8
      modifies this, buf
      ensures Valid() && old(pos) <= pos
      ensures old(err) ==> err
      ensures !old(err) ==> (err <==> old(pos) + n > |data|)
      ensures !err ==> pos == old(pos) + n && buf[..n] == data[old(pos)..pos]
    {
      if err {
        return;
      }
      var got := if pos + n <= |data| then n else |data| - pos;
      for i := 0 to got
        invariant Valid() && pos == old(pos) && !err
        invariant forall j :: 0 <= j < i ==> buf[j] == data[pos + j]
      {
        buf[i] := data[pos + i];
      }
      pos := pos + got;
      if got < n {
        err := true;
      }
    }

    method U32() returns (v: nat)
      requires Valid()
      modifies this, buf
      ensures Valid() && old(pos) <= pos && Follows(old(err), Number(data, old(pos), 4), err, pos, v)
    {
      Fill(4);
      v := Value(buf[..4]);
    }

    method U64() returns (v: nat)
      requires Valid()
      modifies this, buf
      ensures Valid() && old(pos) <= pos && Follows(old(err), Number(data, old(pos), 8), err, pos, v)
    {
      Fill(8);
      v := Value(buf[..8]);
    }

    method Str() returns (s: seq<Byte>)
      requires Valid()
      modifies this, buf
      ensures Valid() && old(pos) <= pos && Follows(old(err), Text(data, old(pos)), err, pos, s)
    {
      var n := U64();
      if err {
        return [];
      }
      if n > MAX_STRING {
        err := true;
        return [];
      }
      if pos + n > |data| {
        err, pos := true, |data|;
        return [];
      }
      s := data[pos..pos + n];
      pos := pos + n;
    }

    // One metadata value of the given type is passed over.
    method SkipValue(kind: nat)
      requires Valid()
      modifies this, buf
      ensures Valid() && old(pos) <= pos && Skipped(old(err), Skip(data, old(pos), kind), err, pos)
      decreases |data| - pos
    {
      if err {
        return;
      }
      if kind == 0 || kind == 1 || kind == 7 {
        Fill(1);
      } else if kind == 2 || kind == 3 {
        Fill(2);
      } else if kind == 4 || kind == 5 || kind == 6 {
        Fill(4);
      } else if kind == 10 || kind == 11 || kind == 12 {
        Fill(8);
      } else if kind == 8 {
        var s := Str();
      } else if kind == 9 {
        var elem := U32();
        var n := U64();
        if err {
          return;
        }
        if n > MAX_ARRAY {
          err := true;
          return;
        }
        ghost var from := pos;
        var i := 0;
        while i < n && !err
          invariant Valid() && from <= pos && i <= n && from > old(pos)
          invariant if err then SkipMany(data, from, elem, n).None?
                    else SkipMany(data, from, elem, n) == SkipMany(data, pos, elem, n - i)
          decreases n - i
        {
          SkipValue(elem);
          i := i + 1;
        }
      } else {
        err := true;
      }
    }
  }

  // One entry of the tensor table; `many` when it claims too many dimensions.
  method ReadTensor(br: Reader) returns (many: bool, t: Tensor)
    requires br.Valid()
    modifies br, br.buf
    ensures br.Valid() && old(br.pos) <= br.pos
    ensures if many then old(br.err) || OneTensor(br.data, old(br.pos)).None?
            else Follows(old(br.err), OneTensor(br.data, old(br.pos)), br.err, br.pos, t)
  {
    var name := br.Str();
    var nd := br.U32();
    if nd > MAX_DIMS {
      return true, Tensor(name, [], 0, 0);
    }
    many := false;
    ghost var from, failed := br.pos, br.err;
    var dims: seq<nat> := [];
    for d := 0 to nd
      invariant br.Valid() && from <= br.pos && |dims| == d
      invariant Follows(failed, Numbers(br.data, from, d), br.err, br.pos, dims)
    {
      var dim := br.U64();
      dims := dims + [dim];
    }
    var kind := br.U32();
    var offset := br.U64();
    t := Tensor(name, dims, kind, offset);
  }

  // The bytes begin with the encoding of f, whatever its metadata.
  ghost predicate BeginsWith(data: seq<Byte>, f: File) {
    exists pairs {:trigger FileInBounds(f, pairs)} :: FileInBounds(f, pairs) && At(data, 0, EncodeFile(f, pairs))
  }

  // The one directory the bytes begin with, or an error when they begin with none.
  method ReadFile(data: seq<Byte>) returns (r: Option<File>)
    ensures forall f {:trigger BeginsWith(data, f)} :: BeginsWith(data, f) <==> r == Some(f)
  {
    r := ReadDirectory(data);
    forall f ensures BeginsWith(data, f) <==> r == Some(f) {
      BeginsWithIsRead(data, f);
    }
  }

  lemma BeginsWithIsRead(data: seq<Byte>, f: File)
    ensures BeginsWith(data, f) <==> Directory(data).Some? && Directory(data).value.value == f
  {
    if BeginsWith(data, f) {
      var pairs :| FileInBounds(f, pairs) && At(data, 0, EncodeFile(f, pairs));
      DirectoryRoundTrip(f, pairs, data);
    }
    if Directory(data).Some? {
      var pairs := DirectoryRead(data);
      assert BeginsWith(data, Directory(data).value.value);
    }
  }

  method ReadDirectory(data: seq<Byte>) returns (r: Option<File>)
    ensures r == match Directory(data) case None => None case Some(d) => Some(d.value)
  {
    var br := new Reader(data);
    var magic := br.U32();
    if magic != MAGIC {
      return None;
    }
    var version := br.U32();
    if version < 2 || version > 3 {
      return None;
    }
    var nTensors := br.U64();
    var nPairs := br.U64();
    if br.err {
      return None;
    }
    if nTensors > MAX_COUNT || nPairs > MAX_COUNT {
      return None;
    }
    SkipMetadata(br, nPairs);
    if br.err {
      return None;
    }
    var ok, tensors := ReadTable(br, nTensors);
    if !ok {
      return None;
    }
    r := Some(File(version, tensors));
  }

  method SkipMetadata(br: Reader, n: nat)
    requires br.Valid() && !br.err
    modifies br, br.buf
    ensures br.Valid() && Skipped(false, SkipPairs(br.data, old(br.pos), n), br.err, br.pos)
  {
    ghost var from := br.pos;
    var i := 0;
    while i < n && !br.err
      invariant br.Valid() && i <= n
      invariant if br.err then SkipPairs(br.data, from, n).None?
                else SkipPairs(br.data, from, n) == SkipPairs(br.data, br.pos, n - i)
      decreases n - i
    {
      var key := br.Str();
      var kind := br.U32();
      br.SkipValue(kind);
      i := i + 1;
    }
  }

  method ReadTable(br: Reader, n: nat) returns (ok: bool, tensors: seq<Tensor>)
    requires br.Valid() && !br.err
    modifies br, br.buf
    ensures ok <==> Table(br.data, old(br.pos), n).Some?
    ensures ok ==> tensors == Table(br.data, old(br.pos), n).value.value
  {
    ghost var from := br.pos;
    var i := 0;
    tensors := [];
    while i < n && !br.err
      invariant br.Valid() && i <= n
      invariant Follows(false, Table(br.data, from, i), br.err, br.pos, tensors)
      decreases n - i
    {
      var many, t := ReadTensor(br);
      if many {
        TableStops(br.data, from, i + 1, n);
        return false, [];
      }
      tensors := tensors + [t];
      i := i + 1;
    }
    ok := !br.err;
    if br.err {
      TableStops(br.data, from, i, n);
    }
  }

  lemma {:induction false} TableStops(data: seq<Byte>, pos: nat, i: nat, n: nat)
    requires pos <= |data| && i <= n && Table(data, pos, i).None?
    ensures Table(data, pos, n).None?
  {
    if i < n { TableStops(data, pos, i, n - 1); }
  }

  // ----- the encoding read back -----

  ghost predicate Is<T>(r: Option<Read<T>>, v: T, next: nat) {
    r.Some? && r.value.value == v && r.value.next == next
  }

  ghost predicate At(data: seq<Byte>, pos: nat, bytes: seq<Byte>) {
    pos + |bytes| <= |data| && data[pos..pos + |bytes|] == bytes
  }

  // The same as a function value, so that the proofs below carry it without its slices.
  type Sight = (nat, seq<Byte>) -> bool

  ghost predicate Sees(data: seq<Byte>, at: Sight) {
    forall pos: nat, bytes: seq<Byte> {:trigger At(data, pos, bytes)} :: at(pos, bytes) <==> At(data, pos, bytes)
  }

  lemma {:induction false} AtBoth(data: seq<Byte>, at: Sight, pos: nat, a: seq<Byte>, b: seq<Byte>)
    requires Sees(data, at) && at(pos, a + b)
    ensures at(pos, a) && at(pos + |a|, b) && pos + |a| + |b| <= |data|
  {
    assert At(data, pos, a + b) <==> at(pos, a + b);
    assert At(data, pos, a) <==> at(pos, a);
    assert At(data, pos + |a|, b) <==> at(pos + |a|, b);
    assert data[pos..pos + |a|] == (a + b)[..|a|];
    assert data[pos + |a|..pos + |a| + |b|] == (a + b)[|a|..];
  }

  lemma {:induction false} NumberAt(data: seq<Byte>, at: Sight, pos: nat, v: nat, n: nat)
    requires Sees(data, at) && v < Pow(n) && at(pos, Little(v, n))
    ensures Is(Number(data, pos, n), v, pos + n)
  {
    assert At(data, pos, Little(v, n)) <==> at(pos, Little(v, n));
    LittleRoundTrip(v, n);
  }

  lemma {:induction false} Pows()
    ensures Pow(4) == 0x1_0000_0000 && Pow(8) == 0x1_0000_0000_0000_0000
  {
    assert Pow(1) == 256 && Pow(2) == 0x1_0000 && Pow(3) == 0x100_0000;
    assert Pow(5) == 256 * Pow(4) && Pow(6) == 256 * Pow(5) && Pow(7) == 256 * Pow(6);
  }

  lemma {:induction false} TextAt(data: seq<Byte>, at: Sight, pos: nat, s: seq<Byte>)
    requires Sees(data, at) && |s| <= MAX_STRING && at(pos, Written(s))
    ensures Is(Text(data, pos), s, pos + |Written(s)|)
  {
    Pows();
    AtBoth(data, at, pos, Little(|s|, 8), s);
    NumberAt(data, at, pos, |s|, 8);
    assert At(data, pos + 8, s) <==> at(pos + 8, s);
  }

  lemma {:induction false} SkipAt(data: seq<Byte>, at: Sight, pos: nat, v: Meta)
    requires Sees(data, at) && InBounds(v) && at(pos, Encode(v))
    ensures Skip(data, pos, Kind(v)) == Some(pos + |Encode(v)|)
    decreases v, 1, 0
  {
    match v
    case Str(text) => TextAt(data, at, pos, text);
    case Array(elem, items) =>
      Pows();
      AtBoth(data, at, pos, Little(elem, 4), Little(|items|, 8) + EncodeAll(items));
      AtBoth(data, at, pos + 4, Little(|items|, 8), EncodeAll(items));
      NumberAt(data, at, pos, elem, 4);
      NumberAt(data, at, pos + 4, |items|, 8);
      SkipManyAt(data, at, pos + 12, elem, items, v);
    case _ => assert At(data, pos, Encode(v)) <==> at(pos, Encode(v));
  }

  lemma {:induction false} SkipManyAt(data: seq<Byte>, at: Sight, pos: nat, elem: nat, items: seq<Meta>, whole: Meta)
    requires whole.Array? && |items| <= |whole.items| && items == whole.items[|whole.items| - |items|..]
    requires forall i :: 0 <= i < |items| ==> Kind(items[i]) == elem && InBounds(items[i])
    requires Sees(data, at) && pos <= |data| && at(pos, EncodeAll(items))
    ensures SkipMany(data, pos, elem, |items|) == Some(pos + |EncodeAll(items)|)
    decreases whole, 0, |items|
  {
    if items != [] {
      AtBoth(data, at, pos, Encode(items[0]), EncodeAll(items[1..]));
      assert items[0] == whole.items[|whole.items| - |items|];
      SkipAt(data, at, pos, items[0]);
      SkipManyAt(data, at, pos + |Encode(items[0])|, elem, items[1..], whole);
    }
  }

  lemma {:induction false} KindFits(v: Meta)
    requires InBounds(v)
    ensures Kind(v) < Pow(4)
  {
    Pows();
  }

  lemma {:induction false} PairsSplit(data: seq<Byte>, at: Sight, pos: nat, pairs: seq<Pair>)
    requires Sees(data, at) && pairs != [] && at(pos, EncodePairs(pairs))
    requires |pairs[0].key| <= MAX_STRING && InBounds(pairs[0].value)
    ensures var p := pos + |Written(pairs[0].key)|;
            var end := p + 4 + |Encode(pairs[0].value)|;
            && at(end, EncodePairs(pairs[1..])) && end <= |data|
            && |EncodePairs(pairs)| == end - pos + |EncodePairs(pairs[1..])|
            && Is(Text(data, pos), pairs[0].key, p) && Is(Number(data, p, 4), Kind(pairs[0].value), p + 4)
            && Skip(data, p + 4, Kind(pairs[0].value)) == Some(end)
  {
    var key, value, rest := pairs[0].key, pairs[0].value, EncodePairs(pairs[1..]);
    AtBoth(data, at, pos, Written(key), Little(Kind(value), 4) + (Encode(value) + rest));
    TextAt(data, at, pos, key);
    var p := pos + |Written(key)|;
    AtBoth(data, at, p, Little(Kind(value), 4), Encode(value) + rest);
    KindFits(value);
    NumberAt(data, at, p, Kind(value), 4);
    AtBoth(data, at, p + 4, Encode(value), rest);
    SkipAt(data, at, p + 4, value);
  }

  lemma {:induction false} SkipPairsStep(data: seq<Byte>, pos: nat, n: nat, key: Read<seq<Byte>>, kind: Read<nat>,
                                         end: nat)
    requires pos <= |data| && n > 0 && Text(data, pos) == Some(key) && Number(data, key.next, 4) == Some(kind)
    requires Skip(data, kind.next, kind.value) == Some(end)
    ensures SkipPairs(data, pos, n) == SkipPairs(data, end, n - 1)
  {}

  lemma {:induction false} PairsFirst(data: seq<Byte>, at: Sight, pos: nat, pairs: seq<Pair>, end: nat)
    requires Sees(data, at) && pos <= |data| && pairs != [] && PairInBounds(pairs[0]) && at(pos, EncodePairs(pairs))
    requires end == pos + |Written(pairs[0].key)| + 4 + |Encode(pairs[0].value)|
    ensures end <= |data| && at(end, EncodePairs(pairs[1..]))
            && pos + |EncodePairs(pairs)| == end + |EncodePairs(pairs[1..])|
    ensures SkipPairs(data, pos, |pairs|) == SkipPairs(data, end, |pairs| - 1)
  {
    PairsSplit(data, at, pos, pairs);
    var p := pos + |Written(pairs[0].key)|;
    SkipPairsStep(data, pos, |pairs|, Text(data, pos).value, Number(data, p, 4).value, end);
  }

  lemma {:induction false} PairsTail(pairs: seq<Pair>)
    requires PairsInBounds(pairs) && pairs != []
    ensures PairInBounds(pairs[0]) && PairsInBounds(pairs[1..])
  {
    assert PairInBounds(pairs[0]);
    forall i | 0 <= i < |pairs| - 1 ensures PairInBounds(pairs[1..][i]) { assert PairInBounds(pairs[i + 1]); }
  }

  // Where some pairs end, as a function value.
  type Passing = (nat, nat) -> Option<nat>

  ghost predicate Passes(data: seq<Byte>, past: Passing) {
    forall pos: nat, n: nat {:trigger SkipPairs(data, pos, n)} ::
      pos <= |data| ==> past(pos, n) == SkipPairs(data, pos, n)
  }

  lemma {:induction false} PairsAt(data: seq<Byte>, at: Sight, pos: nat, pairs: seq<Pair>)
    requires PairsInBounds(pairs) && Sees(data, at) && pos <= |data| && at(pos, EncodePairs(pairs))
    ensures SkipPairs(data, pos, |pairs|) == Some(pos + |EncodePairs(pairs)|)
  {
    var past: Passing := (pos: nat, n: nat) => if pos <= |data| then SkipPairs(data, pos, n) else None;
    PairsPassed(data, at, past, pos, pairs);
    assert past(pos, |pairs|) == SkipPairs(data, pos, |pairs|);
  }

  lemma {:induction false} PairsPassed(data: seq<Byte>, at: Sight, past: Passing, pos: nat, pairs: seq<Pair>)
    requires PairsInBounds(pairs) && Sees(data, at) && Passes(data, past)
    requires pos <= |data| && at(pos, EncodePairs(pairs))
    ensures past(pos, |pairs|) == Some(pos + |EncodePairs(pairs)|)
    decreases |pairs|
  {
    if pairs == [] {
      NoPairsPassed(data, past, pos);
    } else {
      PairsTail(pairs);
      var end := OnePassed(data, at, past, pos, pairs);
      PairsPassed(data, at, past, end, pairs[1..]);
    }
  }

  lemma NoPairsPassed(data: seq<Byte>, past: Passing, pos: nat)
    requires Passes(data, past) && pos <= |data|
    ensures past(pos, 0) == Some(pos)
  {
    assert past(pos, 0) == SkipPairs(data, pos, 0);
  }

  lemma {:induction false} OnePassed(data: seq<Byte>, at: Sight, past: Passing, pos: nat, pairs: seq<Pair>)
    returns (end: nat)
    requires Sees(data, at) && Passes(data, past) && pairs != [] && PairInBounds(pairs[0])
    requires pos <= |data| && at(pos, EncodePairs(pairs))
    ensures end <= |data| && at(end, EncodePairs(pairs[1..]))
    ensures pos + |EncodePairs(pairs)| == end + |EncodePairs(pairs[1..])|
    ensures past(pos, |pairs|) == past(end, |pairs| - 1)
  {
    end := pos + |Written(pairs[0].key)| + 4 + |Encode(pairs[0].value)|;
    PairsFirst(data, at, pos, pairs, end);
    assert past(pos, |pairs|) == SkipPairs(data, pos, |pairs|);
    assert past(end, |pairs| - 1) == SkipPairs(data, end, |pairs| - 1);
  }

  lemma {:induction false} NumbersSplit(data: seq<Byte>, at: Sight, pos: nat, ns: seq<nat>)
    requires Sees(data, at) && ns != [] && at(pos, EncodeNumbers(ns)) && ns[|ns| - 1] < Pow(8)
    ensures var before := EncodeNumbers(ns[..|ns| - 1]);
            && at(pos, before) && |EncodeNumbers(ns)| == |before| + 8
            && Is(Number(data, pos + |before|, 8), ns[|ns| - 1], pos + |before| + 8)
  {
    var n := |ns| - 1;
    AtBoth(data, at, pos, EncodeNumbers(ns[..n]), Little(ns[n], 8));
    NumberAt(data, at, pos + |EncodeNumbers(ns[..n])|, ns[n], 8);
  }

  lemma {:induction false} NumbersAt(data: seq<Byte>, at: Sight, pos: nat, ns: seq<nat>)
    requires Sees(data, at) && pos <= |data| && (forall i :: 0 <= i < |ns| ==> ns[i] < Pow(8))
             && at(pos, EncodeNumbers(ns))
    ensures Is(Numbers(data, pos, |ns|), ns, pos + |EncodeNumbers(ns)|)
  {
    if ns != [] {
      var n := |ns| - 1;
      NumbersSplit(data, at, pos, ns);
      NumbersAt(data, at, pos, ns[..n]);
      assert ns == ns[..n] + [ns[n]];
    }
  }

  // The parts of an encoded tensor, where they are.
  lemma {:induction false} TensorParts(data: seq<Byte>, at: Sight, pos: nat, t: Tensor)
    requires Sees(data, at) && TensorInBounds(t) && at(pos, EncodeTensor(t))
    ensures var p := pos + |Written(t.name)|;
            var q := p + 4 + |EncodeNumbers(t.dims)|;
            && at(pos, Written(t.name)) && at(p, Little(|t.dims|, 4)) && at(p + 4, EncodeNumbers(t.dims))
            && at(q, Little(t.kind, 4)) && at(q + 4, Little(t.offset, 8)) && q + 12 <= |data|
            && |EncodeTensor(t)| == q + 12 - pos
  {
    var dims, last := EncodeNumbers(t.dims), Little(t.kind, 4) + Little(t.offset, 8);
    AtBoth(data, at, pos, Written(t.name), Little(|t.dims|, 4) + (dims + last));
    var p := pos + |Written(t.name)|;
    AtBoth(data, at, p, Little(|t.dims|, 4), dims + last);
    AtBoth(data, at, p + 4, dims, last);
    AtBoth(data, at, p + 4 + |dims|, Little(t.kind, 4), Little(t.offset, 8));
  }

  lemma {:induction false} TensorAt(data: seq<Byte>, at: Sight, pos: nat, t: Tensor)
    requires Sees(data, at) && pos <= |data| && TensorInBounds(t) && at(pos, EncodeTensor(t))
    ensures Is(OneTensor(data, pos), t, pos + |EncodeTensor(t)|)
  {
    Pows();
    TensorParts(data, at, pos, t);
    TextAt(data, at, pos, t.name);
    var p := pos + |Written(t.name)|;
    NumberAt(data, at, p, |t.dims|, 4);
    NumbersAt(data, at, p + 4, t.dims);
    var q := p + 4 + |EncodeNumbers(t.dims)|;
    NumberAt(data, at, q, t.kind, 4);
    NumberAt(data, at, q + 4, t.offset, 8);
  }

  lemma {:induction false} TableStep(data: seq<Byte>, pos: nat, before: seq<Tensor>, last: Tensor, p: nat, end: nat)
    requires pos <= |data| && p <= |data|
    requires Is(Table(data, pos, |before|), before, p) && Is(OneTensor(data, p), last, end)
    ensures Is(Table(data, pos, |before| + 1), before + [last], end)
  {}

  // before, and then one tensor more.
  lemma {:induction false} TableGrown(data: seq<Byte>, at: Sight, pos: nat, before: seq<Tensor>, last: Tensor)
    requires Sees(data, at) && pos <= |data| && TensorInBounds(last)
             && at(pos, EncodeTable(before) + EncodeTensor(last))
    requires Is(Table(data, pos, |before|), before, pos + |EncodeTable(before)|)
    ensures Is(Table(data, pos, |before| + 1), before + [last], pos + |EncodeTable(before)| + |EncodeTensor(last)|)
  {
    AtBoth(data, at, pos, EncodeTable(before), EncodeTensor(last));
    var p := pos + |EncodeTable(before)|;
    TensorAt(data, at, p, last);
    TableStep(data, pos, before, last, p, p + |EncodeTensor(last)|);
  }

  lemma {:induction false} TableAt(data: seq<Byte>, at: Sight, pos: nat, ts: seq<Tensor>)
    requires Sees(data, at) && pos <= |data| && AllInBounds(ts) && at(pos, EncodeTable(ts))
    ensures Is(Table(data, pos, |ts|), ts, pos + |EncodeTable(ts)|)
  {
    if ts != [] {
      var before, last := ts[..|ts| - 1], ts[|ts| - 1];
      AtBoth(data, at, pos, EncodeTable(before), EncodeTensor(last));
      TableAt(data, at, pos, before);
      TableGrown(data, at, pos, before, last);
      assert ts == before + [last];
    }
  }

  lemma {:induction false} Looks(data: seq<Byte>) returns (at: Sight)
    ensures Sees(data, at)
  {
    at := (pos: nat, bytes: seq<Byte>) => At(data, pos, bytes);
  }

  lemma MagicIsLetters()
    ensures Little(MAGIC, 4) == Letters()
  {
    assert Pow(1) == 256 && Pow(2) == 0x1_0000 && Pow(3) == 0x100_0000;
    assert Digit(MAGIC, 0) == 0x47 && Digit(MAGIC, 1) == 0x47 && Digit(MAGIC, 2) == 0x55 && Digit(MAGIC, 3) == 0x46;
  }

  // The header's four numbers, and where the pairs and the table are.
  lemma {:induction false} HeaderAt(data: seq<Byte>, at: Sight, f: File, pairs: seq<Pair>)
    requires Sees(data, at) && FileInBounds(f, pairs) && at(0, EncodeFile(f, pairs))
    ensures Is(Number(data, 0, 4), MAGIC, 4) && Is(Number(data, 4, 4), f.version, 8)
    ensures Is(Number(data, 8, 8), |f.tensors|, 16) && Is(Number(data, 16, 8), |pairs|, 24)
    ensures at(24, EncodePairs(pairs)) && at(24 + |EncodePairs(pairs)|, EncodeTable(f.tensors))
    ensures |EncodeFile(f, pairs)| == 24 + |EncodePairs(pairs)| + |EncodeTable(f.tensors)| <= |data|
  {
    Pows();
    var body := EncodePairs(pairs) + EncodeTable(f.tensors);
    MagicIsLetters();
    AtBoth(data, at, 0, Letters(),
           Little(f.version, 4) + (Little(|f.tensors|, 8) + (Little(|pairs|, 8) + body)));
    AtBoth(data, at, 4, Little(f.version, 4), Little(|f.tensors|, 8) + (Little(|pairs|, 8) + body));
    AtBoth(data, at, 8, Little(|f.tensors|, 8), Little(|pairs|, 8) + body);
    AtBoth(data, at, 16, Little(|pairs|, 8), body);
    AtBoth(data, at, 24, EncodePairs(pairs), EncodeTable(f.tensors));
    NumberAt(data, at, 0, MAGIC, 4);
    NumberAt(data, at, 4, f.version, 4);
    NumberAt(data, at, 8, |f.tensors|, 8);
    NumberAt(data, at, 16, |pairs|, 8);
  }

  lemma {:induction false} DirectoryIs(data: seq<Byte>, version: nat, nTensors: nat, nPairs: nat, p: nat,
                                       tensors: seq<Tensor>, end: nat)
    requires Is(Number(data, 0, 4), MAGIC, 4) && Is(Number(data, 4, 4), version, 8) && 2 <= version <= 3
    requires Is(Number(data, 8, 8), nTensors, 16) && Is(Number(data, 16, 8), nPairs, 24)
    requires nTensors <= MAX_COUNT && nPairs <= MAX_COUNT
    requires SkipPairs(data, 24, nPairs) == Some(p) && Is(Table(data, p, nTensors), tensors, end)
    ensures Is(Directory(data), File(version, tensors), end)
  {}

  // A file that starts with the encoding of a directory reads back as that directory, whatever
  // metadata it carries and whatever follows.
  lemma {:induction false} DirectoryRoundTrip(f: File, pairs: seq<Pair>, data: seq<Byte>)
    requires FileInBounds(f, pairs) && At(data, 0, EncodeFile(f, pairs))
    ensures Is(Directory(data), f, |EncodeFile(f, pairs)|)
  {
    var at := Looks(data);
    assert at(0, EncodeFile(f, pairs)) <==> At(data, 0, EncodeFile(f, pairs));
    DirectoryAt(data, at, f, pairs);
  }

  lemma {:induction false} DirectoryAt(data: seq<Byte>, at: Sight, f: File, pairs: seq<Pair>)
    requires Sees(data, at) && FileInBounds(f, pairs) && at(0, EncodeFile(f, pairs))
    ensures Is(Directory(data), f, |EncodeFile(f, pairs)|)
  {
    HeaderAt(data, at, f, pairs);
    PairsAt(data, at, 24, pairs);
    TableAt(data, at, 24 + |EncodePairs(pairs)|, f.tensors);
    DirectoryIs(data, f.version, |f.tensors|, |pairs|, 24 + |EncodePairs(pairs)|, f.tensors, |EncodeFile(f, pairs)|);
  }

  // ----- whatever was read was the encoding of it -----

  lemma {:induction false} ValueRoundTrip(s: seq<Byte>)
    ensures Value(s) < Pow(|s|) && Little(Value(s), |s|) == s
  {
    if s != [] {
      var v, rest := Value(s), s[1..];
      ValueRoundTrip(rest);
      assert v / 256 == Value(rest) && v % 256 == s[0] as nat;
      assert Pow(0) == 1;
      forall i | 0 <= i < |s| ensures Little(v, |s|)[i] == s[i] {
        if i > 0 {
          NextDigit(v, i - 1);
          assert Little(Value(rest), |rest|)[i - 1] == rest[i - 1];
        }
      }
    }
  }

  lemma Joins(data: seq<Byte>, at: Sight, pos: nat, a: seq<Byte>, b: seq<Byte>)
    requires Sees(data, at)
    requires at(pos, a) && at(pos + |a|, b)
    ensures at(pos, a + b)
  {
    assert At(data, pos, a) <==> at(pos, a);
    assert At(data, pos + |a|, b) <==> at(pos + |a|, b);
    assert At(data, pos, a + b) <==> at(pos, a + b);
    assert data[pos..pos + |a + b|] == data[pos..pos + |a|] + data[pos + |a|..pos + |a| + |b|];
  }

  lemma NothingAt(data: seq<Byte>, at: Sight, pos: nat)
    requires Sees(data, at) && pos <= |data|
    ensures at(pos, [])
  {
    assert At(data, pos, []) <==> at(pos, []);
  }

  lemma JoinsFive(data: seq<Byte>, at: Sight, pos: nat, a: seq<Byte>, b: seq<Byte>, c: seq<Byte>, d: seq<Byte>,
                  e: seq<Byte>)
    requires Sees(data, at)
    requires at(pos, a) && at(pos + |a|, b) && at(pos + |a| + |b|, c)
    requires at(pos + |a| + |b| + |c|, d) && at(pos + |a| + |b| + |c| + |d|, e)
    ensures at(pos, a + (b + (c + (d + e))))
    ensures |a + (b + (c + (d + e)))| == |a| + |b| + |c| + |d| + |e|
  {
    Joins(data, at, pos + |a| + |b| + |c|, d, e);
    Joins(data, at, pos + |a| + |b|, c, d + e);
    Joins(data, at, pos + |a|, b, c + (d + e));
    Joins(data, at, pos, a, b + (c + (d + e)));
  }

  lemma NumberRead(data: seq<Byte>, at: Sight, pos: nat, n: nat)
    requires Sees(data, at)
    requires Number(data, pos, n).Some?
    ensures Number(data, pos, n).value.value < Pow(n) && at(pos, Little(Number(data, pos, n).value.value, n))
  {
    ValueRoundTrip(data[pos..pos + n]);
    var bytes := Little(Number(data, pos, n).value.value, n);
    assert At(data, pos, bytes) <==> at(pos, bytes);
  }

  lemma TextRead(data: seq<Byte>, at: Sight, pos: nat)
    requires Sees(data, at)
    requires Text(data, pos).Some?
    ensures var s := Text(data, pos).value;
            |s.value| <= 0x10_0000 && at(pos, Written(s.value)) && s.next == pos + |Written(s.value)|
  {
    NumberRead(data, at, pos, 8);
    assert At(data, pos + 8, Text(data, pos).value.value) <==> at(pos + 8, Text(data, pos).value.value);
    Joins(data, at, pos, Little(Number(data, pos, 8).value.value, 8), Text(data, pos).value.value);
  }

  // The number whose two's complement is u.
  function Signed(u: nat, modulus: int): int {
    if 2 * u < modulus then u else u - modulus
  }

  lemma SignedBack(u: nat, modulus: int)
    requires u < modulus
    ensures Signed(u, modulus) % modulus == u
  {
    if 2 * u < modulus {
      SmallRemainder(u, modulus);
    } else {
      WrappedRemainder(u, modulus);
    }
  }

  lemma SmallRemainder(u: nat, modulus: int)
    requires u < modulus
    ensures u % modulus == u
  {
  }

  lemma WrappedRemainder(u: nat, modulus: int)
    requires u < modulus
    ensures (u - modulus) % modulus == u
  {
    assert (u - modulus) % modulus == (u - modulus + modulus) % modulus;
  }

  lemma {:induction false} ScalarRead(data: seq<Byte>, at: Sight, pos: nat, kind: nat) returns (v: Meta)
    requires Sees(data, at)
    requires Skip(data, pos, kind).Some? && kind != 8 && kind != 9
    ensures Kind(v) == kind && InBounds(v) && at(pos, Encode(v))
    ensures Skip(data, pos, kind) == Some(pos + |Encode(v)|)
  {
    Pows();
    assert Pow(0) == 1 && Pow(1) == 256 && Pow(2) == 0x1_0000;
    NumberRead(data, at, pos, Width(kind));
    var u := Number(data, pos, Width(kind)).value.value;
    if kind in {1, 3, 5, 11} {
      SignedBack(u, Pow(Width(kind)));
    }
    v := match kind
      case 0 => Uint8(u)
      case 1 => Int8(Signed(u, 0x100))
      case 2 => Uint16(u)
      case 3 => Int16(Signed(u, 0x1_0000))
      case 4 => Uint32(u)
      case 5 => Int32(Signed(u, 0x1_0000_0000))
      case 6 => Float32(u)
      case 7 => Bool(u)
      case 10 => Uint64(u)
      case 11 => Int64(Signed(u, 0x1_0000_0000_0000_0000))
      case _ => Float64(u);
  }

  lemma {:induction false} ValueRead(data: seq<Byte>, at: Sight, pos: nat, kind: nat) returns (v: Meta)
    requires Sees(data, at)
    requires Skip(data, pos, kind).Some?
    ensures Kind(v) == kind && InBounds(v) && at(pos, Encode(v))
    ensures Skip(data, pos, kind) == Some(pos + |Encode(v)|)
    decreases if pos <= |data| then |data| - pos else 0, 0, 0
  {
    if kind == 8 {
      TextRead(data, at, pos);
      v := Str(Text(data, pos).value.value);
    } else if kind == 9 {
      Pows();
      NumberRead(data, at, pos, 4);
      NumberRead(data, at, pos + 4, 8);
      var elem, n := Number(data, pos, 4).value.value, Number(data, pos + 4, 8).value.value;
      var items := ValuesRead(data, at, pos + 12, elem, n);
      v := Array(elem, items);
      Joins(data, at, pos + 4, Little(n, 8), EncodeAll(items));
      Joins(data, at, pos, Little(elem, 4), Little(n, 8) + EncodeAll(items));
    } else {
      v := ScalarRead(data, at, pos, kind);
    }
  }

  lemma {:induction false} ValuesRead(data: seq<Byte>, at: Sight, pos: nat, kind: nat, n: nat)
    returns (items: seq<Meta>)
    requires Sees(data, at)
    requires pos <= |data| && SkipMany(data, pos, kind, n).Some?
    ensures |items| == n && forall i :: 0 <= i < n ==> Kind(items[i]) == kind && InBounds(items[i])
    ensures at(pos, EncodeAll(items)) && SkipMany(data, pos, kind, n) == Some(pos + |EncodeAll(items)|)
    decreases |data| - pos, 1, n
  {
    items := [];
    if n == 0 {
      NothingAt(data, at, pos);
    } else {
      var v := ValueRead(data, at, pos, kind);
      var rest := ValuesRead(data, at, pos + |Encode(v)|, kind, n - 1);
      items := [v] + rest;
      ItemsFirst(data, at, pos, v, rest);
    }
  }

  lemma ItemsFirst(data: seq<Byte>, at: Sight, pos: nat, v: Meta, rest: seq<Meta>)
    requires Sees(data, at)
    requires at(pos, Encode(v)) && at(pos + |Encode(v)|, EncodeAll(rest))
    ensures at(pos, EncodeAll([v] + rest)) && |EncodeAll([v] + rest)| == |Encode(v)| + |EncodeAll(rest)|
  {
    assert ([v] + rest)[1..] == rest;
    Joins(data, at, pos, Encode(v), EncodeAll(rest));
  }

  lemma {:induction false} PairRead(data: seq<Byte>, at: Sight, pos: nat, n: nat) returns (pair: Pair, end: nat)
    requires Sees(data, at)
    requires pos <= |data| && n > 0 && SkipPairs(data, pos, n).Some?
    ensures PairInBounds(pair) && end <= |data| && SkipPairs(data, pos, n) == SkipPairs(data, end, n - 1)
    ensures var key, kind := Written(pair.key), Little(Kind(pair.value), 4);
            && at(pos, key) && at(pos + |key|, kind) && at(pos + |key| + 4, Encode(pair.value))
            && end == pos + |key| + 4 + |Encode(pair.value)|
  {
    TextRead(data, at, pos);
    var key := Text(data, pos).value;
    NumberRead(data, at, key.next, 4);
    var kind := Number(data, key.next, 4).value;
    var value := ValueRead(data, at, kind.next, kind.value);
    pair, end := Pair(key.value, value), Skip(data, kind.next, kind.value).value;
  }

  lemma {:induction false} PairsRead(data: seq<Byte>, at: Sight, pos: nat, n: nat) returns (pairs: seq<Pair>)
    requires Sees(data, at)
    requires pos <= |data| && SkipPairs(data, pos, n).Some?
    ensures |pairs| == n && PairsInBounds(pairs)
    ensures at(pos, EncodePairs(pairs)) && SkipPairs(data, pos, n) == Some(pos + |EncodePairs(pairs)|)
    decreases n
  {
    pairs := [];
    if n == 0 {
      NothingAt(data, at, pos);
    } else {
      var pair, end := PairRead(data, at, pos, n);
      var rest := PairsRead(data, at, end, n - 1);
      pairs := PairFirst(data, at, pos, pair, rest, end);
    }
  }

  lemma PairFirst(data: seq<Byte>, at: Sight, pos: nat, pair: Pair, rest: seq<Pair>, end: nat)
    returns (pairs: seq<Pair>)
    requires Sees(data, at)
    requires PairInBounds(pair) && PairsInBounds(rest) && at(end, EncodePairs(rest))
    requires var key, kind := Written(pair.key), Little(Kind(pair.value), 4);
             && at(pos, key) && at(pos + |key|, kind) && at(pos + |key| + 4, Encode(pair.value))
             && end == pos + |key| + 4 + |Encode(pair.value)|
    ensures pairs == [pair] + rest && PairsInBounds(pairs) && at(pos, EncodePairs(pairs))
    ensures pos + |EncodePairs(pairs)| == end + |EncodePairs(rest)|
  {
    pairs := [pair] + rest;
    assert pairs[1..] == rest;
    forall i | 0 <= i < |pairs| ensures PairInBounds(pairs[i]) {
      assert i > 0 ==> pairs[i] == rest[i - 1] && PairInBounds(rest[i - 1]);
    }
    var key, kind, value, more := Written(pair.key), Little(Kind(pair.value), 4), Encode(pair.value), EncodePairs(rest);
    Joins(data, at, pos + |key| + 4, value, more);
    Joins(data, at, pos + |key|, kind, value + more);
    Joins(data, at, pos, key, kind + (value + more));
  }

  lemma {:induction false} NumbersRead(data: seq<Byte>, at: Sight, pos: nat, n: nat)
    requires Sees(data, at)
    requires pos <= |data| && Numbers(data, pos, n).Some?
    ensures var r := Numbers(data, pos, n).value;
            && at(pos, EncodeNumbers(r.value)) && r.next == pos + |EncodeNumbers(r.value)|
            && forall i :: 0 <= i < |r.value| ==> r.value[i] < 0x1_0000_0000_0000_0000
  {
    if n == 0 {
      NothingAt(data, at, pos);
    } else {
      NumbersRead(data, at, pos, n - 1);
      var before := Numbers(data, pos, n - 1).value;
      NumberRead(data, at, before.next, 8);
      Pows();
      var ns := Numbers(data, pos, n).value.value;
      assert ns[..|ns| - 1] == before.value;
      Joins(data, at, pos, EncodeNumbers(before.value), Little(ns[|ns| - 1], 8));
    }
  }

  lemma {:induction false} TensorRead(data: seq<Byte>, at: Sight, pos: nat)
    requires Sees(data, at)
    requires pos <= |data| && OneTensor(data, pos).Some?
    ensures var r := OneTensor(data, pos).value;
            TensorInBounds(r.value) && at(pos, EncodeTensor(r.value)) && r.next == pos + |EncodeTensor(r.value)|
  {
    Pows();
    TextRead(data, at, pos);
    var name := Text(data, pos).value;
    NumberRead(data, at, name.next, 4);
    var nd := Number(data, name.next, 4).value;
    NumbersRead(data, at, nd.next, nd.value);
    var dims := Numbers(data, nd.next, nd.value).value;
    NumberRead(data, at, dims.next, 4);
    NumberRead(data, at, dims.next + 4, 8);
    var t := OneTensor(data, pos).value.value;
    JoinsFive(data, at, pos, Written(t.name), Little(nd.value, 4), EncodeNumbers(t.dims), Little(t.kind, 4),
              Little(t.offset, 8));
  }

  // The first tensors of a table, as a function value.
  type Listing = nat -> Option<Read<seq<Tensor>>>

  ghost predicate Lists(data: seq<Byte>, pos: nat, table: Listing) {
    pos <= |data| && forall n: nat {:trigger Table(data, pos, n)} :: table(n) == Table(data, pos, n)
  }

  lemma {:induction false} TableRead(data: seq<Byte>, at: Sight, pos: nat, n: nat)
    requires Sees(data, at) && pos <= |data| && Table(data, pos, n).Some?
    ensures var r := Table(data, pos, n).value;
            && |r.value| == n && AllInBounds(r.value)
            && at(pos, EncodeTable(r.value)) && r.next == pos + |EncodeTable(r.value)|
  {
    var table: Listing := (k: nat) => Table(data, pos, k);
    assert table(n) == Table(data, pos, n);
    TableListed(data, at, pos, table, n);
  }

  lemma {:induction false} TableListed(data: seq<Byte>, at: Sight, pos: nat, table: Listing, n: nat)
    requires Sees(data, at) && Lists(data, pos, table) && table(n).Some?
    ensures var r := table(n).value;
            && |r.value| == n && AllInBounds(r.value)
            && at(pos, EncodeTable(r.value)) && r.next == pos + |EncodeTable(r.value)|
  {
    if n == 0 {
      NothingListed(data, at, pos, table);
    } else {
      var last := LastListed(data, at, pos, table, n);
      TableListed(data, at, pos, table, n - 1);
      TableMore(data, at, pos, table(n - 1).value.value, last);
    }
  }

  lemma NothingListed(data: seq<Byte>, at: Sight, pos: nat, table: Listing)
    requires Sees(data, at) && Lists(data, pos, table)
    ensures table(0) == Some(Read([], pos)) && at(pos, [])
  {
    NothingAt(data, at, pos);
    assert table(0) == Table(data, pos, 0);
  }

  lemma LastListed(data: seq<Byte>, at: Sight, pos: nat, table: Listing, n: nat) returns (last: Tensor)
    requires Sees(data, at) && Lists(data, pos, table) && n > 0 && table(n).Some?
    ensures table(n - 1).Some?
    ensures var before, r := table(n - 1).value, table(n).value;
            && r.value == before.value + [last] && r.next == before.next + |EncodeTensor(last)|
            && TensorInBounds(last) && at(before.next, EncodeTensor(last))
  {
    assert table(n) == Table(data, pos, n) && table(n - 1) == Table(data, pos, n - 1);
    var before := Table(data, pos, n - 1).value;
    TensorRead(data, at, before.next);
    last := OneTensor(data, before.next).value.value;
  }

  lemma TableMore(data: seq<Byte>, at: Sight, pos: nat, before: seq<Tensor>, last: Tensor)
    requires Sees(data, at)
    requires AllInBounds(before) && TensorInBounds(last)
    requires at(pos, EncodeTable(before)) && at(pos + |EncodeTable(before)|, EncodeTensor(last))
    ensures AllInBounds(before + [last]) && at(pos, EncodeTable(before + [last]))
    ensures |EncodeTable(before + [last])| == |EncodeTable(before)| + |EncodeTensor(last)|
  {
    assert (before + [last])[..|before|] == before;
    Joins(data, at, pos, EncodeTable(before), EncodeTensor(last));
  }

  // What was read is what the file is the encoding of, with some metadata: nothing else is accepted.
  lemma {:induction false} DirectoryRead(data: seq<Byte>) returns (pairs: seq<Pair>)
    requires Directory(data).Some?
    ensures var f := Directory(data).value;
            && FileInBounds(f.value, pairs) && At(data, 0, EncodeFile(f.value, pairs))
            && f.next == |EncodeFile(f.value, pairs)|
  {
    var at := Looks(data);
    HeaderRead(data, at);
    pairs := PairsRead(data, at, 24, Number(data, 16, 8).value.value);
    var f := Directory(data).value.value;
    var table := 24 + |EncodePairs(pairs)|;
    TableRead(data, at, table, Number(data, 8, 8).value.value);
    BodyJoins(data, at, f, pairs);
    FileJoins(data, at, f, pairs);
    assert at(0, EncodeFile(f, pairs)) <==> At(data, 0, EncodeFile(f, pairs));
  }

  lemma FileJoins(data: seq<Byte>, at: Sight, f: File, pairs: seq<Pair>)
    requires Sees(data, at) && at(0, Letters()) && at(4, EncodeBody(f, pairs))
    ensures at(0, EncodeFile(f, pairs)) && |EncodeFile(f, pairs)| == 4 + |EncodeBody(f, pairs)|
  {
    Joins(data, at, 0, Letters(), EncodeBody(f, pairs));
  }

  lemma BodyJoins(data: seq<Byte>, at: Sight, f: File, pairs: seq<Pair>)
    requires Sees(data, at) && at(4, Little(f.version, 4))
    requires at(8, Little(|f.tensors|, 8)) && at(16, Little(|pairs|, 8))
    requires at(24, EncodePairs(pairs)) && at(24 + |EncodePairs(pairs)|, EncodeTable(f.tensors))
    ensures at(4, EncodeBody(f, pairs))
    ensures |EncodeBody(f, pairs)| == 20 + |EncodePairs(pairs)| + |EncodeTable(f.tensors)|
  {
    var a, b, c, d, e :=
      Little(f.version, 4), Little(|f.tensors|, 8), Little(|pairs|, 8), EncodePairs(pairs), EncodeTable(f.tensors);
    JoinsFive(data, at, 4, a, b, c, d, e);
  }

  lemma HeaderRead(data: seq<Byte>, at: Sight)
    requires Sees(data, at)
    requires Directory(data).Some?
    ensures at(0, Letters()) && at(4, Little(Number(data, 4, 4).value.value, 4))
    ensures at(8, Little(Number(data, 8, 8).value.value, 8))
    ensures at(16, Little(Number(data, 16, 8).value.value, 8))
  {
    MagicIsLetters();
    NumberRead(data, at, 0, 4);
    NumberRead(data, at, 4, 4);
    NumberRead(data, at, 8, 8);
    NumberRead(data, at, 16, 8);
  }

  // ----- more bytes change nothing that was read -----

  lemma {:induction false} NumberGrows(d: seq<Byte>, e: seq<Byte>, pos: nat, n: nat)
    requires d <= e && Number(d, pos, n).Some?
    ensures Number(e, pos, n) == Number(d, pos, n)
  {
    assert d[pos..pos + n] == e[pos..pos + n];
  }

  lemma {:induction false} TextGrows(d: seq<Byte>, e: seq<Byte>, pos: nat)
    requires d <= e && Text(d, pos).Some?
    ensures Text(e, pos) == Text(d, pos)
  {
    NumberGrows(d, e, pos, 8);
    var from, n := pos + 8, Number(d, pos, 8).value.value;
    assert d[from..from + n] == e[from..from + n];
  }

  lemma {:induction false} SkipGrows(d: seq<Byte>, e: seq<Byte>, pos: nat, kind: nat)
    requires d <= e && Skip(d, pos, kind).Some?
    ensures Skip(e, pos, kind) == Skip(d, pos, kind)
    decreases if pos <= |d| then |d| - pos else 0, 0, 0
  {
    if kind == 8 {
      TextGrows(d, e, pos);
    } else if kind == 9 {
      NumberGrows(d, e, pos, 4);
      NumberGrows(d, e, pos + 4, 8);
      SkipManyGrows(d, e, pos + 12, Number(d, pos, 4).value.value, Number(d, pos + 4, 8).value.value);
    }
  }

  lemma {:induction false} SkipManyGrows(d: seq<Byte>, e: seq<Byte>, pos: nat, kind: nat, n: nat)
    requires d <= e && pos <= |d| && SkipMany(d, pos, kind, n).Some?
    ensures SkipMany(e, pos, kind, n) == SkipMany(d, pos, kind, n)
    decreases |d| - pos, 1, n
  {
    if n > 0 {
      SkipGrows(d, e, pos, kind);
      SkipManyGrows(d, e, Skip(d, pos, kind).value, kind, n - 1);
    }
  }

  lemma {:induction false} PairsGrow(d: seq<Byte>, e: seq<Byte>, pos: nat, n: nat)
    requires d <= e && pos <= |d| && SkipPairs(d, pos, n).Some?
    ensures SkipPairs(e, pos, n) == SkipPairs(d, pos, n)
    decreases n
  {
    if n > 0 {
      TextGrows(d, e, pos);
      var p := Text(d, pos).value.next;
      NumberGrows(d, e, p, 4);
      var kind := Number(d, p, 4).value;
      SkipGrows(d, e, kind.next, kind.value);
      PairsGrow(d, e, Skip(d, kind.next, kind.value).value, n - 1);
    }
  }

  lemma {:induction false} NumbersGrow(d: seq<Byte>, e: seq<Byte>, pos: nat, n: nat)
    requires d <= e && pos <= |d| && Numbers(d, pos, n).Some?
    ensures Numbers(e, pos, n) == Numbers(d, pos, n)
  {
    if n > 0 {
      NumbersGrow(d, e, pos, n - 1);
      NumberGrows(d, e, Numbers(d, pos, n - 1).value.next, 8);
    }
  }

  lemma {:induction false} TensorGrows(d: seq<Byte>, e: seq<Byte>, pos: nat)
    requires d <= e && pos <= |d| && OneTensor(d, pos).Some?
    ensures OneTensor(e, pos) == OneTensor(d, pos)
  {
    TextGrows(d, e, pos);
    var nd := Number(d, Text(d, pos).value.next, 4);
    NumberGrows(d, e, Text(d, pos).value.next, 4);
    NumbersGrow(d, e, nd.value.next, nd.value.value);
    var p := Numbers(d, nd.value.next, nd.value.value).value.next;
    NumberGrows(d, e, p, 4);
    NumberGrows(d, e, p + 4, 8);
  }

  lemma {:induction false} TableGrows(d: seq<Byte>, e: seq<Byte>, pos: nat, n: nat)
    requires d <= e && pos <= |d| && Table(d, pos, n).Some?
    ensures Table(e, pos, n) == Table(d, pos, n)
  {
    if n > 0 {
      TableGrows(d, e, pos, n - 1);
      TensorGrows(d, e, Table(d, pos, n - 1).value.next);
    }
  }

  lemma {:induction false} DirectoryGrows(d: seq<Byte>, e: seq<Byte>)
    requires d <= e && Directory(d).Some?
    ensures Directory(e) == Directory(d) && Directory(d).value.next <= |d|
  {
    NumberGrows(d, e, 0, 4);
    NumberGrows(d, e, 4, 4);
    NumberGrows(d, e, 8, 8);
    NumberGrows(d, e, 16, 8);
    var nPairs := Number(d, 16, 8).value.value;
    PairsGrow(d, e, 24, nPairs);
    TableGrows(d, e, SkipPairs(d, 24, nPairs).value, Number(d, 8, 8).value.value);
  }

  // A directory cut short anywhere is an error.
  lemma {:induction false} TruncationIsAnError(f: File, pairs: seq<Pair>, cut: seq<Byte>)
    requires FileInBounds(f, pairs) && cut < EncodeFile(f, pairs)
    ensures Directory(cut).None?
  {
    var whole := EncodeFile(f, pairs);
    DirectoryRoundTrip(f, pairs, whole);
    if Directory(cut).Some? {
      DirectoryGrows(cut, whole);
    }
  }
}
