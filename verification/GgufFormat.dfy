/**
  What the GGUF header reader computes, as functions of the file's bytes and an offset. The reader
  itself, which asks a byte source for more as it goes, is proved against these.

  A string is its bytes; a float is its bytes as stored.
 */
module GgufFormat {
  import Arith
  import opened Option

  type Byte = b: nat | b < 256
  type Bytes = seq<Byte>

  datatype Error = Ended | BadMagic | BadVersion | BadCounts | Implausible | NotScalar | NestedArray | UnknownItem | TooManyDims | BadTensor

  /** What reading at an offset gives: a value and the offset behind it, or an error. */
  datatype R<+T> = Ok(value: T, next: nat) | Err(error: Error)

  const GGUF_MAGIC: nat := 0x46554747
  const MAX_SAFE: nat := 9007199254740991
  const ARRAY_SAMPLE: nat := 4

  const T_BOOL: nat := 7
  const T_STRING: nat := 8
  const T_ARRAY: nat := 9

  // ----- numbers -----

  function LittleEndian(bytes: Bytes): nat {
    if bytes == [] then 0 else bytes[0] + 256 * LittleEndian(bytes[1..])
  }

  function Width(kind: nat): Option<nat> {
    if kind == 0 || kind == 1 || kind == 7 then Some(1)
    else if kind == 2 || kind == 3 then Some(2)
    else if kind == 4 || kind == 5 || kind == 6 then Some(4)
    else if kind == 10 || kind == 11 || kind == 12 then Some(8)
    else None
  }

  datatype Scalar = IntValue(value: int) | BoolValue(flag: bool) | FloatBits(bits: Bytes)

  predicate SignedKind(kind: nat) { kind == 1 || kind == 3 || kind == 5 || kind == 11 }

  predicate FloatKind(kind: nat) { kind == 6 || kind == 12 }

  function Pow256(n: nat): (p: nat)
    ensures p > 0
  {
    if n == 0 then 1 else 256 * Pow256(n - 1)
  }

  /** Two's complement. */
  function Signed(raw: nat, width: nat): int {
    if 2 * raw < Pow256(width) then raw else raw - Pow256(width)
  }

  function ScalarOf(kind: nat, raw: Bytes): Scalar {
    if kind == T_BOOL then BoolValue(LittleEndian(raw) != 0)
    else if FloatKind(kind) then FloatBits(raw)
    else if SignedKind(kind) then IntValue(Signed(LittleEndian(raw), |raw|))
    else IntValue(LittleEndian(raw))
  }

  // ----- tensor sizes -----

  datatype Trait = Trait(blck: nat, size: nat)

  /** Block length and block size of each ggml type. */
  function TraitOf(kind: nat): (t: Option<Trait>)
    ensures t.Some? ==> t.value.blck > 0 && t.value.size > 0
  {
    match kind
    case 0 => Some(Trait(1, 4))
    case 1 => Some(Trait(1, 2))
    case 2 => Some(Trait(32, 18))
    case 3 => Some(Trait(32, 20))
    case 6 => Some(Trait(32, 22))
    case 7 => Some(Trait(32, 24))
    case 8 => Some(Trait(32, 34))
    case 9 => Some(Trait(32, 40))
    case 10 => Some(Trait(256, 84))
    case 11 => Some(Trait(256, 110))
    case 12 => Some(Trait(256, 144))
    case 13 => Some(Trait(256, 176))
    case 14 => Some(Trait(256, 210))
    case 15 => Some(Trait(256, 292))
    case 16 => Some(Trait(256, 66))
    case 17 => Some(Trait(256, 74))
    case 18 => Some(Trait(256, 98))
    case 19 => Some(Trait(256, 50))
    case 20 => Some(Trait(32, 18))
    case 21 => Some(Trait(256, 110))
    case 22 => Some(Trait(256, 82))
    case 23 => Some(Trait(256, 136))
    case 24 => Some(Trait(1, 1))
    case 25 => Some(Trait(1, 2))
    case 26 => Some(Trait(1, 4))
    case 27 => Some(Trait(1, 8))
    case 28 => Some(Trait(1, 8))
    case 29 => Some(Trait(256, 56))
    case 30 => Some(Trait(1, 2))
    case 34 => Some(Trait(256, 54))
    case 35 => Some(Trait(256, 66))
    case 39 => Some(Trait(32, 17))
    case 40 => Some(Trait(64, 36))
    case _ => None
  }

  function Product(dims: seq<nat>): nat {
    if dims == [] then 1 else Product(dims[..|dims| - 1]) * dims[|dims| - 1]
  }

  /** The bytes of one row of blocks, times the other dimensions; an error for an unknown type or a
      row that is not a whole number of blocks. */
  function TensorBytes(kind: nat, dims: seq<nat>): Option<nat> {
    match TraitOf(kind)
    case None => None
    case Some(t) =>
      var ne0 := if |dims| > 0 then dims[0] else 1;
      if ne0 % t.blck != 0 then None
      else Some(ne0 / t.blck * t.size * Product(if |dims| > 0 then dims[1..] else []))
  }

  // ----- reading -----

  /** `width` bytes as an unsigned number. */
  function Number(file: Bytes, at: nat, width: nat): (r: R<nat>)
    ensures r.Ok? ==> at <= r.next <= |file|
  {
    if at + width > |file| then Err(Ended) else Ok(LittleEndian(file[at..at + width]), at + width)
  }

  function ScalarAt(file: Bytes, at: nat, kind: nat): (r: R<Scalar>)
    ensures r.Ok? ==> at <= r.next <= |file|
  {
    match Width(kind)
    case None => Err(NotScalar)
    case Some(width) =>
      if at + width > |file| then Err(Ended) else Ok(ScalarOf(kind, file[at..at + width]), at + width)
  }

  function Text(file: Bytes, at: nat): (r: R<Bytes>)
    ensures r.Ok? ==> at <= r.next <= |file|
  {
    match Number(file, at, 8)
    case Err(e) => Err(e)
    case Ok(length, p) =>
      if length > MAX_SAFE then Err(Implausible)
      else if p + length > |file| then Err(Ended)
      else Ok(file[p..p + length], p + length)
  }

  function Skip(file: Bytes, at: nat, length: nat): (r: R<()>)
    ensures r.Ok? ==> at <= r.next <= |file|
  {
    if at + length > |file| then Err(Ended) else Ok((), at + length)
  }

  /** A string passed over without looking at it. */
  function SkipText(file: Bytes, at: nat): (r: R<()>)
    ensures r.Ok? ==> at <= r.next <= |file|
  {
    match Number(file, at, 8)
    case Err(e) => Err(e)
    case Ok(length, p) => Skip(file, p, length)
  }

  datatype Item = TextItem(text: Bytes) | ScalarItem(scalar: Scalar)

  datatype Value = TextValue(text: Bytes) | ScalarValue(scalar: Scalar) | ArrayValue(itemKind: nat, length: nat, sample: seq<Item>)

  /** The string items from number `i` on: the first four are read, the rest are passed over. */
  function TextItems(file: Bytes, at: nat, i: nat, length: nat, sample: seq<Item>): (r: R<seq<Item>>)
    ensures r.Ok? ==> at <= r.next && (at <= |file| ==> r.next <= |file|)
    decreases length - i
  {
    if i >= length then Ok(sample, at)
    else if i < ARRAY_SAMPLE then
      match Text(file, at)
      case Err(e) => Err(e)
      case Ok(text, p) => TextItems(file, p, i + 1, length, sample + [TextItem(text)])
    else
      match SkipText(file, at)
      case Err(e) => Err(e)
      case Ok(_, p) => TextItems(file, p, i + 1, length, sample)
  }

  function ScalarItems(file: Bytes, at: nat, i: nat, count: nat, kind: nat, sample: seq<Item>): (r: R<seq<Item>>)
    ensures r.Ok? ==> at <= r.next && (at <= |file| ==> r.next <= |file|)
    decreases count - i
  {
    if i >= count then Ok(sample, at)
    else
      match ScalarAt(file, at, kind)
      case Err(e) => Err(e)
      case Ok(scalar, p) => ScalarItems(file, p, i + 1, count, kind, sample + [ScalarItem(scalar)])
  }

  function Least(a: nat, b: nat): nat { if a < b then a else b }

  function Bulk(count: nat, width: nat): nat { count * width }

  /** Scalars have one width, so those behind the sample are passed over in one go. */
  function ScalarArray(file: Bytes, at: nat, length: nat, kind: nat): (r: R<seq<Item>>)
    ensures r.Ok? ==> at <= r.next && (at <= |file| ==> r.next <= |file|)
  {
    match Width(kind)
    case None => Err(UnknownItem)
    case Some(width) =>
      var taken := Least(length, ARRAY_SAMPLE);
      match ScalarItems(file, at, 0, taken, kind, [])
      case Err(e) => Err(e)
      case Ok(sample, p) =>
        match Skip(file, p, Bulk(length - taken, width))
        case Err(e) => Err(e)
        case Ok(_, q) => Ok(sample, q)
  }

  function Items(file: Bytes, at: nat, itemKind: nat, length: nat): (r: R<seq<Item>>)
    ensures r.Ok? ==> at <= r.next && (at <= |file| ==> r.next <= |file|)
  {
    if itemKind == T_STRING then TextItems(file, at, 0, length, [])
    else if itemKind == T_ARRAY then Err(NestedArray)
    else ScalarArray(file, at, length, itemKind)
  }

  function ArrayAt(file: Bytes, at: nat): (r: R<Value>)
    ensures r.Ok? ==> at <= r.next <= |file|
  {
    match Number(file, at, 4)
    case Err(e) => Err(e)
    case Ok(itemKind, p) =>
      match Number(file, p, 8)
      case Err(e) => Err(e)
      case Ok(length, q) =>
        if length > MAX_SAFE then Err(Implausible)
        else
          match Items(file, q, itemKind, length)
          case Err(e) => Err(e)
          case Ok(sample, next) => Ok(ArrayValue(itemKind, length, sample), next)
  }

  function ValueAt(file: Bytes, at: nat, kind: nat): (r: R<Value>)
    ensures r.Ok? ==> at <= r.next <= |file|
  {
    if kind == T_STRING then
      match Text(file, at)
      case Err(e) => Err(e)
      case Ok(text, next) => Ok(TextValue(text), next)
    else if kind != T_ARRAY then
      match ScalarAt(file, at, kind)
      case Err(e) => Err(e)
      case Ok(scalar, next) => Ok(ScalarValue(scalar), next)
    else ArrayAt(file, at)
  }

  datatype Entry = Entry(key: Bytes, value: Value)

  function EntryAt(file: Bytes, at: nat): (r: R<Entry>)
    ensures r.Ok? ==> at <= r.next <= |file|
  {
    match Text(file, at)
    case Err(e) => Err(e)
    case Ok(key, p) =>
      match Number(file, p, 4)
      case Err(e) => Err(e)
      case Ok(kind, q) =>
        match ValueAt(file, q, kind)
        case Err(e) => Err(e)
        case Ok(value, next) => Ok(Entry(key, value), next)
  }

  /** Metadata from entry number `i` on; a key that comes again replaces the earlier value. */
  function Metadata(file: Bytes, at: nat, i: nat, count: nat, found: map<Bytes, Value>): (r: R<map<Bytes, Value>>)
    ensures r.Ok? ==> at <= r.next && (at <= |file| ==> r.next <= |file|)
    decreases count - i
  {
    if i >= count then Ok(found, at)
    else
      match EntryAt(file, at)
      case Err(e) => Err(e)
      case Ok(entry, p) => Metadata(file, p, i + 1, count, found[entry.key := entry.value])
  }

  function Dims(file: Bytes, at: nat, i: nat, count: nat, dims: seq<nat>): (r: R<seq<nat>>)
    ensures r.Ok? ==> at <= r.next && (at <= |file| ==> r.next <= |file|)
    decreases count - i
  {
    if i >= count then Ok(dims, at)
    else
      match Number(file, at, 8)
      case Err(e) => Err(e)
      case Ok(dim, p) => Dims(file, p, i + 1, count, dims + [dim])
  }

  datatype Tensor = Tensor(name: Bytes, dims: seq<nat>, kind: nat, offset: nat, bytes: nat)

  function TensorAt(file: Bytes, at: nat): (r: R<Tensor>)
    ensures r.Ok? ==> at <= r.next <= |file|
  {
    match Text(file, at)
    case Err(e) => Err(e)
    case Ok(name, p) =>
      match Number(file, p, 4)
      case Err(e) => Err(e)
      case Ok(nDims, q) =>
        if nDims > 4 then Err(TooManyDims)
        else
          match Dims(file, q, 0, nDims, [])
          case Err(e) => Err(e)
          case Ok(dims, s) => TensorTail(file, s, name, dims)
  }

  function TensorTail(file: Bytes, at: nat, name: Bytes, dims: seq<nat>): (r: R<Tensor>)
    ensures r.Ok? ==> at <= r.next <= |file|
  {
    match Number(file, at, 4)
    case Err(e) => Err(e)
    case Ok(kind, p) =>
      match Number(file, p, 8)
      case Err(e) => Err(e)
      case Ok(offset, next) =>
        match TensorBytes(kind, dims)
        case None => Err(BadTensor)
        case Some(bytes) => Ok(Tensor(name, dims, kind, offset, bytes), next)
  }

  function Tensors(file: Bytes, at: nat, i: nat, count: nat, found: seq<Tensor>): (r: R<seq<Tensor>>)
    ensures r.Ok? ==> at <= r.next && (at <= |file| ==> r.next <= |file|)
    decreases count - i
  {
    if i >= count then Ok(found, at)
    else
      match TensorAt(file, at)
      case Err(e) => Err(e)
      case Ok(tensor, p) => Tensors(file, p, i + 1, count, found + [tensor])
  }

  /** "general.alignment" */
  const ALIGNMENT_KEY: Bytes := [103, 101, 110, 101, 114, 97, 108, 46, 97, 108, 105, 103, 110, 109, 101, 110, 116]
  const DEFAULT_ALIGNMENT: int := 32

  /** The alignment as a number; floats, texts, arrays and integers beyond the safe range are left open. */
  datatype Alignment = Exactly(bytes: int) | OtherNumber

  function AlignmentOf(metadata: map<Bytes, Value>): Alignment {
    if ALIGNMENT_KEY !in metadata then Exactly(DEFAULT_ALIGNMENT)
    else
      match metadata[ALIGNMENT_KEY]
      case ScalarValue(IntValue(v)) => if v <= MAX_SAFE && -v <= MAX_SAFE then Exactly(v) else OtherNumber
      case ScalarValue(BoolValue(flag)) => Exactly(if flag then 1 else 0)
      case _ => OtherNumber
  }

  /** The end of the descriptors rounded up to the alignment; no number when that is zero. */
  function DataStart(end: nat, alignment: Alignment): Option<nat> {
    match alignment
    case OtherNumber => None
    case Exactly(bytes) =>
      if bytes == 0 then None
      else if bytes > 0 then Some(RoundedUp(end, bytes))
      else Some(RoundedDown(end, -bytes))
  }

  function RoundedUp(n: nat, d: nat): nat
    requires d > 0
  {
    Arith.CeilDiv(n, d) * d
  }

  function RoundedDown(n: nat, d: nat): nat
    requires d > 0
  {
    n / d * d
  }

  datatype Header = Header(
    version: nat, tensorCount: nat, kvCount: nat, metadata: map<Bytes, Value>, tensors: seq<Tensor>,
    alignment: Alignment, metadataEnd: nat, descriptorsEnd: nat, dataStart: Option<nat>)

  /** The header as it is returned, from what was read. */
  function Assembled(counts: Counts, metadata: map<Bytes, Value>, tensors: seq<Tensor>, metadataEnd: nat, end: nat): Header {
    var alignment := AlignmentOf(metadata);
    Header(counts.version, counts.tensors, counts.kvs, metadata, tensors, alignment, metadataEnd, end, DataStart(end, alignment))
  }

  datatype Counts = Counts(version: nat, tensors: nat, kvs: nat)

  /** Magic, version and counts. */
  function Preamble(file: Bytes): (r: R<Counts>)
    ensures r.Ok? ==> r.next <= |file|
  {
    match Number(file, 0, 4)
    case Err(e) => Err(e)
    case Ok(magic, p) =>
      if magic != GGUF_MAGIC then Err(BadMagic)
      else
        match Number(file, p, 4)
        case Err(e) => Err(e)
        case Ok(version, q) =>
          if version != 2 && version != 3 then Err(BadVersion)
          else
            match Number(file, q, 8)
            case Err(e) => Err(e)
            case Ok(tensors, s) =>
              match Number(file, s, 8)
              case Err(e) => Err(e)
              case Ok(kvs, next) =>
                if tensors > MAX_SAFE || kvs > MAX_SAFE then Err(BadCounts) else Ok(Counts(version, tensors, kvs), next)
  }

  function ParseHeader(file: Bytes): (r: R<Header>)
    ensures r.Ok? ==> r.next == r.value.descriptorsEnd <= |file|
  {
    match Preamble(file)
    case Err(e) => Err(e)
    case Ok(counts, p) =>
      match Metadata(file, p, 0, counts.kvs, map[])
      case Err(e) => Err(e)
      case Ok(metadata, q) =>
        match Tensors(file, q, 0, counts.tensors, [])
        case Err(e) => Err(e)
        case Ok(tensors, end) => Ok(Assembled(counts, metadata, tensors, q, end), end)
  }
}
