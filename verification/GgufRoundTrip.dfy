/** Writing a header and reading it back. */
module GgufRoundTrip {
  import Arith
  import opened Option
  import opened GgufFormat
  import opened GgufLaws

  // ----- numbers -----

  function ToBytes(v: nat, width: nat): (bytes: Bytes)
    ensures |bytes| == width
  {
    if width == 0 then [] else [v % 256] + ToBytes(v / 256, width - 1)
  }

  lemma {:induction false} NumberRound(v: nat, width: nat)
    requires v < Pow256(width)
    ensures LittleEndian(ToBytes(v, width)) == v
  {
    if width > 0 {
      assert v / 256 < Pow256(width - 1);
      NumberRound(v / 256, width - 1);
      assert ToBytes(v, width)[1..] == ToBytes(v / 256, width - 1);
    }
  }

  lemma Powers()
    ensures Pow256(1) == 256 && Pow256(2) == 65536 && Pow256(4) == 0x1_0000_0000 && Pow256(8) == 0x1_0000_0000_0000_0000
  {
  }

  /** A scalar that a kind can hold. */
  predicate Storable(kind: nat, scalar: Scalar) {
    match Width(kind)
    case None => false
    case Some(width) =>
      if kind == T_BOOL then scalar.BoolValue?
      else if FloatKind(kind) then scalar.FloatBits? && |scalar.bits| == width
      else if SignedKind(kind) then scalar.IntValue? && 0 <= 2 * scalar.value + Pow256(width) < 2 * Pow256(width)
      else scalar.IntValue? && 0 <= scalar.value < Pow256(width)
  }

  function ScalarBytes(kind: nat, scalar: Scalar): (bytes: Bytes)
    requires Storable(kind, scalar)
    ensures |bytes| == Width(kind).value
  {
    var width := Width(kind).value;
    match scalar
    case BoolValue(flag) => [if flag then 1 else 0]
    case FloatBits(bits) => bits
    case IntValue(value) => ToBytes(if value < 0 then value + Pow256(width) else value, width)
  }

  lemma ScalarRound(kind: nat, scalar: Scalar)
    requires Storable(kind, scalar)
    ensures ScalarOf(kind, ScalarBytes(kind, scalar)) == scalar
  {
    var width := Width(kind).value;
    if scalar.IntValue? {
      NumberRound(if scalar.value < 0 then scalar.value + Pow256(width) else scalar.value, width);
    } else if scalar.BoolValue? {
      var raw := ScalarBytes(kind, scalar);
      assert raw[1..] == [];
      assert LittleEndian(raw) == raw[0] + 256 * LittleEndian([]);
    }
  }

  // ----- pieces of a file -----

  ghost predicate Holds(file: Bytes, at: nat, piece: Bytes) {
    at + |piece| <= |file| && file[at..at + |piece|] == piece
  }

  lemma HoldsBoth(file: Bytes, at: nat, a: Bytes, b: Bytes)
    requires Holds(file, at, a + b)
    ensures Holds(file, at, a) && Holds(file, at + |a|, b)
  {
    var whole := file[at..at + |a + b|];
    assert a == whole[..|a|] && b == whole[|a|..];
  }

  lemma NumberReads(file: Bytes, at: nat, v: nat, width: nat)
    requires Holds(file, at, ToBytes(v, width)) && v < Pow256(width)
    ensures Number(file, at, width) == Ok(v, at + width)
  {
    NumberRound(v, width);
  }

  lemma ScalarReads(file: Bytes, at: nat, kind: nat, scalar: Scalar)
    requires Storable(kind, scalar) && Holds(file, at, ScalarBytes(kind, scalar))
    ensures ScalarAt(file, at, kind) == Ok(scalar, at + Width(kind).value)
  {
    hide ScalarBytes, ScalarOf, Width;
    ScalarRound(kind, scalar);
  }

  // ----- strings and arrays -----

  predicate Short(text: Bytes) { |text| <= MAX_SAFE }

  function TextBytes(text: Bytes): Bytes { ToBytes(|text|, 8) + text }

  lemma TextReads(file: Bytes, at: nat, text: Bytes)
    requires Short(text) && Holds(file, at, TextBytes(text))
    ensures Text(file, at) == Ok(text, at + |TextBytes(text)|)
  {
    hide Number, ToBytes;
    Powers();
    HoldsBoth(file, at, ToBytes(|text|, 8), text);
    NumberReads(file, at, |text|, 8);
  }

  function AllTexts(items: seq<Bytes>): Bytes { if items == [] then [] else TextBytes(items[0]) + AllTexts(items[1..]) }

  function TextsAsItems(items: seq<Bytes>): (r: seq<Item>)
    ensures |r| == |items|
  {
    if items == [] then [] else [TextItem(items[0])] + TextsAsItems(items[1..])
  }

  lemma {:induction false} TextsRead(file: Bytes, at: nat, items: seq<Bytes>)
    requires (forall i :: 0 <= i < |items| ==> Short(items[i])) && Holds(file, at, AllTexts(items))
    ensures ReadTexts(file, at, |items|) == Ok(TextsAsItems(items), at + |AllTexts(items)|)
    decreases |items|
  {
    hide Text, TextBytes;
    if items != [] {
      HoldsBoth(file, at, TextBytes(items[0]), AllTexts(items[1..]));
      TextReads(file, at, items[0]);
      TextsRead(file, at + |TextBytes(items[0])|, items[1..]);
    }
  }

  ghost predicate AllStorable(kind: nat, items: seq<Scalar>) {
    Width(kind).Some? && forall i :: 0 <= i < |items| ==> Storable(kind, items[i])
  }

  ghost function AllScalars(kind: nat, items: seq<Scalar>): Bytes
    requires AllStorable(kind, items)
  {
    if items == [] then [] else ScalarBytes(kind, items[0]) + AllScalars(kind, items[1..])
  }

  function ScalarsAsItems(items: seq<Scalar>): (r: seq<Item>)
    ensures |r| == |items|
  {
    if items == [] then [] else [ScalarItem(items[0])] + ScalarsAsItems(items[1..])
  }

  lemma {:induction false} ScalarsRead(file: Bytes, at: nat, kind: nat, items: seq<Scalar>)
    requires AllStorable(kind, items) && Holds(file, at, AllScalars(kind, items))
    ensures ReadScalars(file, at, |items|, kind) == Ok(ScalarsAsItems(items), at + |AllScalars(kind, items)|)
    decreases |items|
  {
    hide ScalarAt, ScalarBytes, Width, Storable;
    if items != [] {
      HoldsBoth(file, at, ScalarBytes(kind, items[0]), AllScalars(kind, items[1..]));
      ScalarReads(file, at, kind, items[0]);
      ScalarsRead(file, at + |ScalarBytes(kind, items[0])|, kind, items[1..]);
    }
  }

  // ----- metadata -----

  datatype Written =
    | WText(text: Bytes)
    | WScalar(kind: nat, scalar: Scalar)
    | WTexts(texts: seq<Bytes>)
    | WScalars(itemKind: nat, scalars: seq<Scalar>)

  ghost predicate Writable(w: Written) {
    match w
    case WText(text) => Short(text)
    case WScalar(kind, scalar) => Storable(kind, scalar)
    case WTexts(texts) => |texts| <= MAX_SAFE && forall i :: 0 <= i < |texts| ==> Short(texts[i])
    case WScalars(kind, scalars) => |scalars| <= MAX_SAFE && AllStorable(kind, scalars)
  }

  function KindOf(w: Written): nat {
    match w
    case WText(_) => T_STRING
    case WScalar(kind, _) => kind
    case _ => T_ARRAY
  }

  ghost function ValueBytes(w: Written): Bytes
    requires Writable(w)
  {
    match w
    case WText(text) => TextBytes(text)
    case WScalar(kind, scalar) => ScalarBytes(kind, scalar)
    case WTexts(texts) => ToBytes(T_STRING, 4) + (ToBytes(|texts|, 8) + AllTexts(texts))
    case WScalars(kind, scalars) => ToBytes(kind, 4) + (ToBytes(|scalars|, 8) + AllScalars(kind, scalars))
  }

  /** What comes back: arrays as their length and their first four items. */
  function ReadBack(w: Written): Value {
    match w
    case WText(text) => TextValue(text)
    case WScalar(_, scalar) => ScalarValue(scalar)
    case WTexts(texts) => ArrayValue(T_STRING, |texts|, FirstFour(TextsAsItems(texts)))
    case WScalars(kind, scalars) => ArrayValue(kind, |scalars|, FirstFour(ScalarsAsItems(scalars)))
  }

  lemma KindsAreSmall(kind: nat)
    requires Width(kind).Some?
    ensures kind < Pow256(4) && kind != T_STRING && kind != T_ARRAY
  {
  }

  /** An array reads back when its items do. */
  lemma ArrayReads(file: Bytes, at: nat, itemKind: nat, length: nat, body: Bytes, all: R<seq<Item>>)
    requires length <= MAX_SAFE && itemKind < Pow256(4) && (itemKind == T_STRING || Width(itemKind).Some?)
    requires Holds(file, at, ToBytes(itemKind, 4) + (ToBytes(length, 8) + body))
    requires all == if itemKind == T_STRING then ReadTexts(file, at + 12, length) else ReadScalars(file, at + 12, length, itemKind)
    requires all.Ok? && all.next == at + 12 + |body|
    ensures ArrayAt(file, at) == Ok(ArrayValue(itemKind, length, FirstFour(all.value)), at + 12 + |body|)
  {
    hide Number, ToBytes, ReadTexts, ReadScalars, Items, Width;
    Powers();
    HoldsBoth(file, at, ToBytes(itemKind, 4), ToBytes(length, 8) + body);
    HoldsBoth(file, at + 4, ToBytes(length, 8), body);
    NumberReads(file, at, itemKind, 4);
    NumberReads(file, at + 4, length, 8);
    SkippingIsReading(file, at + 12, itemKind, length);
  }

  lemma HoldsTail(file: Bytes, at: nat, a: Bytes, b: Bytes, c: Bytes)
    requires Holds(file, at, a + (b + c))
    ensures Holds(file, at + |a| + |b|, c)
  {
  }

  lemma ValueReads(file: Bytes, at: nat, w: Written)
    requires Writable(w) && Holds(file, at, ValueBytes(w))
    ensures ValueAt(file, at, KindOf(w)) == Ok(ReadBack(w), at + |ValueBytes(w)|)
  {
    hide Text, ScalarAt, ArrayAt, Width, Storable, ToBytes, TextBytes, ScalarBytes, AllTexts, AllScalars;
    Powers();
    match w
    case WText(text) => TextReads(file, at, text);
    case WScalar(kind, scalar) =>
      StorableHasWidth(kind, scalar);
      KindsAreSmall(kind);
      ScalarReads(file, at, kind, scalar);
    case WTexts(texts) =>
      HoldsTail(file, at, ToBytes(T_STRING, 4), ToBytes(|texts|, 8), AllTexts(texts));
      TextsRead(file, at + 12, texts);
      ArrayReads(file, at, T_STRING, |texts|, AllTexts(texts), ReadTexts(file, at + 12, |texts|));
    case WScalars(kind, scalars) =>
      KindsAreSmall(kind);
      HoldsTail(file, at, ToBytes(kind, 4), ToBytes(|scalars|, 8), AllScalars(kind, scalars));
      ScalarsRead(file, at + 12, kind, scalars);
      ArrayReads(file, at, kind, |scalars|, AllScalars(kind, scalars), ReadScalars(file, at + 12, |scalars|, kind));
  }

  lemma StorableHasWidth(kind: nat, scalar: Scalar)
    requires Storable(kind, scalar)
    ensures Width(kind).Some? && |ScalarBytes(kind, scalar)| == Width(kind).value
  {
  }

  datatype WrittenEntry = WrittenEntry(key: Bytes, value: Written)

  ghost predicate EntryWritable(e: WrittenEntry) { Short(e.key) && Writable(e.value) }

  ghost function EntryBytes(e: WrittenEntry): Bytes
    requires EntryWritable(e)
  {
    TextBytes(e.key) + (ToBytes(KindOf(e.value), 4) + ValueBytes(e.value))
  }

  lemma KindIsSmall(w: Written)
    requires Writable(w)
    ensures KindOf(w) < Pow256(4)
  {
  }

  lemma EntryReads(file: Bytes, at: nat, e: WrittenEntry)
    requires EntryWritable(e) && Holds(file, at, EntryBytes(e))
    ensures EntryAt(file, at) == Ok(Entry(e.key, ReadBack(e.value)), at + |EntryBytes(e)|)
  {
    hide Text, Number, ValueAt, Writable, ToBytes, TextBytes, ValueBytes, ReadBack, KindOf;
    KindIsSmall(e.value);
    var kind, body := ToBytes(KindOf(e.value), 4), ValueBytes(e.value);
    HoldsBoth(file, at, TextBytes(e.key), kind + body);
    HoldsBoth(file, at + |TextBytes(e.key)|, kind, body);
    TextReads(file, at, e.key);
    NumberReads(file, at + |TextBytes(e.key)|, KindOf(e.value), 4);
    ValueReads(file, at + |TextBytes(e.key)| + 4, e.value);
  }

  ghost predicate AllWritable(entries: seq<WrittenEntry>) { forall i :: 0 <= i < |entries| ==> EntryWritable(entries[i]) }

  ghost function EntriesBytes(entries: seq<WrittenEntry>): Bytes
    requires AllWritable(entries)
  {
    if entries == [] then [] else EntryBytes(entries[0]) + EntriesBytes(entries[1..])
  }

  /** The metadata of a list of entries: the last value of each key. */
  function Collected(entries: seq<WrittenEntry>, found: map<Bytes, Value>): map<Bytes, Value> {
    if entries == [] then found else Collected(entries[1..], found[entries[0].key := ReadBack(entries[0].value)])
  }

  lemma {:induction false} EntriesRead(file: Bytes, at: nat, i: nat, count: nat, entries: seq<WrittenEntry>, found: map<Bytes, Value>)
    requires AllWritable(entries) && i + |entries| == count && Holds(file, at, EntriesBytes(entries))
    ensures Metadata(file, at, i, count, found) == Ok(Collected(entries, found), at + |EntriesBytes(entries)|)
    decreases |entries|
  {
    hide EntryAt, EntryBytes, EntryWritable, ReadBack;
    if entries != [] {
      HoldsBoth(file, at, EntryBytes(entries[0]), EntriesBytes(entries[1..]));
      EntryReads(file, at, entries[0]);
      EntriesRead(file, at + |EntryBytes(entries[0])|, i + 1, count, entries[1..], found[entries[0].key := ReadBack(entries[0].value)]);
    }
  }

  /** A key's value is that of its last entry. */
  lemma {:induction false} LastEntryWins(entries: seq<WrittenEntry>, found: map<Bytes, Value>, i: nat)
    requires i < |entries| && forall j :: i < j < |entries| ==> entries[j].key != entries[i].key
    ensures var m, key := Collected(entries, found), entries[i].key; key in m && m[key] == ReadBack(entries[i].value)
    decreases |entries|
  {
    var head := entries[0];
    if i == 0 {
      OtherKeysKeep(entries[1..], found[head.key := ReadBack(head.value)], head.key);
    } else {
      LastEntryWins(entries[1..], found[head.key := ReadBack(head.value)], i - 1);
    }
  }

  lemma {:induction false} OtherKeysKeep(entries: seq<WrittenEntry>, found: map<Bytes, Value>, key: Bytes)
    requires forall j :: 0 <= j < |entries| ==> entries[j].key != key
    ensures var m := Collected(entries, found);
            (key in m <==> key in found) && (key in found ==> m[key] == found[key])
    decreases |entries|
  {
    if entries != [] {
      OtherKeysKeep(entries[1..], found[entries[0].key := ReadBack(entries[0].value)], key);
    }
  }

  /** The least multiple of `d` that is not below `n`. */
  ghost predicate LeastMultiple(m: nat, d: nat, n: nat)
    requires d > 0
  {
    m % d == 0 && m >= n && forall x: nat :: x % d == 0 && x >= n ==> m <= x
  }

  lemma RoundedUpIsLeastMultiple(n: nat, d: nat)
    requires d > 0
    ensures LeastMultiple(RoundedUp(n, d), d, n)
  {
    hide RoundedUp;
    RoundedUpIsLeast(n, d, 0);
    forall x: nat | x % d == 0 && x >= n
      ensures RoundedUp(n, d) <= x
    {
      RoundedUpIsLeast(n, d, x);
    }
  }

  /** No alignment entry and the default, or a last one with this integer. */
  ghost predicate Aligned(entries: seq<WrittenEntry>, bytes: nat) {
    || (bytes == DEFAULT_ALIGNMENT && forall j :: 0 <= j < |entries| ==> entries[j].key != ALIGNMENT_KEY)
    || (exists i :: 0 <= i < |entries| && LastAlignment(entries, i) && entries[i].value.WScalar?
                    && entries[i].value.scalar == IntValue(bytes))
  }

  ghost predicate LastAlignment(entries: seq<WrittenEntry>, i: nat)
    requires i < |entries|
  {
    entries[i].key == ALIGNMENT_KEY && forall j :: i < j < |entries| ==> entries[j].key != ALIGNMENT_KEY
  }

  lemma AlignmentCollected(entries: seq<WrittenEntry>, bytes: nat)
    requires Aligned(entries, bytes) && bytes <= MAX_SAFE
    ensures AlignmentOf(Collected(entries, map[])) == Exactly(bytes)
  {
    if i :| 0 <= i < |entries| && LastAlignment(entries, i) && entries[i].value.WScalar?
            && entries[i].value.scalar == IntValue(bytes) {
      LastEntryWins(entries, map[], i);
    } else {
      OtherKeysKeep(entries, map[], ALIGNMENT_KEY);
    }
  }

  /**
    The alignment of a written header is 32 without an alignment entry, and otherwise the integer of the
    last one; the tensor data starts at the least multiple of it that is not below the descriptors' end.
   */
  lemma AlignmentRound(h: Sheet, tail: Bytes, bytes: nat)
    requires Serialisable(h) && Aligned(h.entries, bytes) && 0 < bytes <= MAX_SAFE
    ensures var r := ParseHeader(Serialised(h) + tail);
            && r.Ok? && r.value.alignment == Exactly(bytes) && r.value.dataStart.Some?
            && LeastMultiple(r.value.dataStart.value, bytes, r.value.descriptorsEnd)
  {
    hide ParseHeader, Serialised, Serialisable, Aligned, LeastMultiple, AlignmentOf, Collected, AsTensors, EntriesBytes, RoundedUp;
    RoundTrip(h, tail);
    AlignmentCollected(h.entries, bytes);
    RoundedUpIsLeastMultiple(|Serialised(h)|, bytes);
  }

  lemma RoundedUpIsLeast(n: nat, d: nat, m: nat)
    requires d > 0
    ensures RoundedUp(n, d) % d == 0 && RoundedUp(n, d) >= n
    ensures m % d == 0 && m >= n ==> RoundedUp(n, d) <= m
  {
    hide Arith.CeilDiv;
    var q := Arith.CeilDiv(n, d);
    Arith.CeilDivCounts(n, d, q);
    Arith.DivModUnique(q * d, q, 0, d);
    if m % d == 0 && m >= n {
      Arith.DivModOf(m, d);
      Arith.CeilDivCounts(n, d, m / d);
      Arith.MulLe(q, m / d, d);
    }
  }

  // ----- tensors -----

  datatype Descriptor = Descriptor(name: Bytes, dims: seq<nat>, kind: nat, offset: nat)

  ghost predicate Describable(t: Descriptor) {
    && Short(t.name) && |t.dims| <= 4 && t.kind < Pow256(4) && t.offset < Pow256(8)
    && (forall i :: 0 <= i < |t.dims| ==> t.dims[i] < Pow256(8))
    && TensorBytes(t.kind, t.dims).Some?
  }

  function DimsBytes(dims: seq<nat>): Bytes { if dims == [] then [] else ToBytes(dims[0], 8) + DimsBytes(dims[1..]) }

  lemma {:induction false} DimsRead(file: Bytes, at: nat, i: nat, count: nat, dims: seq<nat>, before: seq<nat>)
    requires (forall k :: 0 <= k < |dims| ==> dims[k] < Pow256(8)) && i + |dims| == count && Holds(file, at, DimsBytes(dims))
    ensures Dims(file, at, i, count, before) == Ok(before + dims, at + |DimsBytes(dims)|)
    decreases |dims|
  {
    hide Number, ToBytes, Pow256;
    if dims == [] {
      assert before + dims == before;
    } else {
      HoldsBoth(file, at, ToBytes(dims[0], 8), DimsBytes(dims[1..]));
      NumberReads(file, at, dims[0], 8);
      DimsRead(file, at + 8, i + 1, count, dims[1..], before + [dims[0]]);
      assert before + dims == (before + [dims[0]]) + dims[1..];
    }
  }

  ghost function DescriptorBytes(t: Descriptor): Bytes {
    TextBytes(t.name) + (ToBytes(|t.dims|, 4) + (DimsBytes(t.dims) + (ToBytes(t.kind, 4) + ToBytes(t.offset, 8))))
  }

  function AsTensor(t: Descriptor): Tensor
    requires TensorBytes(t.kind, t.dims).Some?
  {
    Tensor(t.name, t.dims, t.kind, t.offset, TensorBytes(t.kind, t.dims).value)
  }

  lemma TailReads(file: Bytes, at: nat, t: Descriptor)
    requires Describable(t) && Holds(file, at, ToBytes(t.kind, 4) + ToBytes(t.offset, 8))
    ensures TensorTail(file, at, t.name, t.dims) == Ok(AsTensor(t), at + 12)
  {
    hide Number, ToBytes, TensorBytes, Pow256;
    HoldsBoth(file, at, ToBytes(t.kind, 4), ToBytes(t.offset, 8));
    NumberReads(file, at, t.kind, 4);
    NumberReads(file, at + 4, t.offset, 8);
  }

  lemma DescriptorReads(file: Bytes, at: nat, t: Descriptor)
    requires Describable(t) && Holds(file, at, DescriptorBytes(t))
    ensures TensorAt(file, at) == Ok(AsTensor(t), at + |DescriptorBytes(t)|)
  {
    hide Text, Number, Dims, TensorTail, TensorBytes, ToBytes, TextBytes, DimsBytes;
    Powers();
    var tail := ToBytes(t.kind, 4) + ToBytes(t.offset, 8);
    var p := at + |TextBytes(t.name)|;
    HoldsBoth(file, at, TextBytes(t.name), ToBytes(|t.dims|, 4) + (DimsBytes(t.dims) + tail));
    HoldsBoth(file, p, ToBytes(|t.dims|, 4), DimsBytes(t.dims) + tail);
    HoldsBoth(file, p + 4, DimsBytes(t.dims), tail);
    TextReads(file, at, t.name);
    NumberReads(file, p, |t.dims|, 4);
    DimsRead(file, p + 4, 0, |t.dims|, t.dims, []);
    assert [] + t.dims == t.dims;
    TailReads(file, p + 4 + |DimsBytes(t.dims)|, t);
  }

  ghost predicate AllDescribable(ts: seq<Descriptor>) { forall i :: 0 <= i < |ts| ==> Describable(ts[i]) }

  ghost function DescriptorsBytes(ts: seq<Descriptor>): Bytes {
    if ts == [] then [] else DescriptorBytes(ts[0]) + DescriptorsBytes(ts[1..])
  }

  ghost function AsTensors(ts: seq<Descriptor>): seq<Tensor>
    requires AllDescribable(ts)
  {
    if ts == [] then [] else [AsTensor(ts[0])] + AsTensors(ts[1..])
  }

  lemma {:induction false} DescriptorsRead(file: Bytes, at: nat, i: nat, count: nat, ts: seq<Descriptor>, found: seq<Tensor>)
    requires AllDescribable(ts) && i + |ts| == count && Holds(file, at, DescriptorsBytes(ts))
    ensures Tensors(file, at, i, count, found) == Ok(found + AsTensors(ts), at + |DescriptorsBytes(ts)|)
    decreases |ts|
  {
    hide TensorAt, DescriptorBytes, AsTensor, TensorBytes, Short, Pow256;
    if ts == [] {
      assert found + AsTensors(ts) == found;
    } else {
      HoldsBoth(file, at, DescriptorBytes(ts[0]), DescriptorsBytes(ts[1..]));
      DescriptorReads(file, at, ts[0]);
      DescriptorsRead(file, at + |DescriptorBytes(ts[0])|, i + 1, count, ts[1..], found + [AsTensor(ts[0])]);
      assert found + AsTensors(ts) == (found + [AsTensor(ts[0])]) + AsTensors(ts[1..]);
    }
  }

  // ----- the whole header -----

  datatype Sheet = Sheet(version: nat, entries: seq<WrittenEntry>, tensors: seq<Descriptor>)

  ghost predicate Serialisable(h: Sheet) {
    && (h.version == 2 || h.version == 3) && |h.entries| <= MAX_SAFE && |h.tensors| <= MAX_SAFE
    && AllWritable(h.entries) && AllDescribable(h.tensors)
  }

  ghost function PreambleBytes(h: Sheet): Bytes {
    ToBytes(GGUF_MAGIC, 4) + (ToBytes(h.version, 4) + (ToBytes(|h.tensors|, 8) + ToBytes(|h.entries|, 8)))
  }

  ghost function Serialised(h: Sheet): Bytes
    requires Serialisable(h)
  {
    PreambleBytes(h) + (EntriesBytes(h.entries) + DescriptorsBytes(h.tensors))
  }

  lemma PreambleReads(file: Bytes, h: Sheet)
    requires Serialisable(h) && Holds(file, 0, PreambleBytes(h))
    ensures Preamble(file) == Ok(Counts(h.version, |h.tensors|, |h.entries|), 24)
  {
    hide Number, ToBytes, AllWritable, AllDescribable;
    Powers();
    var version, tensors, entries := ToBytes(h.version, 4), ToBytes(|h.tensors|, 8), ToBytes(|h.entries|, 8);
    HoldsBoth(file, 0, ToBytes(GGUF_MAGIC, 4), version + (tensors + entries));
    HoldsBoth(file, 4, version, tensors + entries);
    HoldsBoth(file, 8, tensors, entries);
    NumberReads(file, 0, GGUF_MAGIC, 4);
    NumberReads(file, 4, h.version, 4);
    NumberReads(file, 8, |h.tensors|, 8);
    NumberReads(file, 16, |h.entries|, 8);
  }

  /**
    Every header that can be written is read back, arrays as their length and their first four items,
    whatever bytes follow; and reading stops exactly at its end.
   */
  lemma RoundTrip(h: Sheet, tail: Bytes)
    requires Serialisable(h)
    ensures ParseHeader(Serialised(h) + tail) ==
            Ok(Assembled(Counts(h.version, |h.tensors|, |h.entries|), Collected(h.entries, map[]), AsTensors(h.tensors),
                         24 + |EntriesBytes(h.entries)|, |Serialised(h)|), |Serialised(h)|)
  {
    hide Preamble, Metadata, Tensors, AlignmentOf, DataStart, PreambleBytes, EntriesBytes, DescriptorsBytes, Collected, AsTensors, AllWritable, AllDescribable;
    var file := Serialised(h) + tail;
    assert Holds(file, 0, Serialised(h)) by { HoldsStart(Serialised(h), tail); }
    var entries, tensors := EntriesBytes(h.entries), DescriptorsBytes(h.tensors);
    HoldsBoth(file, 0, PreambleBytes(h), entries + tensors);
    PreambleSize(h);
    HoldsBoth(file, 24, entries, tensors);
    PreambleReads(file, h);
    EntriesRead(file, 24, 0, |h.entries|, h.entries, map[]);
    DescriptorsRead(file, 24 + |entries|, 0, |h.tensors|, h.tensors, []);
    assert [] + AsTensors(h.tensors) == AsTensors(h.tensors);
  }

  lemma HoldsStart(piece: Bytes, tail: Bytes)
    ensures Holds(piece + tail, 0, piece)
  {
  }

  lemma PreambleSize(h: Sheet)
    ensures |PreambleBytes(h)| == 24
  {
  }

  /** Cut short anywhere, a written header does not parse. */
  lemma PrefixesFail(h: Sheet, cut: nat)
    requires Serialisable(h) && cut < |Serialised(h)|
    ensures ParseHeader(Serialised(h)[..cut]).Err?
  {
    hide ParseHeader, Serialised;
    RoundTrip(h, []);
    assert Serialised(h) + [] == Serialised(h);
    TruncatedFails(Serialised(h), cut);
  }
}
