/**
  The header format byte by byte: what each part of the reader gives in terms of the file's bytes and
  the format's own numbers.
 */
module GgufBytes {
  import Arith
  import opened Option
  import opened GgufFormat

  // ----- words -----

  /** Little-endian numbers of two, four and eight bytes. */
  function Word2(file: Bytes, at: nat): nat
    requires at + 2 <= |file|
  {
    var low: nat, high: nat := file[at], file[at + 1];
    low + 256 * high
  }

  function Word4(file: Bytes, at: nat): nat
    requires at + 4 <= |file|
  {
    Word2(file, at) + 65536 * Word2(file, at + 2)
  }

  function Word8(file: Bytes, at: nat): nat
    requires at + 8 <= |file|
  {
    Word4(file, at) + 4294967296 * Word4(file, at + 4)
  }

  lemma Cons(bytes: Bytes)
    requires bytes != []
    ensures LittleEndian(bytes) == bytes[0] + 256 * LittleEndian(bytes[1..])
  {
  }

  lemma Little1(file: Bytes, at: nat)
    requires at + 1 <= |file|
    ensures LittleEndian(file[at..at + 1]) == file[at]
  {
    assert file[at..at + 1][1..] == [];
  }

  lemma Little2(file: Bytes, at: nat)
    requires at + 2 <= |file|
    ensures LittleEndian(file[at..at + 2]) == Word2(file, at)
  {
    Cons(file[at..at + 2]);
    assert file[at..at + 2][1..] == file[at + 1..at + 2];
    Little1(file, at + 1);
  }

  lemma Little4(file: Bytes, at: nat)
    requires at + 4 <= |file|
    ensures LittleEndian(file[at..at + 4]) == Word4(file, at)
  {
    hide LittleEndian;
    Cons(file[at..at + 4]);
    assert file[at..at + 4][1..] == file[at + 1..at + 4];
    Cons(file[at + 1..at + 4]);
    assert file[at + 1..at + 4][1..] == file[at + 2..at + 4];
    Little2(file, at + 2);
  }

  lemma Little8(file: Bytes, at: nat)
    requires at + 8 <= |file|
    ensures LittleEndian(file[at..at + 8]) == Word8(file, at)
  {
    hide LittleEndian, Word4;
    FourMore(file, at);
    Little4(file, at);
    Little4(file, at + 4);
  }

  lemma FourMore(file: Bytes, at: nat)
    requires at + 8 <= |file|
    ensures LittleEndian(file[at..at + 8]) == LittleEndian(file[at..at + 4]) + 4294967296 * LittleEndian(file[at + 4..at + 8])
  {
    hide LittleEndian, Word4;
    Little4(file, at);
    Cons(file[at..at + 8]);
    assert file[at..at + 8][1..] == file[at + 1..at + 8];
    Cons(file[at + 1..at + 8]);
    assert file[at + 1..at + 8][1..] == file[at + 2..at + 8];
    Cons(file[at + 2..at + 8]);
    assert file[at + 2..at + 8][1..] == file[at + 3..at + 8];
    Cons(file[at + 3..at + 8]);
    assert file[at + 3..at + 8][1..] == file[at + 4..at + 8];
    Four(file, at);
  }

  lemma Four(file: Bytes, at: nat)
    requires at + 4 <= |file|
    ensures var a: nat, b: nat, c: nat, d: nat := file[at], file[at + 1], file[at + 2], file[at + 3];
            Word4(file, at) == a + 256 * (b + 256 * (c + 256 * d))
  {
  }

  lemma NumberIsWord(file: Bytes, at: nat)
    ensures Number(file, at, 4) == if at + 4 > |file| then Err(Ended) else Ok(Word4(file, at), at + 4)
    ensures Number(file, at, 8) == if at + 8 > |file| then Err(Ended) else Ok(Word8(file, at), at + 8)
  {
    hide LittleEndian, Word4, Word8;
    if at + 4 <= |file| {
      Little4(file, at);
    }
    if at + 8 <= |file| {
      Little8(file, at);
    }
  }

  // ----- scalars -----

  /** The value of `n` read as a two's complement number below `2 * half`. */
  function Below(n: nat, half: nat): int { if n < half then n else n - 2 * half }

  /** Bytes of a scalar of each kind. */
  function Size(kind: nat): Option<nat> {
    match kind
    case 0 => Some(1) case 1 => Some(1) case 2 => Some(2) case 3 => Some(2) case 4 => Some(4) case 5 => Some(4)
    case 6 => Some(4) case 7 => Some(1) case 10 => Some(8) case 11 => Some(8) case 12 => Some(8)
    case _ => None
  }

  /** The scalar of a kind that stands at an offset. */
  function ScalarThere(file: Bytes, at: nat, kind: nat): Scalar
    requires Size(kind).Some? && at + Size(kind).value <= |file|
  {
    match kind
    case 0 => IntValue(file[at])
    case 1 => IntValue(Below(file[at], 128))
    case 2 => IntValue(Word2(file, at))
    case 3 => IntValue(Below(Word2(file, at), 32768))
    case 4 => IntValue(Word4(file, at))
    case 5 => IntValue(Below(Word4(file, at), 2147483648))
    case 6 => FloatBits(file[at..at + 4])
    case 7 => BoolValue(file[at] != 0)
    case 10 => IntValue(Word8(file, at))
    case 11 => IntValue(Below(Word8(file, at), 9223372036854775808))
    case _ => FloatBits(file[at..at + 8])
  }

  /** Two's complement of one, two, four and eight bytes. */
  lemma SignedIs(n: nat)
    ensures Signed(n, 1) == Below(n, 128) && Signed(n, 2) == Below(n, 32768)
    ensures Signed(n, 4) == Below(n, 2147483648) && Signed(n, 8) == Below(n, 9223372036854775808)
  {
    assert Pow256(1) == 256 * Pow256(0) && Pow256(2) == 256 * Pow256(1);
    assert Pow256(3) == 256 * Pow256(2) && Pow256(4) == 256 * Pow256(3);
    assert Pow256(5) == 256 * Pow256(4) && Pow256(6) == 256 * Pow256(5);
    assert Pow256(7) == 256 * Pow256(6) && Pow256(8) == 256 * Pow256(7);
  }

  /** Scalars by kind: 0, 2, 4, 10 unsigned, 1, 3, 5, 11 signed, 6 and 12 floats, 7 a flag, and no others. */
  lemma ScalarBytes(file: Bytes, at: nat, kind: nat)
    ensures ScalarAt(file, at, kind) ==
            if Size(kind).None? then Err(NotScalar)
            else if at + Size(kind).value > |file| then Err(Ended)
            else Ok(ScalarThere(file, at, kind), at + Size(kind).value)
  {
    hide LittleEndian, Signed, Word2, Word4, Word8;
    assert Size(kind) == Width(kind);
    if Size(kind).Some? && at + Size(kind).value <= |file| {
      var w := Size(kind).value;
      if w == 1 {
        Little1(file, at);
      } else if w == 2 {
        Little2(file, at);
      } else if w == 4 {
        Little4(file, at);
      } else {
        Little8(file, at);
      }
      SignedIs(LittleEndian(file[at..at + w]));
    }
  }

  /** All bits set are -1 in every signed kind, and the largest number in every unsigned one. */
  lemma AllOnes(file: Bytes, at: nat, kind: nat)
    requires Size(kind).Some? && at + Size(kind).value <= |file|
    requires forall i :: at <= i < at + Size(kind).value ==> file[i] == 255
    ensures kind == 1 || kind == 3 || kind == 5 || kind == 11 ==> ScalarAt(file, at, kind) == Ok(IntValue(-1), at + Size(kind).value)
    ensures kind == 0 ==> ScalarAt(file, at, 0) == Ok(IntValue(255), at + 1)
    ensures kind == 2 ==> ScalarAt(file, at, 2) == Ok(IntValue(65535), at + 2)
    ensures kind == 4 ==> ScalarAt(file, at, 4) == Ok(IntValue(4294967295), at + 4)
    ensures kind == 10 ==> ScalarAt(file, at, 10) == Ok(IntValue(18446744073709551615), at + 8)
  {
    hide ScalarAt;
    ScalarBytes(file, at, kind);
  }

  // ----- strings and values -----

  /** A string: eight bytes of length, then its bytes. */
  lemma TextBytes(file: Bytes, at: nat)
    ensures Text(file, at) ==
            if at + 8 > |file| then Err(Ended)
            else if Word8(file, at) > 9007199254740991 then Err(Implausible)
            else if at + 8 + Word8(file, at) > |file| then Err(Ended)
            else Ok(file[at + 8..at + 8 + Word8(file, at)], at + 8 + Word8(file, at))
  {
    hide Number, Word8;
    NumberIsWord(file, at);
  }

  /** Kind 8 is a string, kind 9 an array, every other kind a scalar. */
  lemma ValueBytes(file: Bytes, at: nat, kind: nat)
    ensures ValueAt(file, at, kind) ==
            if kind == 8 then match Text(file, at) case Err(e) => Err(e) case Ok(text, next) => Ok(TextValue(text), next)
            else if kind == 9 then ArrayAt(file, at)
            else match ScalarAt(file, at, kind) case Err(e) => Err(e) case Ok(scalar, next) => Ok(ScalarValue(scalar), next)
  {
  }

  lemma {:induction false} ItemsThere(file: Bytes, at: nat, i: nat, count: nat, kind: nat, sample: seq<Item>)
    requires Size(kind).Some? && i <= count && at <= |file|
    ensures var w, r := Size(kind).value, ScalarItems(file, at, i, count, kind, sample);
            if at + (count - i) * w > |file| then r == Err(Ended)
            else
              && r.Ok? && r.next == at + (count - i) * w && |r.value| == |sample| + count - i && r.value[..|sample|] == sample
              && forall k: nat :: k < count - i ==>
                   at + k * w + w <= |file| && r.value[|sample| + k] == ScalarItem(ScalarThere(file, at + k * w, kind))
    decreases count - i
  {
    hide ScalarAt, ScalarThere;
    var w := Size(kind).value;
    ScalarBytes(file, at, kind);
    if i < count {
      assert (count - i) * w == w + (count - i - 1) * w;
      assert (count - i - 1) * w >= 0;
      if at + w <= |file| {
        var one := sample + [ScalarItem(ScalarThere(file, at, kind))];
        ItemsThere(file, at + w, i + 1, count, kind, one);
        var r := ScalarItems(file, at, i, count, kind, sample);
        if r.Ok? {
          assert r.value[..|sample|] == r.value[..|one|][..|sample|];
          forall k: nat | k < count - i
            ensures at + k * w + w <= |file| && r.value[|sample| + k] == ScalarItem(ScalarThere(file, at + k * w, kind))
          {
            if k == 0 {
              assert r.value[|sample|] == r.value[..|one|][|sample|];
            } else {
              assert at + w + (k - 1) * w == at + k * w;
              assert r.value[|one| + (k - 1)] == ScalarItem(ScalarThere(file, at + w + (k - 1) * w, kind));
            }
          }
        }
      }
    }
  }

  /** An array of scalars: its first four, or all of fewer, and all of it has to be there. */
  lemma ScalarArrayBytes(file: Bytes, at: nat, length: nat, kind: nat)
    requires at <= |file|
    ensures var r := ScalarArray(file, at, length, kind);
            if Size(kind).None? then r == Err(UnknownItem)
            else
              var w := Size(kind).value;
              if at + length * w > |file| then r == Err(Ended)
              else
                && r.Ok? && r.next == at + length * w && |r.value| == (if length < 4 then length else 4)
                && forall k: nat :: k < |r.value| ==>
                     at + k * w + w <= |file| && r.value[k] == ScalarItem(ScalarThere(file, at + k * w, kind))
  {
    hide ScalarItems, ScalarThere;
    assert Size(kind) == Width(kind);
    if Size(kind).Some? {
      var w, taken := Size(kind).value, if length < 4 then length else 4;
      ItemsThere(file, at, 0, taken, kind, []);
      SplitCount(length, taken, w);
      var r := ScalarItems(file, at, 0, taken, kind, []);
      forall k: nat | r.Ok? && k < taken
        ensures r.value[k] == ScalarItem(ScalarThere(file, at + k * w, kind))
      {
        assert r.value[0 + k] == ScalarItem(ScalarThere(file, at + k * w, kind));
      }
    }
  }

  lemma SplitCount(length: nat, taken: nat, w: nat)
    requires taken <= length
    ensures taken * w + (length - taken) * w == length * w && (length - taken) * w >= 0 && taken * w >= 0
    ensures Bulk(length - taken, w) == (length - taken) * w
  {
    assert (taken + (length - taken)) * w == taken * w + (length - taken) * w;
  }

  /** An array: four bytes for the kind of its items, eight for how many there are, then the items; none of them arrays. */
  lemma ArrayBytes(file: Bytes, at: nat)
    ensures var r := ArrayAt(file, at);
            if at + 12 > |file| then r == Err(Ended)
            else
              var itemKind, length := Word4(file, at), Word8(file, at + 4);
              if length > 9007199254740991 then r == Err(Implausible)
              else if itemKind == 9 then r == Err(NestedArray)
              else
                var items := if itemKind == 8 then TextItems(file, at + 12, 0, length, []) else ScalarArray(file, at + 12, length, itemKind);
                r == match items case Err(e) => Err(e) case Ok(sample, next) => Ok(ArrayValue(itemKind, length, sample), next)
  {
    hide Number, Word4, Word8, TextItems, ScalarArray;
    NumberIsWord(file, at);
    NumberIsWord(file, at + 4);
  }

  /** A metadata entry: its key, four bytes for the kind of its value, and the value. */
  lemma EntryBytes(file: Bytes, at: nat)
    ensures var r := EntryAt(file, at);
            match Text(file, at)
            case Err(e) => r == Err(e)
            case Ok(key, p) =>
              if p + 4 > |file| then r == Err(Ended)
              else r == match ValueAt(file, p + 4, Word4(file, p)) case Err(e) => Err(e) case Ok(value, next) => Ok(Entry(key, value), next)
  {
    hide Number, Word4, Text, ValueAt;
    match Text(file, at)
    case Err(_) =>
    case Ok(_, p) => NumberIsWord(file, p);
  }

  // ----- tensor descriptors -----

  /** `count` numbers of eight bytes each. */
  function Words(file: Bytes, at: nat, count: nat): (dims: seq<nat>)
    requires at + 8 * count <= |file|
    ensures |dims| == count
    decreases count
  {
    if count == 0 then [] else [Word8(file, at)] + Words(file, at + 8, count - 1)
  }

  lemma {:induction false} DimsAreWords(file: Bytes, at: nat, i: nat, count: nat, dims: seq<nat>)
    requires i <= count && at <= |file|
    ensures Dims(file, at, i, count, dims) ==
            if at + 8 * (count - i) > |file| then Err(Ended) else Ok(dims + Words(file, at, count - i), at + 8 * (count - i))
    decreases count - i
  {
    hide Number, Word8;
    NumberIsWord(file, at);
    if i == count {
      assert dims + [] == dims;
    } else if at + 8 <= |file| {
      DimsAreWords(file, at + 8, i + 1, count, dims + [Word8(file, at)]);
      if at + 8 * (count - i) <= |file| {
        assert dims + [Word8(file, at)] + Words(file, at + 8, count - i - 1) == dims + Words(file, at, count - i);
      }
    }
  }

  /**
    A tensor descriptor: its name, four bytes for the number of dimensions (at most four), eight for each,
    four for the type and eight for the offset.
   */
  lemma DescriptorBytes(file: Bytes, at: nat)
    ensures var r, name := TensorAt(file, at), Text(file, at);
            if name.Err? then r == Err(name.error)
            else if name.next + 4 > |file| then r == Err(Ended)
            else
              var n := Word4(file, name.next);
              var q := name.next + 4 + 8 * n;
              if n > 4 then r == Err(TooManyDims)
              else if q + 12 > |file| then r == Err(Ended)
              else
                var dims := Words(file, name.next + 4, n);
                var bytes := TensorBytes(Word4(file, q), dims);
                r == if bytes.None? then Err(BadTensor)
                     else Ok(Tensor(name.value, dims, Word4(file, q), Word8(file, q + 4), bytes.value), q + 12)
  {
    hide Number, Word4, Word8, Text, Dims, TensorBytes, Words;
    var name := Text(file, at);
    if name.Ok? {
      var p := name.next;
      NumberIsWord(file, p);
      if p + 4 <= |file| && Word4(file, p) <= 4 {
        var n := Word4(file, p);
        var q := p + 4 + 8 * n;
        DimsAreWords(file, p + 4, 0, n, []);
        if q <= |file| {
          NumberIsWord(file, q);
          NumberIsWord(file, q + 4);
          assert [] + Words(file, p + 4, n) == Words(file, p + 4, n);
        }
      }
    }
  }

  /** Bytes of one number of the plain types, of a block of 32, and of a block of 256. */
  const ONES: map<nat, nat> := map[0 := 4, 1 := 2, 24 := 1, 25 := 2, 26 := 4, 27 := 8, 28 := 8, 30 := 2]
  const BLOCKS_32: map<nat, nat> := map[2 := 18, 3 := 20, 6 := 22, 7 := 24, 8 := 34, 9 := 40, 20 := 18, 39 := 17]
  const BLOCKS_256: map<nat, nat> := map[
    10 := 84, 11 := 110, 12 := 144, 13 := 176, 14 := 210, 15 := 292, 16 := 66, 17 := 74, 18 := 98, 19 := 50,
    21 := 110, 22 := 82, 23 := 136, 29 := 56, 34 := 54, 35 := 66]

  /** `n` blocks take `n` times the bytes of one, whatever the type; other types are unknown. */
  lemma TypeSizes(kind: nat, n: nat)
    ensures kind in ONES ==> TensorBytes(kind, [n]) == Some(n * ONES[kind])
    ensures kind in BLOCKS_32 ==> TensorBytes(kind, [n * 32]) == Some(n * BLOCKS_32[kind])
    ensures kind in BLOCKS_256 ==> TensorBytes(kind, [n * 256]) == Some(n * BLOCKS_256[kind])
    ensures kind == 40 ==> TensorBytes(kind, [n * 64]) == Some(n * 36)
    ensures kind !in ONES && kind !in BLOCKS_32 && kind !in BLOCKS_256 && kind != 40 ==> TensorBytes(kind, [n]) == None
  {
    hide TraitOf, TensorBytes;
    PlainTypes(kind);
    SmallTypes(kind);
    LargeTypes(kind);
    OtherTypes(kind);
    if TraitOf(kind).Some? {
      BlocksTake(kind, TraitOf(kind).value, n);
    } else {
      UnknownType(kind, n);
    }
  }

  lemma BlocksTake(kind: nat, t: Trait, n: nat)
    requires TraitOf(kind) == Some(t) && t.blck > 0
    ensures TensorBytes(kind, [n * t.blck]) == Some(n * t.size)
  {
    hide TraitOf, Product;
    Arith.DivModUnique(n * t.blck, n, 0, t.blck);
    assert [n * t.blck][1..] == [];
    NoFactors();
  }

  lemma UnknownType(kind: nat, n: nat)
    requires TraitOf(kind).None?
    ensures TensorBytes(kind, [n]) == None
  {
  }

  lemma NoFactors()
    ensures Product([]) == 1
  {
  }

  lemma PlainTypes(kind: nat)
    ensures kind in ONES ==> TraitOf(kind) == Some(Trait(1, ONES[kind]))
  {
  }

  lemma SmallTypes(kind: nat)
    ensures kind in BLOCKS_32 ==> TraitOf(kind) == Some(Trait(32, BLOCKS_32[kind]))
    ensures kind == 40 ==> TraitOf(kind) == Some(Trait(64, 36))
  {
  }

  lemma LargeTypes(kind: nat)
    ensures kind in BLOCKS_256 ==> TraitOf(kind) == Some(Trait(256, BLOCKS_256[kind]))
  {
  }

  lemma OtherTypes(kind: nat)
    ensures TraitOf(kind).Some? ==> kind in ONES || kind in BLOCKS_32 || kind in BLOCKS_256 || kind == 40
  {
  }

  // ----- the beginning and the end -----

  /**
    The beginning of a header: the bytes of "GGUF", four bytes for a version that is 2 or 3, eight for the
    number of tensors and eight for that of metadata entries, both at most 2^53 - 1.
   */
  lemma PreambleBytes(file: Bytes)
    ensures Preamble(file) ==
            if |file| < 4 then Err(Ended)
            else if file[..4] != [71, 71, 85, 70] then Err(BadMagic)
            else if |file| < 8 then Err(Ended)
            else if Word4(file, 4) != 2 && Word4(file, 4) != 3 then Err(BadVersion)
            else if |file| < 24 then Err(Ended)
            else if Word8(file, 8) > 9007199254740991 || Word8(file, 16) > 9007199254740991 then Err(BadCounts)
            else Ok(Counts(Word4(file, 4), Word8(file, 8), Word8(file, 16)), 24)
  {
    hide Number, Word4, Word8;
    NumberIsWord(file, 0);
    NumberIsWord(file, 4);
    NumberIsWord(file, 8);
    NumberIsWord(file, 16);
    if |file| >= 4 {
      MagicBytes(file);
    }
  }

  lemma MagicBytes(file: Bytes)
    requires |file| >= 4
    ensures Word4(file, 0) == GGUF_MAGIC <==> file[..4] == [71, 71, 85, 70]
  {
    var a: nat, b: nat, c: nat, d: nat := file[0], file[1], file[2], file[3];
    assert Word4(file, 0) == a + 256 * b + 65536 * (c + 256 * d);
  }

  /** The key of the alignment entry, in ASCII, and the alignment without it. */
  lemma AlignmentName()
    ensures |ALIGNMENT_KEY| == |"general.alignment"|
    ensures forall i :: 0 <= i < |ALIGNMENT_KEY| ==> ALIGNMENT_KEY[i] == "general.alignment"[i] as int
    ensures AlignmentOf(map[]) == Exactly(32)
  {
  }

  /** A header that parses starts with what its first 24 bytes say, and ends inside the file. */
  lemma HeaderBytes(file: Bytes)
    requires ParseHeader(file).Ok?
    ensures |file| >= 24 && file[..4] == [71, 71, 85, 70]
    ensures var h := ParseHeader(file).value;
            && h.version == Word4(file, 4) && (h.version == 2 || h.version == 3)
            && h.tensorCount == Word8(file, 8) == |h.tensors| && h.kvCount == Word8(file, 16)
            && 24 <= h.metadataEnd <= h.descriptorsEnd <= |file|
  {
    hide Preamble, Metadata, Tensors, AlignmentOf, DataStart, Word4, Word8;
    PreambleBytes(file);
    var counts := Preamble(file).value;
    var metadata := Metadata(file, 24, 0, counts.kvs, map[]);
    AllTensors(file, metadata.next, 0, counts.tensors, []);
  }

  lemma {:induction false} AllTensors(file: Bytes, at: nat, i: nat, count: nat, found: seq<Tensor>)
    requires i <= count && Tensors(file, at, i, count, found).Ok?
    ensures |Tensors(file, at, i, count, found).value| == |found| + count - i
    decreases count - i
  {
    hide TensorAt;
    if i < count {
      var t := TensorAt(file, at);
      AllTensors(file, t.next, i + 1, count, found + [t.value]);
    }
  }
}
