/**
  The header reader: a cursor over a byte source that it asks for more bytes as it goes.

  Every read is proved to give what `GgufFormat` gives on the whole file, however the source grows; it
  can only fall short where the source does not give the bytes.
 */
module GgufReader {
  import opened Arith
  import opened Option
  import opened GgufFormat
  import opened GgufLaws
  import opened ByteSource

  /** A value, an error in what was read, or no bytes from the source. */
  datatype Outcome<+T> = Value(value: T) | Thrown(error: Error) | NoBytes

  /** Bytes are only missing where a successful read would have needed more than the source serves, or now holds. */
  ghost predicate Agrees<T>(r: Outcome<T>, spec: R<T>, offset: nat, source: Source)
    reads source.Object()
  {
    match r
    case Value(value) => spec == Ok(value, offset)
    case Thrown(error) => spec == Err(error)
    case NoBytes => spec.Ok? ==> Short(source, spec.next)
  }

  ghost predicate Short(source: Source, end: nat)
    reads source.Object()
  {
    !source.Serves(end) && (source.Reliable() ==> |source.Held()| < end)
  }

  class Cursor {
    const source: Source
    var offset: nat

    /** Nothing has been asked for beyond the offset, and all of it was given. */
    ghost predicate Ready()
      reads this, source.Object()
    {
      Sound() && source.Wanted() <= offset <= |source.Held()| && source.FailedAt().None?
    }

    ghost predicate Sound()
      reads this, source.Object()
    {
      source.Valid() && source.Settled()
    }

    /** Nothing has been asked for at all. */
    ghost predicate AtStart()
      reads this, source.Object()
    {
      source.Valid() && source.Wanted() == 0 && source.FailedAt().None? && offset == 0
    }

    constructor (source: Source)
      requires source.Valid() && source.Wanted() == 0 && source.FailedAt().None?
      ensures AtStart() && this.source == source && offset == 0
    {
      this.source := source;
      offset := 0;
    }

    method View(length: nat) returns (r: Outcome<Bytes>)
      requires Ready() || (AtStart() && 0 < length <= FIRST_READ)
      modifies this, source.Object()
      ensures Sound() && (r.Value? ==> Ready()) && !r.Thrown?
      ensures r.Value? ==>
        offset == old(offset) + length <= |source.File()| && r.value == source.File()[old(offset)..old(offset) + length]
      ensures r.NoBytes? ==> Short(source, old(offset) + length)
    {
      var ok := source.Ensure(offset + length);
      if !ok {
        return NoBytes;
      }
      var bytes := source.Held();
      assert bytes[offset..offset + length] == source.File()[offset..offset + length];
      offset := offset + length;
      return Value(bytes[offset - length..offset]);
    }

    method Int(width: nat) returns (r: Outcome<nat>)
      requires Ready() || (AtStart() && 0 < width <= FIRST_READ)
      modifies this, source.Object()
      ensures Sound() && (r.Value? ==> Ready())
      ensures Agrees(r, Number(source.File(), old(offset), width), offset, source)
    {
      hide LittleEndian;
      var view := View(width);
      if !view.Value? {
        return NoBytes;
      }
      return Value(LittleEndian(view.value));
    }

    method ReadScalar(kind: nat) returns (r: Outcome<Scalar>)
      requires Ready()
      modifies this, source.Object()
      ensures Sound() && (r.Value? ==> Ready())
      ensures Agrees(r, ScalarAt(source.File(), old(offset), kind), offset, source)
    {
      hide ScalarOf, Width;
      var width := Width(kind);
      if width.None? {
        return Thrown(NotScalar);
      }
      var view := View(width.value);
      if !view.Value? {
        return NoBytes;
      }
      return Value(ScalarOf(kind, view.value));
    }

    method ReadText() returns (r: Outcome<Bytes>)
      requires Ready()
      modifies this, source.Object()
      ensures Sound() && (r.Value? ==> Ready())
      ensures Agrees(r, Text(source.File(), old(offset)), offset, source)
    {
      hide Number;
      var length := Int(8);
      if length.NoBytes? {
        return NoBytes;
      }
      if length.Thrown? {
        return Thrown(length.error);
      }
      if length.value > MAX_SAFE {
        return Thrown(Implausible);
      }
      var view := View(length.value);
      if !view.Value? {
        return NoBytes;
      }
      return Value(view.value);
    }

    method PassOver(length: nat) returns (r: Outcome<()>)
      requires Ready()
      modifies this, source.Object()
      ensures Sound() && (r.Value? ==> Ready())
      ensures Agrees(r, Skip(source.File(), old(offset), length), offset, source)
    {
      var ok := source.Ensure(offset + length);
      if !ok {
        return NoBytes;
      }
      offset := offset + length;
      return Value(());
    }

    method PassOverText() returns (r: Outcome<()>)
      requires Ready()
      modifies this, source.Object()
      ensures Sound() && (r.Value? ==> Ready())
      ensures Agrees(r, SkipText(source.File(), old(offset)), offset, source)
    {
      hide Number;
      var length := Int(8);
      if length.NoBytes? {
        return NoBytes;
      }
      if length.Thrown? {
        return Thrown(length.error);
      }
      r := PassOver(length.value);
    }

    method ReadTextItems(length: nat) returns (r: Outcome<seq<Item>>)
      requires Ready()
      modifies this, source.Object()
      ensures Sound() && (r.Value? ==> Ready())
      ensures Agrees(r, TextItems(source.File(), old(offset), 0, length, []), offset, source)
    {
      hide Text, SkipText;
      var sample: seq<Item> := [];
      var i := 0;
      while i < length
        invariant Ready() && i <= length
        invariant TextItems(source.File(), old(offset), 0, length, []) == TextItems(source.File(), offset, i, length, sample)
      {
        if i < ARRAY_SAMPLE {
          var text := ReadText();
          if text.NoBytes? {
            return NoBytes;
          }
          if text.Thrown? {
            return Thrown(text.error);
          }
          sample := sample + [TextItem(text.value)];
        } else {
          var passed := PassOverText();
          if passed.NoBytes? {
            return NoBytes;
          }
          if passed.Thrown? {
            return Thrown(passed.error);
          }
        }
        i := i + 1;
      }
      return Value(sample);
    }

    method ReadScalarItems(count: nat, kind: nat) returns (r: Outcome<seq<Item>>)
      requires Ready()
      modifies this, source.Object()
      ensures Sound() && (r.Value? ==> Ready())
      ensures Agrees(r, ScalarItems(source.File(), old(offset), 0, count, kind, []), offset, source)
    {
      hide ScalarAt;
      var sample: seq<Item> := [];
      var i := 0;
      while i < count
        invariant Ready() && i <= count
        invariant ScalarItems(source.File(), old(offset), 0, count, kind, [])
               == ScalarItems(source.File(), offset, i, count, kind, sample)
      {
        var scalar := ReadScalar(kind);
        if scalar.NoBytes? {
          return NoBytes;
        }
        if scalar.Thrown? {
          return Thrown(scalar.error);
        }
        sample := sample + [ScalarItem(scalar.value)];
        i := i + 1;
      }
      return Value(sample);
    }

    method ReadScalarArray(length: nat, kind: nat) returns (r: Outcome<seq<Item>>)
      requires Ready()
      modifies this, source.Object()
      ensures Sound() && (r.Value? ==> Ready())
      ensures Agrees(r, ScalarArray(source.File(), old(offset), length, kind), offset, source)
    {
      hide ScalarItems, Width, Bulk;
      var width := Width(kind);
      if width.None? {
        return Thrown(UnknownItem);
      }
      var taken := GgufFormat.Least(length, ARRAY_SAMPLE);
      var sample := ReadScalarItems(taken, kind);
      if sample.NoBytes? {
        return NoBytes;
      }
      if sample.Thrown? {
        return Thrown(sample.error);
      }
      var passed := PassOver(Bulk(length - taken, width.value));
      if !passed.Value? {
        return NoBytes;
      }
      return Value(sample.value);
    }

    method ReadArray() returns (r: Outcome<GgufFormat.Value>)
      requires Ready()
      modifies this, source.Object()
      ensures Sound() && (r.Value? ==> Ready())
      ensures Agrees(r, ArrayAt(source.File(), old(offset)), offset, source)
    {
      hide Number, TextItems, ScalarArray;
      var itemKind := Int(4);
      if !itemKind.Value? {
        return if itemKind.NoBytes? then NoBytes else Thrown(itemKind.error);
      }
      var length := Int(8);
      if !length.Value? {
        return if length.NoBytes? then NoBytes else Thrown(length.error);
      }
      if length.value > MAX_SAFE {
        return Thrown(Implausible);
      }
      var sample: Outcome<seq<Item>>;
      if itemKind.value == T_STRING {
        sample := ReadTextItems(length.value);
      } else if itemKind.value == T_ARRAY {
        return Thrown(NestedArray);
      } else {
        sample := ReadScalarArray(length.value, itemKind.value);
      }
      if !sample.Value? {
        return if sample.NoBytes? then NoBytes else Thrown(sample.error);
      }
      return Value(ArrayValue(itemKind.value, length.value, sample.value));
    }

    method ReadValue(kind: nat) returns (r: Outcome<GgufFormat.Value>)
      requires Ready()
      modifies this, source.Object()
      ensures Sound() && (r.Value? ==> Ready())
      ensures Agrees(r, ValueAt(source.File(), old(offset), kind), offset, source)
    {
      hide Text, ScalarAt, ArrayAt;
      if kind == T_STRING {
        var text := ReadText();
        if !text.Value? {
          return if text.NoBytes? then NoBytes else Thrown(text.error);
        }
        return Value(TextValue(text.value));
      }
      if kind != T_ARRAY {
        var scalar := ReadScalar(kind);
        if !scalar.Value? {
          return if scalar.NoBytes? then NoBytes else Thrown(scalar.error);
        }
        return Value(ScalarValue(scalar.value));
      }
      r := ReadArray();
    }

    method ReadEntry() returns (r: Outcome<Entry>)
      requires Ready()
      modifies this, source.Object()
      ensures Sound() && (r.Value? ==> Ready())
      ensures Agrees(r, EntryAt(source.File(), old(offset)), offset, source)
    {
      hide Text, Number, ValueAt;
      var key := ReadText();
      if !key.Value? {
        return if key.NoBytes? then NoBytes else Thrown(key.error);
      }
      var kind := Int(4);
      if !kind.Value? {
        return if kind.NoBytes? then NoBytes else Thrown(kind.error);
      }
      var value := ReadValue(kind.value);
      if !value.Value? {
        return if value.NoBytes? then NoBytes else Thrown(value.error);
      }
      return Value(Entry(key.value, value.value));
    }

    method ReadMetadata(count: nat) returns (r: Outcome<map<Bytes, GgufFormat.Value>>)
      requires Ready()
      modifies this, source.Object()
      ensures Sound() && (r.Value? ==> Ready())
      ensures Agrees(r, Metadata(source.File(), old(offset), 0, count, map[]), offset, source)
    {
      hide EntryAt;
      var metadata: map<Bytes, GgufFormat.Value> := map[];
      var i := 0;
      while i < count
        invariant Ready() && i <= count
        invariant Metadata(source.File(), old(offset), 0, count, map[]) == Metadata(source.File(), offset, i, count, metadata)
      {
        var entry := ReadEntry();
        if !entry.Value? {
          return if entry.NoBytes? then NoBytes else Thrown(entry.error);
        }
        metadata := metadata[entry.value.key := entry.value.value];
        i := i + 1;
      }
      return Value(metadata);
    }

    method ReadDims(count: nat) returns (r: Outcome<seq<nat>>)
      requires Ready()
      modifies this, source.Object()
      ensures Sound() && (r.Value? ==> Ready())
      ensures Agrees(r, Dims(source.File(), old(offset), 0, count, []), offset, source)
    {
      hide Number;
      var dims: seq<nat> := [];
      var d := 0;
      while d < count
        invariant Ready() && d <= count
        invariant Dims(source.File(), old(offset), 0, count, []) == Dims(source.File(), offset, d, count, dims)
      {
        var dim := Int(8);
        if !dim.Value? {
          return if dim.NoBytes? then NoBytes else Thrown(dim.error);
        }
        dims := dims + [dim.value];
        d := d + 1;
      }
      return Value(dims);
    }

    method ReadTail(name: Bytes, dims: seq<nat>) returns (r: Outcome<Tensor>)
      requires Ready()
      modifies this, source.Object()
      ensures Sound() && (r.Value? ==> Ready())
      ensures Agrees(r, TensorTail(source.File(), old(offset), name, dims), offset, source)
    {
      hide Number, TensorBytes;
      var kind := Int(4);
      if !kind.Value? {
        return if kind.NoBytes? then NoBytes else Thrown(kind.error);
      }
      var at := Int(8);
      if !at.Value? {
        return if at.NoBytes? then NoBytes else Thrown(at.error);
      }
      var bytes := CountBytes(kind.value, dims);
      if bytes.None? {
        return Thrown(BadTensor);
      }
      return Value(Tensor(name, dims, kind.value, at.value, bytes.value));
    }

    method ReadTensor() returns (r: Outcome<Tensor>)
      requires Ready()
      modifies this, source.Object()
      ensures Sound() && (r.Value? ==> Ready())
      ensures Agrees(r, TensorAt(source.File(), old(offset)), offset, source)
    {
      hide Text, Number, Dims, TensorTail;
      var name := ReadText();
      if !name.Value? {
        return if name.NoBytes? then NoBytes else Thrown(name.error);
      }
      var nDims := Int(4);
      if !nDims.Value? {
        return if nDims.NoBytes? then NoBytes else Thrown(nDims.error);
      }
      if nDims.value > 4 {
        return Thrown(TooManyDims);
      }
      var dims := ReadDims(nDims.value);
      if !dims.Value? {
        return if dims.NoBytes? then NoBytes else Thrown(dims.error);
      }
      r := ReadTail(name.value, dims.value);
    }

    method ReadTensors(count: nat) returns (r: Outcome<seq<Tensor>>)
      requires Ready()
      modifies this, source.Object()
      ensures Sound() && (r.Value? ==> Ready())
      ensures Agrees(r, Tensors(source.File(), old(offset), 0, count, []), offset, source)
    {
      hide TensorAt;
      var tensors: seq<Tensor> := [];
      var i := 0;
      while i < count
        invariant Ready() && i <= count
        invariant Tensors(source.File(), old(offset), 0, count, []) == Tensors(source.File(), offset, i, count, tensors)
      {
        var tensor := ReadTensor();
        if !tensor.Value? {
          return if tensor.NoBytes? then NoBytes else Thrown(tensor.error);
        }
        tensors := tensors + [tensor.value];
        i := i + 1;
      }
      return Value(tensors);
    }

    method ReadPreamble() returns (r: Outcome<Counts>)
      requires AtStart()
      modifies this, source.Object()
      ensures Sound() && (r.Value? ==> Ready())
      ensures Agrees(r, Preamble(source.File()), offset, source)
    {
      hide Number;
      var magic := Int(4);
      if !magic.Value? {
        return if magic.NoBytes? then NoBytes else Thrown(magic.error);
      }
      if magic.value != GGUF_MAGIC {
        return Thrown(BadMagic);
      }
      var version := Int(4);
      if !version.Value? {
        return if version.NoBytes? then NoBytes else Thrown(version.error);
      }
      if version.value != 2 && version.value != 3 {
        return Thrown(BadVersion);
      }
      var tensors := Int(8);
      if !tensors.Value? {
        return if tensors.NoBytes? then NoBytes else Thrown(tensors.error);
      }
      var kvs := Int(8);
      if !kvs.Value? {
        return if kvs.NoBytes? then NoBytes else Thrown(kvs.error);
      }
      if tensors.value > MAX_SAFE || kvs.value > MAX_SAFE {
        return Thrown(BadCounts);
      }
      return Value(Counts(version.value, tensors.value, kvs.value));
    }
  }

  method CountBytes(kind: nat, dims: seq<nat>) returns (bytes: Option<nat>)
    ensures bytes == TensorBytes(kind, dims)
  {
    hide TraitOf;
    var trait_ := TraitOf(kind);
    if trait_.None? {
      return None;
    }
    var ne0 := if |dims| > 0 then dims[0] else 1;
    if ne0 % trait_.value.blck != 0 {
      return None;
    }
    var row := ne0 / trait_.value.blck * trait_.value.size;
    var total := row;
    ghost var rest := if |dims| > 0 then dims[1..] else [];
    var i := 1;
    while i < |dims|
      invariant 1 <= i && (|dims| > 0 ==> i <= |dims|)
      invariant total == row * Product(if |dims| > 0 then rest[..i - 1] else [])
    {
      ProductStep(row, rest, i - 1);
      total := total * dims[i];
      i := i + 1;
    }
    assert |dims| > 0 ==> rest[..|dims| - 1] == rest;
    return Some(total);
  }

  lemma ProductStep(row: nat, dims: seq<nat>, i: nat)
    requires i < |dims|
    ensures row * Product(dims[..i]) * dims[i] == row * Product(dims[..i + 1])
  {
    assert dims[..i + 1][..i] == dims[..i];
    Associates(row, Product(dims[..i]), dims[i]);
  }

  lemma Associates(a: nat, b: nat, c: nat)
    ensures a * b * c == a * (b * c)
  {
  }

  /**
    Reads the header. What it finds is what the whole file says, however the bytes came in; a source
    that serves the descriptors is enough; and nothing is asked for beyond their end.
   */
  method ReadGgufHeader(source: Source) returns (r: Outcome<Header>)
    requires source.Valid() && source.Wanted() == 0 && source.FailedAt().None?
    modifies source.Object()
    ensures source.Valid() && (r.Value? ==> source.FailedAt().None?)
    ensures match r
            case Value(header) => ParseHeader(source.File()) == Ok(header, header.descriptorsEnd) && source.Wanted() <= header.descriptorsEnd
            case Thrown(error) => ParseHeader(source.File()) == Err(error)
            case NoBytes => ParseHeader(source.File()).Ok? ==> !source.Serves(ParseHeader(source.File()).next)
    ensures source.Settled()
    ensures source.Reliable() ==>
      (r.Value? <==> ParseHeader(source.File()).Ok? && ParseHeader(source.File()).next <= |source.Held()|)
  {
    hide Preamble, Metadata, Tensors, AlignmentOf, DataStart;
    var cursor := new Cursor(source);
    var counts := cursor.ReadPreamble();
    if !counts.Value? {
      return if counts.NoBytes? then NoBytes else Thrown(counts.error);
    }
    var metadata := cursor.ReadMetadata(counts.value.kvs);
    if !metadata.Value? {
      return if metadata.NoBytes? then NoBytes else Thrown(metadata.error);
    }
    var metadataEnd := cursor.offset;
    var tensors := cursor.ReadTensors(counts.value.tensors);
    if !tensors.Value? {
      return if tensors.NoBytes? then NoBytes else Thrown(tensors.error);
    }
    return Value(Assembled(counts.value, metadata.value, tensors.value, metadataEnd, cursor.offset));
  }

  /**
    Over HTTP with ranges answered in full, every header within the limit is found, at most twice its
    length (or the first read) is fetched, and each request but the first two doubles the demand.
   */
  method ProbeHttp(file: Bytes, server: Server) returns (r: Outcome<Header>, fetched: nat, requests: nat)
    requires server.largest > 0
    ensures r.Value? ==> ParseHeader(file) == Ok(r.value, r.value.descriptorsEnd)
    ensures server.reliable && server.ranges && ParseHeader(file).Ok? && ParseHeader(file).next <= 536870912 ==>
      && r.Value? && fetched <= Most(1048576, 2 * r.value.descriptorsEnd)
      && (requests >= 2 ==> 1048576 * Pow2(requests - 2) < r.value.descriptorsEnd)
  {
    hide ParseHeader;
    var http := new HttpSource(file, server);
    var source := Http(http);
    r := ReadGgufHeader(source);
    fetched, requests := |http.bytes|, http.requests;
  }

  /**
    A reliable stream without ranges and without a length: a header is found exactly when its end came in
    with the first read, whose last piece may carry a little more, however long the file is.
   */
  method ProbeStream(file: Bytes, server: Server) returns (r: Outcome<Header>, fetched: nat)
    requires server.largest > 0 && server.reliable && !server.ranges && !server.lengths
    ensures Least(1048576, |file|) <= fetched <= Least(1048576 + server.largest - 1, |file|)
    ensures r.Value? <==> ParseHeader(file).Ok? && ParseHeader(file).next <= fetched
    ensures r.Value? ==> ParseHeader(file) == Ok(r.value, r.value.descriptorsEnd)
  {
    hide ParseHeader;
    var http := new HttpSource(file, server);
    var source := Http(http);
    r := ReadGgufHeader(source);
    fetched := |http.bytes|;
  }

  /** A tensor's size is exact: rows are whole blocks, so nothing is rounded. */
  lemma TensorBytesExact(kind: nat, dims: seq<nat>)
    ensures var row := if dims == [] then 1 else dims[0];
            TensorBytes(kind, dims).Some? <==> TraitOf(kind).Some? && row % TraitOf(kind).value.blck == 0
    ensures TensorBytes(kind, dims).Some? ==>
      TensorBytes(kind, dims).value * TraitOf(kind).value.blck == TraitOf(kind).value.size * Product(dims)
  {
    hide TraitOf, Product;
    if TensorBytes(kind, dims).Some? {
      var t := TraitOf(kind).value;
      if dims == [] {
        Exact(1, t.blck, t.size, Product([]));
        assert Product(dims) == 1 by { NoDims(); }
      } else {
        ProductHead(dims);
        Exact(dims[0], t.blck, t.size, Product(dims[1..]));
      }
    }
  }

  lemma NoDims()
    ensures Product([]) == 1
  {
  }

  lemma Exact(ne0: nat, blck: nat, size: nat, rest: nat)
    requires blck > 0 && ne0 % blck == 0
    ensures ne0 / blck * size * rest * blck == size * (ne0 * rest)
  {
  }

  lemma {:induction false} ProductHead(dims: seq<nat>)
    requires |dims| > 0
    ensures Product(dims) == dims[0] * Product(dims[1..])
  {
    var n := |dims|;
    if n == 1 {
      assert dims[..0] == [] && dims[1..] == [];
    } else {
      ProductHead(dims[..n - 1]);
      assert dims[..n - 1][1..] == dims[1..][..n - 2];
      Associates(dims[0], Product(dims[1..][..n - 2]), dims[n - 1]);
    }
  }
}
