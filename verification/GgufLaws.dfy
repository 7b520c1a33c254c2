/** What the header reader's results depend on: skipping, and the bytes that come behind. */
module GgufLaws {
  import opened Option
  import opened GgufFormat

  // ----- skipping lands where reading would -----

  /** All string items, read one by one. */
  function ReadTexts(file: Bytes, at: nat, count: nat): (r: R<seq<Item>>)
    ensures r.Ok? ==> at <= r.next && |r.value| == count
    decreases count
  {
    if count == 0 then Ok([], at)
    else
      match Text(file, at)
      case Err(e) => Err(e)
      case Ok(text, p) =>
        match ReadTexts(file, p, count - 1)
        case Err(e) => Err(e)
        case Ok(rest, next) => Ok([TextItem(text)] + rest, next)
  }

  /** All scalar items, read one by one. */
  function ReadScalars(file: Bytes, at: nat, count: nat, kind: nat): (r: R<seq<Item>>)
    ensures r.Ok? ==> at <= r.next && |r.value| == count
    decreases count
  {
    if count == 0 then Ok([], at)
    else
      match ScalarAt(file, at, kind)
      case Err(e) => Err(e)
      case Ok(scalar, p) =>
        match ReadScalars(file, p, count - 1, kind)
        case Err(e) => Err(e)
        case Ok(rest, next) => Ok([ScalarItem(scalar)] + rest, next)
  }

  function FirstFour(items: seq<Item>): seq<Item> { items[..Least(|items|, ARRAY_SAMPLE)] }

  /** `a` succeeds exactly when `b` does, and then both end at the same offset. */
  ghost predicate LandsWith<S, T>(a: R<S>, b: R<T>) { (a.Ok? <==> b.Ok?) && (a.Ok? ==> a.next == b.next) }

  lemma SkipTextLands(file: Bytes, at: nat)
    ensures Text(file, at).Ok? ==> LandsWith(SkipText(file, at), Text(file, at))
    ensures |file| <= MAX_SAFE ==> LandsWith(SkipText(file, at), Text(file, at))
  {
  }

  lemma FirstFourAll(sample: seq<Item>)
    requires |sample| <= ARRAY_SAMPLE
    ensures FirstFour(sample + []) == sample
  {
  }

  lemma FirstFourStep(sample: seq<Item>, item: Item, rest: seq<Item>)
    ensures (sample + [item]) + rest == sample + ([item] + rest)
    ensures |sample| == ARRAY_SAMPLE ==> FirstFour(sample + rest) == FirstFour(sample + ([item] + rest))
  {
  }

  lemma {:induction false} TextItemsRead(file: Bytes, at: nat, i: nat, length: nat, sample: seq<Item>)
    requires i <= length && |sample| == Least(i, ARRAY_SAMPLE)
    ensures var all := ReadTexts(file, at, length - i);
            && (all.Ok? || |file| <= MAX_SAFE ==> LandsWith(TextItems(file, at, i, length, sample), all))
            && (all.Ok? ==> TextItems(file, at, i, length, sample).value == FirstFour(sample + all.value))
    decreases length - i
  {
    hide Text, SkipText, FirstFour;
    if i == length {
      assert FirstFour(sample + []) == sample by { FirstFourAll(sample); }
    } else {
      SkipTextLands(file, at);
      if Text(file, at).Ok? {
        var text, p := Text(file, at).value, Text(file, at).next;
        var item := TextItem(text);
        if i < ARRAY_SAMPLE {
          TextItemsRead(file, p, i + 1, length, sample + [item]);
        } else {
          TextItemsRead(file, p, i + 1, length, sample);
        }
        var rest := ReadTexts(file, p, length - i - 1);
        if rest.Ok? {
          FirstFourStep(sample, item, rest.value);
        }
      }
    }
  }

  lemma BulkOne(count: nat, width: nat)
    requires count > 0
    ensures Bulk(count, width) == width + Bulk(count - 1, width)
  {
  }

  /** Scalars are read exactly when their total width is there. */
  lemma {:induction false} ReadScalarsLands(file: Bytes, at: nat, count: nat, kind: nat)
    requires Width(kind).Some? && at <= |file|
    ensures LandsWith(Skip(file, at, Bulk(count, Width(kind).value)), ReadScalars(file, at, count, kind))
    decreases count
  {
    hide Width, ScalarOf, Bulk;
    var width := Width(kind).value;
    if count == 0 {
      assert Bulk(0, width) == 0 by { BulkZero(width); }
    } else {
      BulkOne(count, width);
      if at + width <= |file| {
        ReadScalarsLands(file, at + width, count - 1, kind);
      }
    }
  }

  lemma BulkZero(width: nat)
    ensures Bulk(0, width) == 0
  {
  }

  lemma {:induction false} ReadScalarsSplit(file: Bytes, at: nat, count: nat, more: nat, kind: nat)
    ensures var a := ReadScalars(file, at, count, kind);
            ReadScalars(file, at, count + more, kind) ==
            match a
            case Err(e) => Err(e)
            case Ok(items, p) =>
              (match ReadScalars(file, p, more, kind)
               case Err(e) => Err(e)
               case Ok(rest, next) => Ok(items + rest, next))
    decreases count
  {
    hide ScalarAt;
    if count == 0 {
      var b := ReadScalars(file, at, more, kind);
      assert b.Ok? ==> [] + b.value == b.value;
    } else if ScalarAt(file, at, kind).Ok? {
      var item, p := ScalarItem(ScalarAt(file, at, kind).value), ScalarAt(file, at, kind).next;
      ReadScalarsSplit(file, p, count - 1, more, kind);
      var a := ReadScalars(file, p, count - 1, kind);
      if a.Ok? {
        var b := ReadScalars(file, a.next, more, kind);
        assert b.Ok? ==> [item] + (a.value + b.value) == ([item] + a.value) + b.value;
      }
    }
  }

  lemma {:induction false} ScalarItemsRead(file: Bytes, at: nat, i: nat, count: nat, kind: nat, sample: seq<Item>)
    requires i <= count
    ensures var all := ReadScalars(file, at, count - i, kind);
            ScalarItems(file, at, i, count, kind, sample) == match all case Err(e) => Err(e) case Ok(items, next) => Ok(sample + items, next)
    decreases count - i
  {
    hide ScalarAt;
    if i == count {
      assert sample + [] == sample;
    } else if ScalarAt(file, at, kind).Ok? {
      var item, p := ScalarItem(ScalarAt(file, at, kind).value), ScalarAt(file, at, kind).next;
      ScalarItemsRead(file, p, i + 1, count, kind, sample + [item]);
      var rest := ReadScalars(file, p, count - i - 1, kind);
      assert rest.Ok? ==> (sample + [item]) + rest.value == sample + ([item] + rest.value);
    }
  }

  /**
    An array read by skipping succeeds exactly when all of its items can be read, ends where reading
    them all would, and keeps the first four.
   */
  lemma SkippingIsReading(file: Bytes, at: nat, itemKind: nat, length: nat)
    requires at <= |file| && (itemKind == T_STRING || Width(itemKind).Some?)
    ensures var all := if itemKind == T_STRING then ReadTexts(file, at, length) else ReadScalars(file, at, length, itemKind);
            && (all.Ok? || |file| <= MAX_SAFE ==> LandsWith(Items(file, at, itemKind, length), all))
            && (all.Ok? ==> Items(file, at, itemKind, length).value == FirstFour(all.value))
  {
    hide Text, SkipText, Bulk;
    if itemKind == T_STRING {
      TextItemsRead(file, at, 0, length, []);
      var all := ReadTexts(file, at, length);
      assert all.Ok? ==> [] + all.value == all.value;
    } else {
      ScalarArrayReads(file, at, length, itemKind);
    }
  }

  lemma ScalarArrayReads(file: Bytes, at: nat, length: nat, kind: nat)
    requires at <= |file| && Width(kind).Some?
    ensures var all := ReadScalars(file, at, length, kind);
            && LandsWith(ScalarArray(file, at, length, kind), all)
            && (all.Ok? ==> ScalarArray(file, at, length, kind).value == FirstFour(all.value))
  {
    hide ScalarAt, Bulk, Width;
    var taken := Least(length, ARRAY_SAMPLE);
    ScalarItemsRead(file, at, 0, taken, kind, []);
    ReadScalarsSplit(file, at, taken, length - taken, kind);
    var head := ReadScalars(file, at, taken, kind);
    if head.Ok? {
      assert [] + head.value == head.value;
      ReadScalarsBounded(file, at, taken, kind);
      ReadScalarsLands(file, head.next, length - taken, kind);
      var rest := ReadScalars(file, head.next, length - taken, kind);
      assert rest.Ok? ==> FirstFour(head.value + rest.value) == head.value;
    }
  }

  lemma {:induction false} ReadScalarsBounded(file: Bytes, at: nat, count: nat, kind: nat)
    requires at <= |file|
    ensures ReadScalars(file, at, count, kind).Ok? ==> ReadScalars(file, at, count, kind).next <= |file|
    decreases count
  {
    if count > 0 && ScalarAt(file, at, kind).Ok? {
      ReadScalarsBounded(file, ScalarAt(file, at, kind).next, count - 1, kind);
    }
  }

  // ----- what comes behind does not matter -----

  /** A success on a file is the result on every longer file, and so is, the other way round, one that ends within it. */
  ghost predicate Keeps<T>(short: R<T>, long: R<T>, size: nat) {
    short.Ok? || (long.Ok? && long.next <= size) ==> long == short
  }

  lemma SliceKeeps(file: Bytes, more: Bytes, from: nat, to: nat)
    requires from <= to <= |file|
    ensures (file + more)[from..to] == file[from..to]
  {
  }

  lemma NumberKeeps(file: Bytes, more: Bytes, at: nat, width: nat)
    ensures Keeps(Number(file, at, width), Number(file + more, at, width), |file|)
  {
    hide LittleEndian;
    if at + width <= |file| {
      SliceKeeps(file, more, at, at + width);
    }
  }

  lemma ScalarKeeps(file: Bytes, more: Bytes, at: nat, kind: nat)
    ensures Keeps(ScalarAt(file, at, kind), ScalarAt(file + more, at, kind), |file|)
  {
    hide ScalarOf, Width;
    if Width(kind).Some? && at + Width(kind).value <= |file| {
      SliceKeeps(file, more, at, at + Width(kind).value);
    }
  }

  lemma TextKeeps(file: Bytes, more: Bytes, at: nat)
    ensures Keeps(Text(file, at), Text(file + more, at), |file|)
  {
    hide Number;
    NumberKeeps(file, more, at, 8);
    if Text(file, at).Ok? {
      SliceKeeps(file, more, Number(file, at, 8).next, Text(file, at).next);
    }
  }

  lemma SkipTextKeeps(file: Bytes, more: Bytes, at: nat)
    ensures Keeps(SkipText(file, at), SkipText(file + more, at), |file|)
  {
    hide Number;
    NumberKeeps(file, more, at, 8);
  }

  lemma {:induction false} TextItemsKeep(file: Bytes, more: Bytes, at: nat, i: nat, length: nat, sample: seq<Item>)
    ensures Keeps(TextItems(file, at, i, length, sample), TextItems(file + more, at, i, length, sample), |file|)
    decreases length - i
  {
    hide Text, SkipText;
    if i < length {
      TextKeeps(file, more, at);
      SkipTextKeeps(file, more, at);
      if i < ARRAY_SAMPLE && Text(file, at).Ok? {
        TextItemsKeep(file, more, Text(file, at).next, i + 1, length, sample + [TextItem(Text(file, at).value)]);
      } else if i >= ARRAY_SAMPLE && SkipText(file, at).Ok? {
        TextItemsKeep(file, more, SkipText(file, at).next, i + 1, length, sample);
      }
    }
  }

  lemma {:induction false} ScalarItemsKeep(file: Bytes, more: Bytes, at: nat, i: nat, count: nat, kind: nat, sample: seq<Item>)
    ensures Keeps(ScalarItems(file, at, i, count, kind, sample), ScalarItems(file + more, at, i, count, kind, sample), |file|)
    decreases count - i
  {
    hide ScalarAt;
    if i < count {
      ScalarKeeps(file, more, at, kind);
      if ScalarAt(file, at, kind).Ok? {
        ScalarItemsKeep(file, more, ScalarAt(file, at, kind).next, i + 1, count, kind, sample + [ScalarItem(ScalarAt(file, at, kind).value)]);
      }
    }
  }

  lemma ItemsKeep(file: Bytes, more: Bytes, at: nat, itemKind: nat, length: nat)
    ensures Keeps(Items(file, at, itemKind, length), Items(file + more, at, itemKind, length), |file|)
  {
    hide TextItems, ScalarItems, Width, Bulk;
    if itemKind == T_STRING {
      TextItemsKeep(file, more, at, 0, length, []);
    } else if itemKind != T_ARRAY {
      ScalarItemsKeep(file, more, at, 0, Least(length, ARRAY_SAMPLE), itemKind, []);
    }
  }

  lemma ValueKeeps(file: Bytes, more: Bytes, at: nat, kind: nat)
    ensures Keeps(ValueAt(file, at, kind), ValueAt(file + more, at, kind), |file|)
  {
    hide Text, ScalarAt, Number, Items;
    TextKeeps(file, more, at);
    ScalarKeeps(file, more, at, kind);
    NumberKeeps(file, more, at, 4);
    if Number(file, at, 4).Ok? {
      var p := Number(file, at, 4).next;
      NumberKeeps(file, more, p, 8);
      if Number(file, p, 8).Ok? {
        ItemsKeep(file, more, Number(file, p, 8).next, Number(file, at, 4).value, Number(file, p, 8).value);
      }
    }
  }

  lemma EntryKeeps(file: Bytes, more: Bytes, at: nat)
    ensures Keeps(EntryAt(file, at), EntryAt(file + more, at), |file|)
  {
    hide Text, Number, ValueAt;
    TextKeeps(file, more, at);
    if Text(file, at).Ok? {
      var p := Text(file, at).next;
      NumberKeeps(file, more, p, 4);
      if Number(file, p, 4).Ok? {
        ValueKeeps(file, more, Number(file, p, 4).next, Number(file, p, 4).value);
      }
    }
  }

  lemma {:induction false} MetadataKeeps(file: Bytes, more: Bytes, at: nat, i: nat, count: nat, found: map<Bytes, Value>)
    ensures Keeps(Metadata(file, at, i, count, found), Metadata(file + more, at, i, count, found), |file|)
    decreases count - i
  {
    hide EntryAt;
    if i < count {
      EntryKeeps(file, more, at);
      if EntryAt(file, at).Ok? {
        var entry := EntryAt(file, at).value;
        MetadataKeeps(file, more, EntryAt(file, at).next, i + 1, count, found[entry.key := entry.value]);
      }
    }
  }

  lemma {:induction false} DimsKeep(file: Bytes, more: Bytes, at: nat, i: nat, count: nat, dims: seq<nat>)
    ensures Keeps(Dims(file, at, i, count, dims), Dims(file + more, at, i, count, dims), |file|)
    decreases count - i
  {
    hide Number;
    if i < count {
      NumberKeeps(file, more, at, 8);
      if Number(file, at, 8).Ok? {
        DimsKeep(file, more, Number(file, at, 8).next, i + 1, count, dims + [Number(file, at, 8).value]);
      }
    }
  }

  lemma TensorTailKeeps(file: Bytes, more: Bytes, at: nat, name: Bytes, dims: seq<nat>)
    ensures Keeps(TensorTail(file, at, name, dims), TensorTail(file + more, at, name, dims), |file|)
  {
    hide Number, TensorBytes;
    NumberKeeps(file, more, at, 4);
    if Number(file, at, 4).Ok? {
      NumberKeeps(file, more, Number(file, at, 4).next, 8);
    }
  }

  lemma TensorKeeps(file: Bytes, more: Bytes, at: nat)
    ensures Keeps(TensorAt(file, at), TensorAt(file + more, at), |file|)
  {
    hide Text, Number, Dims, TensorTail;
    TextKeeps(file, more, at);
    if Text(file, at).Ok? {
      var p := Text(file, at).next;
      NumberKeeps(file, more, p, 4);
      if Number(file, p, 4).Ok? {
        var q, n := Number(file, p, 4).next, Number(file, p, 4).value;
        DimsKeep(file, more, q, 0, n, []);
        if Dims(file, q, 0, n, []).Ok? {
          TensorTailKeeps(file, more, Dims(file, q, 0, n, []).next, Text(file, at).value, Dims(file, q, 0, n, []).value);
        }
      }
    }
  }

  lemma {:induction false} TensorsKeep(file: Bytes, more: Bytes, at: nat, i: nat, count: nat, found: seq<Tensor>)
    ensures Keeps(Tensors(file, at, i, count, found), Tensors(file + more, at, i, count, found), |file|)
    decreases count - i
  {
    hide TensorAt;
    if i < count {
      TensorKeeps(file, more, at);
      if TensorAt(file, at).Ok? {
        TensorsKeep(file, more, TensorAt(file, at).next, i + 1, count, found + [TensorAt(file, at).value]);
      }
    }
  }

  lemma PreambleKeeps(file: Bytes, more: Bytes)
    ensures Keeps(Preamble(file), Preamble(file + more), |file|)
  {
    hide Number;
    NumberKeeps(file, more, 0, 4);
    if Number(file, 0, 4).Ok? {
      var p := Number(file, 0, 4).next;
      NumberKeeps(file, more, p, 4);
      if Number(file, p, 4).Ok? {
        var q := Number(file, p, 4).next;
        NumberKeeps(file, more, q, 8);
        if Number(file, q, 8).Ok? {
          NumberKeeps(file, more, Number(file, q, 8).next, 8);
        }
      }
    }
  }

  /** Whatever follows the descriptors, the header is the same. */
  lemma HeaderKeeps(file: Bytes, more: Bytes)
    ensures Keeps(ParseHeader(file), ParseHeader(file + more), |file|)
  {
    hide Preamble, Metadata, Tensors;
    PreambleKeeps(file, more);
    if Preamble(file).Ok? {
      var p, counts := Preamble(file).next, Preamble(file).value;
      MetadataKeeps(file, more, p, 0, counts.kvs, map[]);
      if Metadata(file, p, 0, counts.kvs, map[]).Ok? {
        TensorsKeep(file, more, Metadata(file, p, 0, counts.kvs, map[]).next, 0, counts.tensors, []);
      }
    }
  }

  /** A file cut anywhere before the end of its descriptors does not parse. */
  lemma TruncatedFails(file: Bytes, cut: nat)
    requires ParseHeader(file).Ok? && cut < ParseHeader(file).value.descriptorsEnd
    ensures ParseHeader(file[..cut]).Err?
  {
    hide ParseHeader;
    HeaderKeeps(file[..cut], file[cut..]);
    assert file[..cut] + file[cut..] == file;
  }

  /** Cut at the end of its descriptors or behind it, a file parses to the same header. */
  lemma PrefixDecides(file: Bytes, cut: nat)
    requires ParseHeader(file).Ok? && ParseHeader(file).value.descriptorsEnd <= cut <= |file|
    ensures ParseHeader(file[..cut]) == ParseHeader(file)
  {
    hide ParseHeader;
    HeaderKeeps(file[..cut], file[cut..]);
    assert file[..cut] + file[cut..] == file;
  }
}
