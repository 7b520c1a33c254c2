/**
  Downloading the whole model into the chunk cache, for servers without range support: the body
  arrives in arbitrary pieces and is stored in blocks of `CHUNK_MAX` bytes.
 */
module Preload {
  import opened Arith
  import opened Option
  import opened VirtualFile

  function Concat(pieces: seq<Bytes>): Bytes {
    if pieces == [] then [] else Concat(pieces[..|pieces| - 1]) + pieces[|pieces| - 1]
  }

  /** The first `n` full blocks of a body, under the names the downloader gives them. */
  function Blocks(body: Bytes, n: nat): (blocks: map<Key, Bytes>)
    requires n * CHUNK_MAX <= |body|
  {
    if n == 0 then map[]
    else Blocks(body, n - 1)[((n - 1) * CHUNK_MAX, n * CHUNK_MAX) := body[(n - 1) * CHUNK_MAX..n * CHUNK_MAX]]
  }

  /** All blocks of a body; the last one may be short, and is not stored when it is empty. */
  function Preloaded(body: Bytes): map<Key, Bytes> {
    var n := |body| / CHUNK_MAX;
    var full := Blocks(body, n);
    if n * CHUNK_MAX < |body| then full[(n * CHUNK_MAX, |body|) := body[n * CHUNK_MAX..]] else full
  }

  lemma {:induction false} BlocksExtend(body: Bytes, more: Bytes, n: nat)
    requires n * CHUNK_MAX <= |body|
    ensures Blocks(body + more, n) == Blocks(body, n)
  {
    if n > 0 {
      BlocksExtend(body, more, n - 1);
      assert (body + more)[(n - 1) * CHUNK_MAX..n * CHUNK_MAX] == body[(n - 1) * CHUNK_MAX..n * CHUNK_MAX];
    }
  }

  predicate IsBlock(key: Key, n: nat) { key.0 % CHUNK_MAX == 0 && key.0 / CHUNK_MAX < n && key.1 == key.0 + CHUNK_MAX }

  lemma {:induction false} BlocksNames(body: Bytes, n: nat, key: Key)
    requires n * CHUNK_MAX <= |body|
    ensures key in Blocks(body, n) <==> IsBlock(key, n)
    ensures IsBlock(key, n) ==> key.1 <= |body| && Blocks(body, n)[key] == body[key.0..key.1]
  {
    if n > 0 {
      BlocksNames(body, n - 1, key);
    }
  }

  /** What is stored, under which names: the block at each multiple of `CHUNK_MAX`, up to the body's end. */
  lemma PreloadedNames(body: Bytes, key: Key)
    ensures key in Preloaded(body) <==>
            key.0 % CHUNK_MAX == 0 && key.0 < |body| && key.1 == Least(|body|, key.0 + CHUNK_MAX)
    ensures key in Preloaded(body) ==> key.0 <= key.1 <= |body| && Preloaded(body)[key] == body[key.0..key.1]
  {
    BlocksNames(body, |body| / CHUNK_MAX, key);
  }

  /** Where the downloader is after receiving `got`: `n` blocks stored, the rest in the buffer. */
  ghost predicate Holding(before: map<Key, Bytes>, got: Bytes, n: nat, held: Bytes, position: nat, cache: map<Key, Bytes>) {
    && position == n * CHUNK_MAX && n * CHUNK_MAX <= |got| < (n + 1) * CHUNK_MAX
    && held == got[position..] && cache == before + Blocks(got, n)
  }

  lemma NothingHeld(before: map<Key, Bytes>)
    ensures Holding(before, [], 0, [], 0, before)
  {
  }

  lemma HoldMore(before: map<Key, Bytes>, got: Bytes, n: nat, held: Bytes, position: nat, cache: map<Key, Bytes>, piece: Bytes)
    requires Holding(before, got, n, held, position, cache) && |held| + |piece| < CHUNK_MAX
    ensures Holding(before, got + piece, n, held + piece, position, cache)
  {
    BlocksExtend(got, piece, n);
    assert (got + piece)[position..] == got[position..] + piece;
  }

  lemma StoreOne(before: map<Key, Bytes>, got: Bytes, n: nat, held: Bytes, position: nat, cache: map<Key, Bytes>, piece: Bytes)
    requires Holding(before, got, n, held, position, cache) && |held| + |piece| == CHUNK_MAX
    ensures Holding(before, got + piece, n + 1, [], position + CHUNK_MAX, cache[(position, position + CHUNK_MAX) := held + piece])
  {
    BlocksExtend(got, piece, n);
    var body := got + piece;
    assert body[n * CHUNK_MAX..(n + 1) * CHUNK_MAX] == got[position..] + piece;
    assert Blocks(body, n + 1) == Blocks(body, n)[(n * CHUNK_MAX, (n + 1) * CHUNK_MAX) := held + piece];
    assert body[position + CHUNK_MAX..] == [];
    assert before + Blocks(body, n)[(position, position + CHUNK_MAX) := held + piece]
        == (before + Blocks(body, n))[(position, position + CHUNK_MAX) := held + piece];
  }

  lemma StoreLast(before: map<Key, Bytes>, got: Bytes, n: nat, held: Bytes, position: nat, cache: map<Key, Bytes>)
    requires Holding(before, got, n, held, position, cache)
    ensures before + Preloaded(got) == if held == [] then cache else cache[(position, position + |held|) := held]
  {
  }

  lemma Received(start: Bytes, value: Bytes, from: nat, count: nat)
    requires from + count <= |value|
    ensures (start + value[..from]) + value[from..from + count] == start + value[..from + count]
  {
  }

  lemma NothingConcat()
    ensures Concat([]) == []
  {
  }

  lemma ConcatOne(pieces: seq<Bytes>, i: nat)
    requires i < |pieces|
    ensures Concat(pieces[..i + 1]) == Concat(pieces[..i]) + pieces[i]
  {
    assert pieces[..i + 1][..i] == pieces[..i];
  }

  /** The downloader: copies pieces into a block buffer and stores each block when it is full. */
  method FetchWholeModelToCache(pieces: seq<Bytes>, before: map<Key, Bytes>) returns (cache: map<Key, Bytes>)
    ensures cache == before + Preloaded(Concat(pieces))
  {
    hide Holding, Preloaded, Concat;
    NothingConcat();
    cache := before;
    var chunk := new bv8[CHUNK_MAX];
    var chunkLength: nat, chunkPosition: nat := 0, 0;
    ghost var got: Bytes, n: nat := [], 0;
    NothingHeld(before);
    assert chunk[..0] == [];
    var i := 0;
    assert pieces[..0] == [];
    while i < |pieces|
      invariant i <= |pieces| && got == Concat(pieces[..i])
      invariant fresh(chunk) && chunk.Length == CHUNK_MAX && chunkLength < CHUNK_MAX
      invariant Holding(before, got, n, chunk[..chunkLength], chunkPosition, cache)
    {
      var value := pieces[i];
      var readOffset := 0;
      ghost var start := got;
      while readOffset < |value|
        invariant readOffset <= |value| && got == start + value[..readOffset]
        invariant fresh(chunk) && chunk.Length == CHUNK_MAX && chunkLength < CHUNK_MAX
        invariant Holding(before, got, n, chunk[..chunkLength], chunkPosition, cache)
      {
        var copyLength := Least(|value| - readOffset, CHUNK_MAX - chunkLength);
        var piece := value[readOffset..readOffset + copyLength];
        ghost var held := chunk[..chunkLength];
        Put(chunk, chunkLength, piece);
        Received(start, value, readOffset, copyLength);
        chunkLength := chunkLength + copyLength;
        readOffset := readOffset + copyLength;
        if chunkLength == CHUNK_MAX {
          StoreOne(before, got, n, held, chunkPosition, cache, piece);
          assert chunk[..] == held + piece;
          cache := cache[(chunkPosition, chunkPosition + CHUNK_MAX) := chunk[..]];
          chunkPosition := chunkPosition + CHUNK_MAX;
          chunk := new bv8[CHUNK_MAX];
          chunkLength := 0;
          n := n + 1;
        } else {
          HoldMore(before, got, n, held, chunkPosition, cache, piece);
        }
        got := got + piece;
      }
      assert value[..readOffset] == value;
      ConcatOne(pieces, i);
      i := i + 1;
    }
    assert pieces[..i] == pieces;
    StoreLast(before, got, n, chunk[..chunkLength], chunkPosition, cache);
    if chunkLength > 0 {
      cache := cache[(chunkPosition, chunkPosition + chunkLength) := chunk[..chunkLength]];
    }
  }

  method Put(buffer: array<bv8>, offset: nat, piece: Bytes)
    requires offset + |piece| <= buffer.Length
    modifies buffer
    ensures buffer[..offset + |piece|] == old(buffer[..offset]) + piece
  {
    forall i | 0 <= i < |piece| {
      buffer[offset + i] := piece[i];
    }
  }

  // ----- the reader finds what the downloader stored -----

  lemma KeyNamed(size: nat, body: Bytes, idx: nat)
    requires idx * CHUNK_MAX < size
    ensures KeyOf(size, idx) in Preloaded(body) <==>
            idx * CHUNK_MAX < |body| && Least(size, (idx + 1) * CHUNK_MAX) == Least(|body|, (idx + 1) * CHUNK_MAX)
  {
    hide Preloaded;
    PreloadedNames(body, KeyOf(size, idx));
  }

  ghost predicate Complete(size: nat, body: Bytes) {
    forall idx: nat :: idx * CHUNK_MAX < size ==> KeyOf(size, idx) in Preloaded(body)
  }

  /**
    Every chunk of a file of `size` bytes is found exactly when the body had that length, or was longer
    and the size is a multiple of `CHUNK_MAX`.
   */
  lemma PreloadServesExactly(size: nat, body: Bytes)
    requires size > 0
    ensures Complete(size, body) <==> |body| == size || (size % CHUNK_MAX == 0 && |body| >= size)
  {
    hide Preloaded, KeyOf;
    var last := (size - 1) / CHUNK_MAX;
    KeyNamed(size, body, last);
    if |body| == size || (size % CHUNK_MAX == 0 && |body| >= size) {
      forall idx: nat | idx * CHUNK_MAX < size
        ensures KeyOf(size, idx) in Preloaded(body)
      {
        KeyNamed(size, body, idx);
      }
    }
  }

  lemma PreloadedIsFaithful(file: Bytes)
    ensures CacheOk(file, Preloaded(file))
  {
    hide Preloaded;
    forall key | key in Preloaded(file) && key.0 <= key.1 <= |file|
      ensures Preloaded(file)[key] == Slice(file, key)
    {
      PreloadedNames(file, key);
    }
  }

  /** The cache answers truthfully: it finds a key whenever it holds it. */
  ghost predicate Truthful(s: State, file: Bytes, events: seq<Event>)
    requires Run(s, file, events)
    decreases |events|
  {
    events == [] ||
    (&& (events[0].OnCache? ==> events[0].hit == (KeyOf(|file|, events[0].idx) in s.cache))
     && Truthful(Step(s, file, events[0]), file, events[1..]))
  }

  ghost predicate NeverFetches(s: State, file: Bytes) {
    && Preloaded(file).Keys <= s.cache.Keys && !s.failed
    && (forall idx :: idx in s.inflight ==> s.inflight[idx] == AskingCache)
  }

  lemma {:induction false} RunNeverFetches(s: State, file: Bytes, events: seq<Event>)
    requires Inv(s, file) && NeverFetches(s, file) && Run(s, file, events) && Truthful(s, file, events)
    ensures NeverFetches(After(s, file, events), file)
    decreases |events|
  {
    hide Inv, Preloaded, KeyOf, Read;
    if events != [] {
      var e := events[0];
      StepKeeps(s, file, e);
      if e.OnCache? {
        hide Slice;
        FoundWhenComplete(file, e.idx);
      }
      StepNeverFetches(s, file, e);
      RunNeverFetches(Step(s, file, e), file, events[1..]);
    }
  }

  lemma FoundWhenComplete(file: Bytes, idx: nat)
    requires idx * CHUNK_MAX < |file|
    ensures KeyOf(|file|, idx) in Preloaded(file)
  {
    hide Preloaded, KeyOf;
    PreloadServesExactly(|file|, file);
  }

  lemma StepNeverFetches(s: State, file: Bytes, e: Event)
    requires Inv(s, file) && NeverFetches(s, file) && Enabled(s, |file|, e)
    requires e.OnCache? ==> e.hit
    ensures NeverFetches(Step(s, file, e), file)
  {
    hide Preloaded, KeyOf, Trimmed, ChunkOf;
    StepKeeps(s, file, e);
  }

  /**
    After preloading a body equal to the file, no interleaving of reads and truthful cache answers
    ever reaches a range request, so the miss that cannot be served is never hit and no read fails.
   */
  lemma NoUnexpectedMiss(file: Bytes, events: seq<Event>)
    requires Run(Start(Preloaded(file)), file, events) && Truthful(Start(Preloaded(file)), file, events)
    ensures var s := After(Start(Preloaded(file)), file, events);
            !s.failed && forall idx, ok, stored :: !Enabled(s, |file|, OnFetch(idx, ok, stored))
  {
    hide Preloaded;
    PreloadedIsFaithful(file);
    RunNeverFetches(Start(Preloaded(file)), file, events);
  }
}
