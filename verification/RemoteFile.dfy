/** The virtual file as the object its callbacks update in place, and a reader that reads all of it. */
module RemoteFile {
  import opened Arith
  import opened Option
  import opened VirtualFile

  const ENXIO: nat := 6
  const ENOSPC: nat := 28

  /** What `read` hands back: a count, or an errno thrown. */
  datatype Code = Count(n: nat) | Errno(code: nat)

  ghost predicate IsLowest(s: set<nat>, k: nat) { k in s && forall j :: j in s ==> k <= j }

  lemma HasLowest(s: set<nat>) returns (k: nat)
    requires s != {}
    ensures IsLowest(s, k)
    decreases |s|
  {
    k :| k in s;
    if s - {k} != {} {
      var other := HasLowest(s - {k});
      forall j | j in s
        ensures (if k <= other then k else other) <= j
      {
        assert j != k ==> j in s - {k};
      }
      k := if k <= other then k else other;
    }
  }

  function Lowest(s: set<nat>): (k: nat)
    requires s != {}
    ensures k in s && forall j :: j in s ==> k <= j
  {
    assert exists k :: IsLowest(s, k) by { var k := HasLowest(s); }
    assert forall i, j :: IsLowest(s, i) && IsLowest(s, j) ==> i <= j;
    var k :| k in s && forall j :: j in s ==> k <= j;
    k
  }

  ghost predicate OldestSoFar(table: map<nat, Entry>, seen: set<nat>, oldest: Option<nat>)
    requires seen <= table.Keys
  {
    match oldest
    case None => forall j :: j in seen ==> !table[j].done
    case Some(k) => OldestOf(table, seen, k)
  }

  lemma OldestOfNone(table: map<nat, Entry>)
    ensures OldestSoFar(table, {}, None)
  {
  }

  /** A later number replaces the oldest only when it was used strictly earlier. */
  lemma SeeOne(table: map<nat, Entry>, seen: set<nat>, oldest: Option<nat>, key: nat)
    requires seen <= table.Keys && key in table && (forall i :: i in seen ==> i < key)
    requires OldestSoFar(table, seen, oldest)
    ensures OldestSoFar(table, seen + {key},
                        if table[key].done && (oldest.None? || table[key].lastUsed < table[oldest.value].lastUsed) then Some(key) else oldest)
  {
  }

  lemma TrimmedIs(table: map<nat, Entry>, oldest: Option<nat>)
    requires |table| > MAX_ENTRIES && OldestSoFar(table, table.Keys, oldest)
    ensures Trimmed(table) == if oldest.Some? then table - {oldest.value} else table
  {
    match oldest
    case None =>
    case Some(k) =>
      assert IsOldest(table, k);
      forall i | IsOldest(table, i)
        ensures i == k
      {
        OldestIsUnique(table, i, k);
      }
  }

  class Node {
    /** The bytes behind the file, on the disk or on the server. */
    const file: Bytes
    var waitingTable: map<nat, Entry>
    var inflight: map<nat, Phase>
    var cache: map<Key, Bytes>
    var remoteError: bool

    ghost function View(): State
      reads this
    {
      State(waitingTable, inflight, cache, remoteError)
    }

    ghost predicate Valid()
      reads this
    {
      Inv(View(), file)
    }

    constructor (file: Bytes, cache: map<Key, Bytes>)
      requires CacheOk(file, cache)
      ensures Valid() && View() == Start(cache) && this.file == file
    {
      this.file := file;
      waitingTable, inflight, this.cache, remoteError := map[], map[], cache, false;
    }

    /** Drops the entry used longest ago, in ascending order of numbers, skipping what still loads. */
    method Evict()
      requires |waitingTable| > MAX_ENTRIES
      modifies `waitingTable
      ensures waitingTable == Trimmed(old(waitingTable))
    {
      hide OldestOf, Trimmed, OldestSoFar;
      OldestOfNone(waitingTable);
      var oldest: Option<nat> := None;
      var rest := waitingTable.Keys;
      ghost var seen: set<nat> := {};
      while rest != {}
        invariant seen + rest == waitingTable.Keys && seen !! rest
        invariant forall i, j :: i in seen && j in rest ==> i < j
        invariant oldest.Some? ==> oldest.value in seen
        invariant waitingTable == old(waitingTable) && OldestSoFar(waitingTable, seen, oldest)
        decreases |rest|
      {
        var key := Lowest(rest);
        SeeOne(waitingTable, seen, oldest, key);
        rest := rest - {key};
        seen := seen + {key};
        if waitingTable[key].done {
          if oldest.None? || waitingTable[key].lastUsed < waitingTable[oldest.value].lastUsed {
            oldest := Some(key);
          }
        }
      }
      assert seen == waitingTable.Keys;
      TrimmedIs(waitingTable, oldest);
      if oldest.Some? {
        waitingTable := waitingTable - {oldest.value};
      }
    }

    /** Copies up to `length` bytes at `position` into the buffer, or says to try again. */
    method Read(buffer: array<bv8>, offset: nat, length: nat, position: nat, now: int) returns (code: Code)
      requires Valid() && position < |file| && offset + length <= buffer.Length
      modifies this, buffer
      ensures Valid()
      ensures View() == VirtualFile.Read(old(View()), |file|, position, length, now).0
      ensures match VirtualFile.Read(old(View()), |file|, position, length, now).1
              case Copied(bytes) =>
                code == Count(|bytes|) && |bytes| <= length && buffer[..] == old(buffer[..offset]) + bytes + old(buffer[offset + |bytes|..])
              case Again => code == Errno(6) && buffer[..] == old(buffer[..])
              case Failed => code == Errno(28) && buffer[..] == old(buffer[..])
    {
      hide Inv, ChunkOf, InnerOf, KeyOf, Trimmed;
      ReadKeeps(View(), file, position, length, now);
      ReadIsExact(View(), file, position, length, now);
      if length == 0 {
        assert buffer[..] == buffer[..offset] + [] + buffer[offset..];
        return Count(0);
      }
      if remoteError {
        return Errno(ENOSPC);
      }
      var idx := ChunkOf(position);
      if idx in waitingTable {
        if !waitingTable[idx].done {
          return Errno(ENXIO);
        }
        var inner := InnerOf(position);
        ghost var out := VirtualFile.Read(View(), |file|, position, length, now).1;
        var copySize := Least(length, waitingTable[idx].length - inner);
        assert out == Copied(waitingTable[idx].res[inner..inner + copySize]);
        var piece := waitingTable[idx].res[inner..inner + copySize];
        CopyInto(buffer, offset, piece);
        waitingTable := waitingTable[idx := waitingTable[idx].(lastUsed := now)];
        if |waitingTable| > MAX_ENTRIES {
          Evict();
        } else {
          TrimmedSmall(waitingTable);
        }
        return Count(copySize);
      }
      waitingTable := waitingTable[idx := Entry([], 0, false, now)];
      inflight := inflight[idx := AskingCache];
      return Errno(ENXIO);
    }

    /** The cache answered a load: with the stored chunk, or with nothing. */
    method OnCacheReply(idx: nat, hit: bool)
      requires Valid() && Enabled(View(), |file|, OnCache(idx, hit))
      modifies this
      ensures Valid() && View() == CacheReply(old(View()), |file|, idx, hit)
    {
      hide Inv, KeyOf;
      StepKeeps(View(), file, OnCache(idx, hit));
      if hit {
        var data := cache[KeyOf(|file|, idx)];
        Fill(idx, data);
      } else {
        inflight := inflight[idx := Fetching];
      }
    }

    /** The range request answered a load, and its bytes were stored in the cache or not. */
    method OnFetchReply(idx: nat, ok: bool, stored: bool)
      requires Valid() && Enabled(View(), |file|, OnFetch(idx, ok, stored))
      modifies this
      ensures Valid() && View() == FetchReply(old(View()), file, idx, ok, stored)
    {
      hide Inv, KeyOf;
      StepKeeps(View(), file, OnFetch(idx, ok, stored));
      if ok {
        var key := KeyOf(|file|, idx);
        var bytes := Slice(file, key);
        if stored {
          cache := cache[key := bytes];
        }
        Fill(idx, bytes);
      } else {
        inflight := inflight - {idx};
        remoteError := true;
      }
    }

    method Fill(idx: nat, bytes: Bytes)
      requires idx in waitingTable
      modifies this
      ensures View() == Filled(old(View()), idx, bytes)
    {
      inflight := inflight - {idx};
      waitingTable := waitingTable[idx := waitingTable[idx].(res := bytes)];
      waitingTable := waitingTable[idx := waitingTable[idx].(done := true)];
      waitingTable := waitingTable[idx := waitingTable[idx].(length := |bytes|)];
    }
  }

  lemma TrimmedSmall(table: map<nat, Entry>)
    requires |table| <= MAX_ENTRIES
    ensures Trimmed(table) == table
  {
  }

  method CopyInto(buffer: array<bv8>, offset: nat, piece: Bytes)
    requires offset + |piece| <= buffer.Length
    modifies buffer
    ensures buffer[..] == old(buffer[..offset]) + piece + old(buffer[offset + |piece|..])
  {
    forall i | 0 <= i < |piece| {
      buffer[offset + i] := piece[i];
    }
  }

  lemma LoadingWaits(s: State, size: nat, position: nat, length: nat, now: int)
    requires position < size && length > 0 && !s.failed
    ensures var idx := ChunkOf(position);
            var (t, r) := Read(s, size, position, length, now);
            if idx in s.table && !s.table[idx].done then t == s && r == Again
            else if idx in s.table then !r.Again?
            else r == Again && idx in t.table && !t.table[idx].done && idx in t.inflight
  {
  }

  /**
    Whatever the cache holds or keeps, and however often a read is tried too early, a reader that
    retries until it succeeds ends with the whole file.
   */
  method ReadAll(node: Node, step: nat) returns (contents: Bytes)
    requires node.Valid() && node.View() == Start(node.cache) && step > 0
    modifies node
    ensures node.Valid() && contents == node.file && |node.waitingTable| <= 6
  {
    hide Inv, VirtualFile.Read, Trimmed, KeyOf, ChunkOf, InnerOf, Filled, Few;
    contents := [];
    var buffer := new bv8[step];
    ghost var waiting: Option<nat> := None;
    StartFew(node.cache);
    var now := 0;
    while |contents| < |node.file|
      invariant node.Valid() && !node.remoteError && Few(node.View(), waiting)
      invariant waiting.Some? ==> waiting.value == ChunkOf(|contents|) && waiting.value in node.waitingTable && node.waitingTable[waiting.value].done
      invariant contents <= node.file && fresh(buffer) && buffer.Length == step
      decreases |node.file| - |contents|, waiting.None?
    {
      var position := |contents|;
      now := now + 1;
      ReadStaysFew(node.View(), node.file, position, step, now, waiting);
      ReadIsExact(node.View(), node.file, position, step, now);
      ChunkHolds(|node.file|, position);
      LoadingWaits(node.View(), |node.file|, position, step, now);
      var code := node.Read(buffer, 0, step, position, now);
      if code.Count? {
        contents := contents + buffer[..code.n];
        waiting := None;
      } else {
        waiting := Some(ChunkOf(position));
        Load(node, ChunkOf(position), waiting);
      }
    }
    FewIsSmall(node.View(), waiting);
  }

  lemma FewIsSmall(s: State, waiting: Option<nat>)
    requires Few(s, waiting)
    ensures |s.table| <= 6
  {
  }

  lemma StartFew(cache: map<Key, Bytes>)
    ensures Few(Start(cache), None)
  {
  }

  /** A load under way ends well: the cache answers or not, and the range request answers. */
  method Load(node: Node, idx: nat, ghost waiting: Option<nat>)
    requires node.Valid() && !node.remoteError && Few(node.View(), waiting) && waiting == Some(idx)
    requires idx in node.waitingTable && !node.waitingTable[idx].done
    modifies node
    ensures node.Valid() && !node.remoteError && Few(node.View(), waiting)
    ensures idx in node.waitingTable && node.waitingTable[idx].done
  {
    hide KeyOf, Few, CacheOk, Slice;
    if node.inflight[idx] == AskingCache {
      var hit: bool := *;
      hit := hit && KeyOf(|node.file|, idx) in node.cache;
      StepStaysFew(node.View(), node.file, OnCache(idx, hit), waiting);
      node.OnCacheReply(idx, hit);
    }
    if idx in node.inflight {
      var stored: bool := *;
      StepStaysFew(node.View(), node.file, OnFetch(idx, true, stored), waiting);
      node.OnFetchReply(idx, true, stored);
    }
  }
}
