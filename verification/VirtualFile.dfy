/**
  The virtual model file: reads are served from chunks that are loaded on demand, kept in a small
  table, and evicted when the table grows past `MAX_ENTRIES`.

  A read that finds its chunk missing starts a load and fails with "try again"; loads finish later,
  in any order, from the chunk cache or from a range request.
 */
module VirtualFile {
  import opened Arith
  import opened Option

  type Bytes = seq<bv8>

  const CHUNK_MAX: nat := 100_000_000
  const MAX_ENTRIES: nat := 5

  /** A cache key names a half-open range of the model file. */
  type Key = (nat, nat)

  datatype Entry = Entry(res: Bytes, length: nat, done: bool, lastUsed: int)

  /** What a load under way is waiting for. */
  datatype Phase = AskingCache | Fetching

  datatype State = State(table: map<nat, Entry>, inflight: map<nat, Phase>, cache: map<Key, Bytes>, failed: bool)

  /** A read copies bytes, fails with "try again" (errno 6), or fails for good (errno 28). */
  datatype Result = Copied(bytes: Bytes) | Again | Failed

  function ChunkOf(position: nat): nat { position / CHUNK_MAX }

  function InnerOf(position: nat): nat { position % CHUNK_MAX }

  function KeyOf(size: nat, idx: nat): (key: Key)
    requires idx * CHUNK_MAX < size
    ensures key.0 < key.1 <= size
  {
    (idx * CHUNK_MAX, if size - idx * CHUNK_MAX < CHUNK_MAX then size else (idx + 1) * CHUNK_MAX)
  }

  function Slice(file: Bytes, key: Key): Bytes
    requires key.0 <= key.1 <= |file|
  {
    file[key.0..key.1]
  }

  // ----- eviction -----

  /** Used longer ago, or at the same time and with a lower number. */
  predicate Older(table: map<nat, Entry>, i: nat, j: nat)
    requires i in table && j in table
  {
    table[i].lastUsed < table[j].lastUsed || (table[i].lastUsed == table[j].lastUsed && i <= j)
  }

  ghost predicate OldestOf(table: map<nat, Entry>, among: set<nat>, idx: nat)
    requires among <= table.Keys
  {
    idx in among && table[idx].done && forall j :: j in among && table[j].done ==> Older(table, idx, j)
  }

  /** The loaded entry that was used longest ago; the lowest number among equals. */
  ghost predicate IsOldest(table: map<nat, Entry>, idx: nat) { OldestOf(table, table.Keys, idx) }

  /** Past `MAX_ENTRIES`, the oldest loaded entry goes; entries still loading stay. */
  ghost function Trimmed(table: map<nat, Entry>): (t: map<nat, Entry>)
    ensures forall idx :: idx in t ==> idx in table && t[idx] == table[idx]
    ensures forall idx :: idx in table && !table[idx].done ==> idx in t
  {
    if |table| <= MAX_ENTRIES then table
    else if idx :| IsOldest(table, idx) then table - {idx}
    else table
  }

  lemma OldestIsUnique(table: map<nat, Entry>, i: nat, j: nat)
    requires IsOldest(table, i) && IsOldest(table, j)
    ensures i == j
  {
  }

  function Least(a: int, b: int): int { if a < b then a else b }

  // ----- steps -----

  /** Reading `length` bytes at `position`, at time `now`. */
  ghost function Read(s: State, size: nat, position: nat, length: nat, now: int): (State, Result)
    requires position < size
  {
    var idx := ChunkOf(position);
    if length == 0 then (s, Copied([]))
    else if s.failed then (s, Failed)
    else if idx !in s.table then
      (s.(table := s.table[idx := Entry([], 0, false, now)], inflight := s.inflight[idx := AskingCache]), Again)
    else if !s.table[idx].done then (s, Again)
    else
      var entry, inner := s.table[idx], InnerOf(position);
      var count := Least(length, entry.length - inner);
      if count < 0 || inner + count > |entry.res| then (s.(failed := true), Failed)
      else (s.(table := Trimmed(s.table[idx := entry.(lastUsed := now)])), Copied(entry.res[inner..inner + count]))
  }

  /** A finished load fills its entry; filling an entry that is gone is an error. */
  function Filled(s: State, idx: nat, bytes: Bytes): State {
    var t := s.(inflight := s.inflight - {idx});
    if idx in s.table then t.(table := s.table[idx := s.table[idx].(res := bytes, length := |bytes|, done := true)])
    else t.(failed := true)
  }

  /** The cache answers: with the stored bytes, or with nothing, and then a range request starts. */
  function CacheReply(s: State, size: nat, idx: nat, hit: bool): State
    requires idx * CHUNK_MAX < size && (hit ==> KeyOf(size, idx) in s.cache)
  {
    if hit then Filled(s, idx, s.cache[KeyOf(size, idx)])
    else s.(inflight := s.inflight[idx := Fetching])
  }

  /** The range request answers with the bytes asked for, or fails; storing them may fail too. */
  function FetchReply(s: State, file: Bytes, idx: nat, ok: bool, stored: bool): State
    requires idx * CHUNK_MAX < |file|
  {
    var key := KeyOf(|file|, idx);
    if ok then Filled(if stored then s.(cache := s.cache[key := Slice(file, key)]) else s, idx, Slice(file, key))
    else s.(inflight := s.inflight - {idx}, failed := true)
  }

  datatype Event =
    | OnRead(position: nat, length: nat, now: int)
    | OnCache(idx: nat, hit: bool)
    | OnFetch(idx: nat, ok: bool, stored: bool)

  ghost predicate Enabled(s: State, size: nat, e: Event) {
    match e
    case OnRead(position, _, _) => position < size
    case OnCache(idx, hit) =>
      idx in s.inflight && s.inflight[idx] == AskingCache && idx * CHUNK_MAX < size && (hit ==> KeyOf(size, idx) in s.cache)
    case OnFetch(idx, _, _) => idx in s.inflight && s.inflight[idx] == Fetching && idx * CHUNK_MAX < size
  }

  ghost function Step(s: State, file: Bytes, e: Event): State
    requires Enabled(s, |file|, e)
  {
    match e
    case OnRead(position, length, now) => Read(s, |file|, position, length, now).0
    case OnCache(idx, hit) => CacheReply(s, |file|, idx, hit)
    case OnFetch(idx, ok, stored) => FetchReply(s, file, idx, ok, stored)
  }

  // ----- what every interleaving keeps -----

  ghost predicate CacheOk(file: Bytes, cache: map<Key, Bytes>) {
    forall key :: key in cache && key.0 <= key.1 <= |file| ==> cache[key] == Slice(file, key)
  }

  /** Loaded entries hold the file's bytes; a load under way owns an entry that is still empty. */
  ghost predicate Inv(s: State, file: Bytes) {
    && CacheOk(file, s.cache)
    && (forall idx :: idx in s.table ==> idx * CHUNK_MAX < |file|)
    && (forall idx :: idx in s.table && s.table[idx].done ==>
          s.table[idx].res == Slice(file, KeyOf(|file|, idx)) && s.table[idx].length == |s.table[idx].res|)
    && (forall idx :: idx in s.inflight ==> idx in s.table && !s.table[idx].done)
    && (forall idx :: idx in s.table && !s.table[idx].done && !s.failed ==> idx in s.inflight)
  }

  function Start(cache: map<Key, Bytes>): State { State(map[], map[], cache, false) }

  lemma ChunkHolds(size: nat, position: nat)
    requires position < size
    ensures var idx := ChunkOf(position);
            && idx * CHUNK_MAX < size && KeyOf(size, idx).0 + InnerOf(position) == position < KeyOf(size, idx).1
  {
  }

  lemma SliceOfSlice(file: Bytes, key: Key, inner: nat, count: nat)
    requires key.0 <= key.1 <= |file| && inner + count <= key.1 - key.0
    ensures Slice(file, key)[inner..inner + count] == file[key.0 + inner..key.0 + inner + count]
  {
  }

  /** A read that succeeds returns the file's bytes at its position, and at least one of them. */
  lemma ReadIsExact(s: State, file: Bytes, position: nat, length: nat, now: int)
    requires Inv(s, file) && position < |file|
    ensures match Read(s, |file|, position, length, now).1
            case Copied(bytes) =>
              var left := KeyOf(|file|, ChunkOf(position)).1 - position;
              |bytes| == Least(length, left) && bytes == file[position..position + |bytes|]
            case Again => length > 0 && !s.failed
            case Failed => length > 0 && s.failed
    ensures !s.failed ==> !Read(s, |file|, position, length, now).0.failed
  {
    hide Trimmed, KeyOf, ChunkOf, InnerOf, Slice, CacheOk;
    var idx := ChunkOf(position);
    ChunkHolds(|file|, position);
    var key := KeyOf(|file|, idx);
    SliceOfSlice(file, key, InnerOf(position), Least(length, key.1 - position));
    assert |Slice(file, key)| == key.1 - key.0 by { SliceSize(file, key); }
  }

  lemma SliceSize(file: Bytes, key: Key)
    requires key.0 <= key.1 <= |file|
    ensures |Slice(file, key)| == key.1 - key.0
  {
  }

  lemma ReadKeeps(s: State, file: Bytes, position: nat, length: nat, now: int)
    requires Inv(s, file) && position < |file|
    ensures Inv(Read(s, |file|, position, length, now).0, file)
  {
    hide Trimmed, KeyOf, ChunkOf, InnerOf, Slice, Least, CacheOk;
    ReadIsExact(s, file, position, length, now);
    ChunkHolds(|file|, position);
  }

  lemma FilledKeeps(s: State, file: Bytes, idx: nat)
    requires Inv(s, file) && idx in s.inflight && idx * CHUNK_MAX < |file|
    ensures Inv(Filled(s, idx, Slice(file, KeyOf(|file|, idx))), file)
    ensures Filled(s, idx, Slice(file, KeyOf(|file|, idx))).failed == s.failed
  {
  }

  lemma StoredKeeps(s: State, file: Bytes, idx: nat)
    requires Inv(s, file) && idx * CHUNK_MAX < |file|
    ensures var key := KeyOf(|file|, idx); Inv(s.(cache := s.cache[key := Slice(file, key)]), file)
  {
  }

  /** Every event keeps the invariant; in particular no load finds its entry gone. */
  lemma StepKeeps(s: State, file: Bytes, e: Event)
    requires Inv(s, file) && Enabled(s, |file|, e)
    ensures Inv(Step(s, file, e), file)
    ensures !e.OnRead? ==> e.idx in s.table
    ensures Step(s, file, e).failed ==> s.failed || (e.OnFetch? && !e.ok)
  {
    hide Read, Filled, KeyOf, Slice;
    match e
    case OnRead(position, length, now) =>
      ReadKeeps(s, file, position, length, now);
      ReadIsExact(s, file, position, length, now);
    case OnCache(idx, hit) => FilledKeeps(s, file, idx);
    case OnFetch(idx, ok, stored) =>
      FilledKeeps(s, file, idx);
      StoredKeeps(s, file, idx);
      FilledKeeps(s.(cache := s.cache[KeyOf(|file|, idx) := Slice(file, KeyOf(|file|, idx))]), file, idx);
  }

  ghost predicate Run(s: State, file: Bytes, events: seq<Event>)
    decreases |events|
  {
    events == [] || (Enabled(s, |file|, events[0]) && Run(Step(s, file, events[0]), file, events[1..]))
  }

  ghost function After(s: State, file: Bytes, events: seq<Event>): State
    requires Run(s, file, events)
    decreases |events|
  {
    if events == [] then s else After(Step(s, file, events[0]), file, events[1..])
  }

  lemma {:induction false} RunKeeps(s: State, file: Bytes, events: seq<Event>)
    requires Inv(s, file) && Run(s, file, events)
    ensures Inv(After(s, file, events), file)
    decreases |events|
  {
    hide Inv, Step, Enabled;
    if events != [] {
      StepKeeps(s, file, events[0]);
      RunKeeps(Step(s, file, events[0]), file, events[1..]);
    }
  }

  /**
    After any interleaving of reads, cache answers, range replies and evictions, a read that succeeds
    returns exactly the file's bytes at its position, and every load under way owns a table entry that
    is still empty.
   */
  lemma EveryReadIsExact(file: Bytes, cache: map<Key, Bytes>, events: seq<Event>, position: nat, length: nat, now: int)
    requires CacheOk(file, cache) && Run(Start(cache), file, events) && position < |file|
    ensures var s := After(Start(cache), file, events);
            && (match Read(s, |file|, position, length, now).1
                case Copied(bytes) =>
                  bytes <= file[position..] && (length > 0 ==> bytes != []) && |bytes| <= length
                case Again => !s.failed
                case Failed => s.failed)
            && (forall idx :: idx in s.inflight ==> idx in s.table && !s.table[idx].done)
  {
    hide Read, Run, After, KeyOf;
    var s := After(Start(cache), file, events);
    RunKeeps(Start(cache), file, events);
    ReadIsExact(s, file, position, length, now);
    ChunkHolds(|file|, position);
    var bytes := Read(s, |file|, position, length, now).1;
    assert bytes.Copied? ==> bytes.bytes == file[position..][..|bytes.bytes|];
  }

  // ----- a reader that retries -----

  /** The chunk a retrying reader is waiting for, after an event. */
  ghost function Waiting(s: State, size: nat, e: Event, waiting: Option<nat>): Option<nat>
    requires Enabled(s, size, e)
  {
    match e
    case OnRead(position, length, now) =>
      if length == 0 then waiting
      else if Read(s, size, position, length, now).1.Again? then Some(ChunkOf(position)) else None
    case _ => waiting
  }

  /** While it waits for a chunk, a reader reads from that chunk only. */
  ghost predicate Patient(s: State, file: Bytes, events: seq<Event>, waiting: Option<nat>)
    requires Run(s, file, events)
    decreases |events|
  {
    events == [] ||
    (&& (events[0].OnRead? && waiting.Some? ==> ChunkOf(events[0].position) == waiting.value)
     && Patient(Step(s, file, events[0]), file, events[1..], Waiting(s, |file|, events[0], waiting)))
  }

  /** At most the awaited chunk is still loading, and only while waiting may there be one entry too many. */
  ghost predicate Few(s: State, waiting: Option<nat>) {
    && |s.table| <= MAX_ENTRIES + 1
    && (s.failed ||
        (&& (waiting.None? ==> |s.table| <= MAX_ENTRIES)
         && (waiting.Some? ==> waiting.value in s.table)
         && (forall idx :: idx in s.table && !s.table[idx].done ==> waiting == Some(idx))))
  }

  lemma {:induction false} OldestExists(table: map<nat, Entry>, among: set<nat>, idx: nat) returns (oldest: nat)
    requires idx in among && among <= table.Keys && table[idx].done
    ensures OldestOf(table, among, oldest)
    decreases |among|
  {
    if other :| other in among && other != idx && table[other].done {
      var k := OldestExists(table, among - {idx}, other);
      oldest := if Older(table, idx, k) then idx else k;
      forall j | j in among && table[j].done
        ensures Older(table, oldest, j)
      {
        assert j != idx ==> j in among - {idx} && Older(table, k, j);
      }
    } else {
      oldest := idx;
    }
  }

  lemma TrimmedSize(table: map<nat, Entry>, idx: nat)
    requires idx in table && table[idx].done
    ensures |Trimmed(table)| == if |table| <= MAX_ENTRIES then |table| else |table| - 1
  {
    if |table| > MAX_ENTRIES {
      var oldest := OldestExists(table, table.Keys, idx);
      assert IsOldest(table, oldest);
      var t := Trimmed(table);
      var gone :| IsOldest(table, gone) && t == table - {gone};
      assert t.Keys == table.Keys - {gone};
      assert |table| == |table.Keys| && |t| == |t.Keys|;
    }
  }

  lemma MapSetSize(table: map<nat, Entry>, idx: nat, entry: Entry)
    ensures |table[idx := entry]| == |table| + if idx in table then 0 else 1
  {
  }

  lemma ReadStaysFew(s: State, file: Bytes, position: nat, length: nat, now: int, waiting: Option<nat>)
    requires Inv(s, file) && position < |file| && Few(s, waiting)
    requires waiting.Some? ==> ChunkOf(position) == waiting.value
    ensures Few(Read(s, |file|, position, length, now).0, Waiting(s, |file|, OnRead(position, length, now), waiting))
  {
    hide Inv, KeyOf, ChunkOf, Trimmed;
    var idx := ChunkOf(position);
    ReadIsExact(s, file, position, length, now);
    MapSetSize(s.table, idx, Entry([], 0, false, now));
    if idx in s.table && s.table[idx].done {
      var used := s.table[idx := s.table[idx].(lastUsed := now)];
      MapSetSize(s.table, idx, s.table[idx].(lastUsed := now));
      TrimmedSize(used, idx);
    }
  }

  lemma StepStaysFew(s: State, file: Bytes, e: Event, waiting: Option<nat>)
    requires Inv(s, file) && Enabled(s, |file|, e) && Few(s, waiting)
    requires e.OnRead? && waiting.Some? ==> ChunkOf(e.position) == waiting.value
    ensures Few(Step(s, file, e), Waiting(s, |file|, e, waiting))
  {
    hide KeyOf, ChunkOf, Trimmed, Read, CacheOk;
    match e
    case OnRead(position, length, now) => ReadStaysFew(s, file, position, length, now, waiting);
    case OnCache(idx, hit) => if hit {
        MapSetSize(s.table, idx, s.table[idx].(res := s.cache[KeyOf(|file|, idx)], length := |s.cache[KeyOf(|file|, idx)]|, done := true));
      }
    case OnFetch(idx, ok, stored) =>
      var bytes := Slice(file, KeyOf(|file|, idx));
      MapSetSize(s.table, idx, s.table[idx].(res := bytes, length := |bytes|, done := true));
  }

  lemma {:induction false} PatientStaysFew(s: State, file: Bytes, events: seq<Event>, waiting: Option<nat>)
    requires Inv(s, file) && Run(s, file, events) && Few(s, waiting) && Patient(s, file, events, waiting)
    ensures |After(s, file, events).table| <= MAX_ENTRIES + 1
    decreases |events|
  {
    hide Inv, Step, Enabled, Waiting, ChunkOf;
    if events != [] {
      StepKeeps(s, file, events[0]);
      StepStaysFew(s, file, events[0], waiting);
      PatientStaysFew(Step(s, file, events[0]), file, events[1..], Waiting(s, |file|, events[0], waiting));
    }
  }

  /** A reader that retries until it succeeds never has more than six chunks in the table. */
  lemma TableStaysSmall(file: Bytes, cache: map<Key, Bytes>, events: seq<Event>)
    requires CacheOk(file, cache) && Run(Start(cache), file, events) && Patient(Start(cache), file, events, None)
    ensures |After(Start(cache), file, events).table| <= 6
  {
    PatientStaysFew(Start(cache), file, events, None);
  }
}
