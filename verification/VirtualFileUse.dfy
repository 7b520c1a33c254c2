/**
  When chunks were used, and what is evicted: over every run, the chunk that goes is the loaded one whose
  last use is longest ago.
 */
module VirtualFileUse {
  import opened Option
  import opened VirtualFile

  /** A read uses a chunk when it copies from it, or when it is the first to ask for it. */
  ghost predicate Uses(s: State, size: nat, e: Event) {
    e.OnRead? && e.position < size && e.length > 0
    && var r := Read(s, size, e.position, e.length, e.now).1;
    r.Copied? || (r.Again? && e.position / 100_000_000 !in s.table)
  }

  /** When each chunk was last used. */
  ghost function LastUses(s: State, file: Bytes, events: seq<Event>, uses: map<nat, int>): map<nat, int>
    requires Run(s, file, events)
    decreases |events|
  {
    if events == [] then uses
    else LastUses(Step(s, file, events[0]), file, events[1..], Noted(s, |file|, events[0], uses))
  }

  ghost function Noted(s: State, size: nat, e: Event, uses: map<nat, int>): map<nat, int> {
    if Uses(s, size, e) then uses[e.position / 100_000_000 := e.now] else uses
  }

  /** Every entry of the table says when it was last used. */
  ghost predicate Dated(s: State, uses: map<nat, int>) {
    forall idx :: idx in s.table ==> idx in uses && s.table[idx].lastUsed == uses[idx]
  }

  lemma StepDates(s: State, file: Bytes, e: Event, uses: map<nat, int>)
    requires Enabled(s, |file|, e) && Dated(s, uses)
    ensures Dated(Step(s, file, e), Noted(s, |file|, e, uses))
  {
    hide Trimmed, KeyOf, Slice;
  }

  lemma {:induction false} RunDates(s: State, file: Bytes, events: seq<Event>, uses: map<nat, int>)
    requires Run(s, file, events) && Dated(s, uses)
    ensures Dated(After(s, file, events), LastUses(s, file, events, uses))
    decreases |events|
  {
    hide Step, Enabled, Dated, Noted;
    if events != [] {
      StepDates(s, file, events[0], uses);
      RunDates(Step(s, file, events[0]), file, events[1..], Noted(s, |file|, events[0], uses));
    }
  }

  lemma TrimmedDrops(table: map<nat, Entry>, used: nat)
    requires used in table && table[used].done
    ensures if |table| <= 5 then Trimmed(table) == table else exists gone :: IsOldest(table, gone) && Trimmed(table) == table - {gone}
  {
    if |table| > MAX_ENTRIES {
      var oldest := OldestExists(table, table.Keys, used);
      assert IsOldest(table, oldest);
    }
  }

  /** What a step takes out of the table. */
  lemma StepDrops(s: State, file: Bytes, e: Event, uses: map<nat, int>)
    requires Inv(s, file) && Enabled(s, |file|, e) && Dated(s, uses)
    ensures var t, now := Step(s, file, e), Noted(s, |file|, e, uses);
            var copies := e.OnRead? && e.length > 0 && Read(s, |file|, e.position, e.length, e.now).1.Copied?;
            if copies && |s.table| > 5 then
              exists gone :: gone in s.table && s.table[gone].done && t.table.Keys == s.table.Keys - {gone}
                && forall idx :: idx in s.table && s.table[idx].done ==>
                     now[gone] < now[idx] || (now[gone] == now[idx] && gone <= idx)
            else s.table.Keys <= t.table.Keys
  {
    hide Inv, Trimmed, KeyOf, Slice;
    if e.OnRead? && e.length > 0 && Read(s, |file|, e.position, e.length, e.now).1.Copied? {
      var idx := e.position / 100_000_000;
      var table := s.table[idx := s.table[idx].(lastUsed := e.now)];
      assert |table| == |s.table| by {
        MapSetSize(s.table, idx, s.table[idx].(lastUsed := e.now));
      }
      TrimmedDrops(table, idx);
      if |table| > 5 {
        var gone :| IsOldest(table, gone) && Trimmed(table) == table - {gone};
        assert Older(table, gone, gone);
        forall x | x in s.table && s.table[x].done
          ensures Older(table, gone, x)
        {
          assert x in table.Keys && table[x].done;
        }
      }
    }
  }

  /**
    After every run: entries leave the table one at a time, only when a read has copied bytes and there are
    more than five, and the one that leaves is loaded and was last used before all other loaded ones, the
    lowest number among equals. Nothing else takes an entry away.
   */
  lemma EvictsLeastRecentlyUsed(file: Bytes, cache: map<Key, Bytes>, events: seq<Event>, e: Event)
    requires CacheOk(file, cache) && Run(Start(cache), file, events)
    requires Enabled(After(Start(cache), file, events), |file|, e)
    ensures var s := After(Start(cache), file, events);
            var t, uses := Step(s, file, e), Noted(s, |file|, e, LastUses(Start(cache), file, events, map[]));
            var copies := e.OnRead? && e.length > 0 && Read(s, |file|, e.position, e.length, e.now).1.Copied?;
            && (forall idx :: idx in s.table || idx in t.table ==> idx in uses)
            && if copies && |s.table| > 5 then
                 exists gone :: gone in s.table && s.table[gone].done && t.table.Keys == s.table.Keys - {gone}
                   && forall idx :: idx in s.table && s.table[idx].done ==>
                        uses[gone] < uses[idx] || (uses[gone] == uses[idx] && gone <= idx)
               else s.table.Keys <= t.table.Keys
  {
    hide Step, Read, Noted, LastUses, Run, After;
    var s := After(Start(cache), file, events);
    RunKeeps(Start(cache), file, events);
    RunDates(Start(cache), file, events, map[]);
    StepDates(s, file, e, LastUses(Start(cache), file, events, map[]));
    StepDrops(s, file, e, LastUses(Start(cache), file, events, map[]));
    StillNoted(s, |file|, e, LastUses(Start(cache), file, events, map[]));
  }

  lemma StillNoted(s: State, size: nat, e: Event, uses: map<nat, int>)
    ensures forall idx :: idx in uses ==> idx in Noted(s, size, e, uses)
  {
    hide Uses;
  }

  // ----- keys and loads -----

  /** Chunks are 100,000,000 bytes, the last one what is left; keys name them by their first byte and the byte behind their last. */
  lemma KeysAre(size: nat, idx: nat)
    requires idx * 100_000_000 < size
    ensures KeyOf(size, idx) == (100_000_000 * idx, if size < 100_000_000 * (idx + 1) then size else 100_000_000 * (idx + 1))
    ensures forall position: nat :: 100_000_000 * idx <= position < 100_000_000 * (idx + 1) ==> ChunkOf(position) == idx
  {
  }

  /**
    A load: the first read of a chunk asks the cache; a miss asks the server; what the server sends is in the
    entry and, if it could be stored, in the cache under the chunk's key; a failed request fails the file.
   */
  lemma LoadsGoOn(s: State, file: Bytes, e: Event)
    requires Inv(s, file) && Enabled(s, |file|, e)
    ensures var t := Step(s, file, e);
            match e
            case OnRead(position, length, now) =>
              var idx := position / 100_000_000;
              length > 0 && !s.failed && idx !in s.table ==>
                t.table == s.table[idx := Entry([], 0, false, now)] && t.inflight == s.inflight[idx := AskingCache] && t.cache == s.cache
            case OnCache(idx, hit) =>
              if hit then t.inflight == s.inflight - {idx} && idx in t.table && t.table[idx].done && t.table[idx].res == s.cache[KeyOf(|file|, idx)]
              else t == s.(inflight := s.inflight[idx := Fetching])
            case OnFetch(idx, ok, stored) =>
              var key := KeyOf(|file|, idx);
              && t.inflight == s.inflight - {idx}
              && (ok ==> idx in t.table && t.table[idx].done && t.table[idx].res == file[key.0..key.1] && t.failed == s.failed)
              && (!ok ==> t.failed && t.table == s.table)
              && t.cache == if ok && stored then s.cache[key := file[key.0..key.1]] else s.cache
  {
    hide Trimmed, KeyOf, CacheOk;
  }
}
