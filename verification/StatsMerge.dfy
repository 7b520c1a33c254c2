/**
  The LAN probe's record of a connection: snapshots of its statistics are requested in order and settle
  in any order, and what is kept must not depend on that order.
 */
module StatsMerge {
  import opened Arith
  import opened Option

  type PairId = nat
  /** A state name, or null. */
  type PairState = nat
  type Candidate = nat

  datatype Pair = Pair(id: PairId, state: PairState, nominated: bool, selected: bool, local: Candidate, remote: Candidate)

  /** A digest lists candidate pairs; the ids in one statistics report are distinct. */
  datatype Digest = Digest(pairs: seq<Pair>)

  /** A snapshot that succeeded: the number of its request, what it saw, and when it settled. */
  datatype Settled = Settled(seq_: nat, digest: Digest, atMs: int)

  datatype Observed = Observed(
    firstSeen: nat, lastSeen: nat, states: set<PairState>, lastState: PairState,
    everNominated: bool, everSelected: bool, local: Candidate, remote: Candidate)

  datatype Record = Record(latest: nat, stats: Option<Digest>, statsAt: int, pairs: map<PairId, Observed>)

  const EMPTY: Record := Record(0, None, 0, map[])

  /** One pair merged into what was observed of it before. */
  function MergeOne(prev: Option<Observed>, pair: Pair, seq_: nat): Observed {
    match prev
    case None =>
      Observed(seq_, seq_, {pair.state}, pair.state, pair.nominated, pair.selected, pair.local, pair.remote)
    case Some(o) =>
      var p := o.(firstSeen := if seq_ < o.firstSeen then seq_ else o.firstSeen,
                  states := o.states + {pair.state},
                  everNominated := o.everNominated || pair.nominated,
                  everSelected := o.everSelected || pair.selected);
      if seq_ >= o.lastSeen
      then p.(lastSeen := seq_, lastState := pair.state, local := pair.local, remote := pair.remote)
      else p
  }

  function Lookup(pairs: map<PairId, Observed>, id: PairId): Option<Observed> {
    if id in pairs then Some(pairs[id]) else None
  }

  function Merge(pairs: map<PairId, Observed>, list: seq<Pair>, seq_: nat): map<PairId, Observed> {
    if list == [] then pairs
    else
      var before := Merge(pairs, list[..|list| - 1], seq_);
      var pair := list[|list| - 1];
      before[pair.id := MergeOne(Lookup(before, pair.id), pair, seq_)]
  }

  /** A snapshot settles: the newest one so far becomes the record's statistics; all are merged. */
  function Settle(rec: Record, s: Settled): Record {
    var r := if s.seq_ >= rec.latest then rec.(latest := s.seq_, stats := Some(s.digest), statsAt := s.atMs) else rec;
    r.(pairs := Merge(r.pairs, s.digest.pairs, s.seq_))
  }

  function SettleAll(rec: Record, settled: seq<Settled>): Record {
    if settled == [] then rec else Settle(SettleAll(rec, settled[..|settled| - 1]), settled[|settled| - 1])
  }

  // ----- what is kept, without any order -----

  ghost predicate DistinctIds(list: seq<Pair>) { forall i, j :: 0 <= i < j < |list| ==> list[i].id != list[j].id }

  /** What was seen of one pair: the number of the snapshot, and what it saw. */
  datatype Sighting = Sighting(seq_: nat, pair: Pair)

  ghost function Sightings(all: set<Settled>, id: PairId): set<Sighting> {
    set s, p | s in all && p in s.digest.pairs && p.id == id :: Sighting(s.seq_, p)
  }

  ghost predicate WellFormed(all: set<Settled>) {
    && (forall s :: s in all ==> DistinctIds(s.digest.pairs) && s.seq_ > 0)
    && (forall s, t :: s in all && t in all && s.seq_ == t.seq_ ==> s == t)
  }

  /** The record's statistics are those of the snapshot requested last. */
  ghost predicate Newest(rec: Record, all: set<Settled>) {
    && (all == {} ==> rec.latest == 0 && rec.stats == None && rec.statsAt == 0)
    && (forall s :: s in all ==> s.seq_ <= rec.latest)
    && (all != {} ==> exists s :: s in all && s.seq_ == rec.latest && rec.stats == Some(s.digest) && rec.statsAt == s.atMs)
  }

  /** Nothing seen of a pair is missing from its summary; what changes over time is as seen last. */
  ghost predicate Covers(o: Observed, seen: set<Sighting>) {
    forall x :: x in seen ==>
      && o.firstSeen <= x.seq_ <= o.lastSeen && x.pair.state in o.states
      && (x.pair.nominated ==> o.everNominated) && (x.pair.selected ==> o.everSelected)
      && (x.seq_ == o.lastSeen ==> o.lastState == x.pair.state && o.local == x.pair.local && o.remote == x.pair.remote)
  }

  /** Everything in a pair's summary was seen. */
  ghost predicate Witnessed(o: Observed, seen: set<Sighting>) {
    && (exists x :: x in seen && x.seq_ == o.firstSeen)
    && (exists x :: x in seen && x.seq_ == o.lastSeen)
    && (forall state :: state in o.states ==> exists x :: x in seen && x.pair.state == state)
    && (o.everNominated ==> exists x :: x in seen && x.pair.nominated)
    && (o.everSelected ==> exists x :: x in seen && x.pair.selected)
  }

  ghost predicate Summarises(o: Observed, seen: set<Sighting>) { Covers(o, seen) && Witnessed(o, seen) }

  /** Exactly the pairs that were seen have a summary, and each summary fits what was seen. */
  ghost predicate PairsExact(pairs: map<PairId, Observed>, all: set<Settled>) {
    && (forall id :: id in pairs <==> Sightings(all, id) != {})
    && (forall id :: id in pairs ==> Summarises(pairs[id], Sightings(all, id)))
  }

  ghost predicate Exact(rec: Record, all: set<Settled>) { Newest(rec, all) && PairsExact(rec.pairs, all) }

  /** The settled snapshots decide the record, in whatever order they settled. */
  lemma ExactIsUnique(a: Record, b: Record, all: set<Settled>)
    requires WellFormed(all) && Exact(a, all) && Exact(b, all)
    ensures a == b
  {
    hide Summarises, Sightings;
    NewestIsUnique(a, b, all);
    forall id | id in a.pairs
      ensures id in b.pairs && a.pairs[id] == b.pairs[id]
    {
      SummaryIsUnique(a.pairs[id], b.pairs[id], Sightings(all, id));
    }
    assert a.pairs.Keys == b.pairs.Keys;
  }

  lemma NewestIsUnique(a: Record, b: Record, all: set<Settled>)
    requires WellFormed(all) && Newest(a, all) && Newest(b, all)
    ensures a.latest == b.latest && a.stats == b.stats && a.statsAt == b.statsAt
  {
  }

  lemma SummaryIsUnique(a: Observed, b: Observed, seen: set<Sighting>)
    requires Summarises(a, seen) && Summarises(b, seen)
    ensures a == b
  {
  }

  // ----- merging -----

  /** Merging a list changes each listed pair once, and no other. */
  lemma {:induction false} MergeLooks(pairs: map<PairId, Observed>, list: seq<Pair>, seq_: nat)
    requires DistinctIds(list)
    ensures var m := Merge(pairs, list, seq_);
            && (forall id :: (forall i :: 0 <= i < |list| ==> list[i].id != id) ==> Lookup(m, id) == Lookup(pairs, id))
            && (forall i :: 0 <= i < |list| ==> Lookup(m, list[i].id) == Some(MergeOne(Lookup(pairs, list[i].id), list[i], seq_)))
  {
    hide MergeOne;
    if list != [] {
      MergeLooks(pairs, list[..|list| - 1], seq_);
    }
  }

  lemma NewestSettles(rec: Record, all: set<Settled>, s: Settled)
    requires WellFormed(all + {s}) && s !in all && Newest(rec, all)
    ensures Newest(Settle(rec, s), all + {s})
  {
  }

  /** What another snapshot saw of a pair joins what was known of it. */
  lemma MergeSummarises(prev: Option<Observed>, pair: Pair, seq_: nat, seen: set<Sighting>)
    requires forall x :: x in seen ==> x.seq_ != seq_
    requires match prev case None => seen == {} case Some(o) => Summarises(o, seen)
    ensures Summarises(MergeOne(prev, pair, seq_), seen + {Sighting(seq_, pair)})
  {
  }

  lemma SightingsGrow(all: set<Settled>, s: Settled, id: PairId)
    requires DistinctIds(s.digest.pairs)
    ensures Sightings(all + {s}, id) == Sightings(all, id) + Sightings({s}, id)
    ensures forall i :: 0 <= i < |s.digest.pairs| && s.digest.pairs[i].id == id ==>
              Sightings({s}, id) == {Sighting(s.seq_, s.digest.pairs[i])}
    ensures (forall i :: 0 <= i < |s.digest.pairs| ==> s.digest.pairs[i].id != id) ==> Sightings({s}, id) == {}
  {
  }

  lemma SightingsOld(all: set<Settled>, s: Settled, id: PairId)
    requires WellFormed(all + {s}) && s !in all
    ensures forall x :: x in Sightings(all, id) ==> x.seq_ != s.seq_
  {
  }

  lemma PairSettles(pairs: map<PairId, Observed>, all: set<Settled>, s: Settled, id: PairId)
    requires WellFormed(all + {s}) && s !in all && DistinctIds(s.digest.pairs) && PairsExact(pairs, all)
    ensures var m := Merge(pairs, s.digest.pairs, s.seq_);
            && (id in m <==> Sightings(all + {s}, id) != {})
            && (id in m ==> Summarises(m[id], Sightings(all + {s}, id)))
  {
    hide Summarises, Sightings, Merge, MergeOne, WellFormed;
    var list := s.digest.pairs;
    MergeLooks(pairs, list, s.seq_);
    SightingsGrow(all, s, id);
    SightingsOld(all, s, id);
    if i :| 0 <= i < |list| && list[i].id == id {
      MergeSummarises(Lookup(pairs, id), list[i], s.seq_, Sightings(all, id));
    } else {
      assert Sightings(all, id) + {} == Sightings(all, id);
      assert Lookup(Merge(pairs, list, s.seq_), id) == Lookup(pairs, id);
    }
  }

  /** One more snapshot settles. */
  lemma SettleKeeps(rec: Record, all: set<Settled>, s: Settled)
    requires WellFormed(all + {s}) && s !in all && Exact(rec, all)
    ensures Exact(Settle(rec, s), all + {s})
  {
    hide Newest, Summarises, Sightings, Merge;
    assert s in all + {s};
    NewestSettles(rec, all, s);
    forall id
      ensures var m := Merge(rec.pairs, s.digest.pairs, s.seq_);
              && (id in m <==> Sightings(all + {s}, id) != {})
              && (id in m ==> Summarises(m[id], Sightings(all + {s}, id)))
    {
      PairSettles(rec.pairs, all, s, id);
    }
    NewestPairs(rec, all + {s}, s);
  }

  lemma NewestPairs(rec: Record, all: set<Settled>, s: Settled)
    ensures Settle(rec, s).pairs == Merge(rec.pairs, s.digest.pairs, s.seq_)
  {
  }

  lemma {:induction false} SettleAllExact(settled: seq<Settled>)
    requires Distinct(settled) && WellFormed(ToSet(settled))
    ensures Exact(SettleAll(EMPTY, settled), ToSet(settled))
  {
    hide Exact, Settle;
    if settled == [] {
      EmptyExact();
      assert ToSet(settled) == {};
    } else {
      var head, last := settled[..|settled| - 1], settled[|settled| - 1];
      assert ToSet(settled) == ToSet(head) + {last};
      SettleAllExact(head);
      SettleKeeps(SettleAll(EMPTY, head), ToSet(head), last);
    }
  }

  lemma EmptyExact()
    ensures Exact(EMPTY, {})
  {
  }

  /**
    For every two orders in which the same snapshots settle, the record is the same: the statistics are
    the newest request's, and every pair's summary holds what any snapshot saw of it.
   */
  lemma OrderDoesNotMatter(a: seq<Settled>, b: seq<Settled>)
    requires Distinct(a) && Distinct(b) && ToSet(a) == ToSet(b) && WellFormed(ToSet(a))
    ensures SettleAll(EMPTY, a) == SettleAll(EMPTY, b)
    ensures Exact(SettleAll(EMPTY, a), ToSet(a))
  {
    SettleAllExact(a);
    SettleAllExact(b);
    ExactIsUnique(SettleAll(EMPTY, a), SettleAll(EMPTY, b), ToSet(a));
  }

  // ----- the probe's record, updated in place -----

  /** What the probe keeps of a pair: the states it has seen are a list, in order of arrival. */
  datatype Kept = Kept(
    firstSeen: nat, lastSeen: nat, statesSeen: seq<PairState>, lastState: PairState,
    everNominated: bool, everSelected: bool, local: Candidate, remote: Candidate)

  ghost function Abstracted(k: Kept): Observed {
    Observed(k.firstSeen, k.lastSeen, ToSet(k.statesSeen), k.lastState, k.everNominated, k.everSelected, k.local, k.remote)
  }

  ghost function AllAbstracted(pairs: map<PairId, Kept>): map<PairId, Observed> {
    map id | id in pairs :: Abstracted(pairs[id])
  }

  /** No state is listed twice, and lists only ever grow at their end. */
  ghost predicate ListsGrow(before: map<PairId, Kept>, after: map<PairId, Kept>) {
    && (forall id :: id in after ==> Distinct(after[id].statesSeen))
    && (forall id :: id in before ==> id in after && before[id].statesSeen <= after[id].statesSeen)
  }

  lemma ListsGrowOn(a: map<PairId, Kept>, b: map<PairId, Kept>, c: map<PairId, Kept>)
    requires ListsGrow(a, b) && ListsGrow(b, c)
    ensures ListsGrow(a, c)
  {
  }

  /** Listing a state that is not listed yet adds it to the set; the list stays without repetition. */
  lemma Listed(states: seq<PairState>, state: PairState)
    requires Distinct(states)
    ensures var more := if state in states then states else states + [state];
            Distinct(more) && states <= more && ToSet(more) == ToSet(states) + {state}
  {
    if state in states {
      assert ToSet(states) == ToSet(states) + {state};
    } else {
      ToSetSnoc(states, state);
    }
  }

  /** A snapshot from request to settling; a digest of none means it failed. */
  datatype Entry = Entry(seq_: nat, done: bool, digest: Option<Digest>)

  class ConnectionRecord {
    var statsSeq: nat
    var latestStatsSeq: nat
    var stats: Option<Digest>
    var statsAtMs: int
    var pairsEverObserved: map<PairId, Kept>
    var statsSnapshots: seq<Entry>

    ghost function View(): Record
      reads this
    {
      Record(latestStatsSeq, stats, statsAtMs, AllAbstracted(pairsEverObserved))
    }

    /** Requests are numbered from one, in the order of the list; no state is listed twice. */
    ghost predicate Valid()
      reads this
    {
      && (forall id :: id in pairsEverObserved ==> Distinct(pairsEverObserved[id].statesSeen))
      && (forall i :: 0 <= i < |statsSnapshots| ==> 0 < statsSnapshots[i].seq_ <= statsSeq)
      && (forall i, j :: 0 <= i < j < |statsSnapshots| ==> statsSnapshots[i].seq_ < statsSnapshots[j].seq_)
    }

    constructor ()
      ensures Valid() && View() == EMPTY && statsSnapshots == []
    {
      statsSeq, latestStatsSeq, stats, statsAtMs, pairsEverObserved, statsSnapshots := 0, 0, None, 0, map[], [];
    }

    /** A snapshot is requested, after `others` requests for other connections: it is listed at once, pending. */
    method Snapshot(others: nat) returns (seq_: nat)
      requires Valid()
      modifies this
      ensures Valid() && View() == old(View())
      ensures statsSnapshots == old(statsSnapshots) + [Entry(seq_, false, None)]
      ensures forall i :: 0 <= i < |old(statsSnapshots)| ==> old(statsSnapshots)[i].seq_ < seq_
    {
      statsSeq := statsSeq + others + 1;
      seq_ := statsSeq;
      statsSnapshots := statsSnapshots + [Entry(seq_, false, None)];
    }

    /** A snapshot settles, with a digest or without; without one, nothing but its entry changes. */
    method SettleSnapshot(i: nat, digest: Option<Digest>, now: int)
      requires Valid() && i < |statsSnapshots|
      modifies this
      ensures Valid() && statsSnapshots == old(statsSnapshots)[i := Entry(old(statsSnapshots)[i].seq_, true, digest)]
      ensures View() == match digest
                        case None => old(View())
                        case Some(d) => Settle(old(View()), Settled(old(statsSnapshots)[i].seq_, d, now))
    {
      var seq_ := statsSnapshots[i].seq_;
      statsSnapshots := statsSnapshots[i := Entry(seq_, true, digest)];
      if digest.Some? && seq_ >= latestStatsSeq {
        latestStatsSeq := seq_;
        stats := digest;
        statsAtMs := now;
      }
      if digest.Some? {
        MergeObserved(digest.value, seq_);
      }
    }

    method MergeObserved(digest: Digest, seq_: nat)
      requires forall id :: id in pairsEverObserved ==> Distinct(pairsEverObserved[id].statesSeen)
      modifies `pairsEverObserved
      ensures AllAbstracted(pairsEverObserved) == Merge(AllAbstracted(old(pairsEverObserved)), digest.pairs, seq_)
      ensures ListsGrow(old(pairsEverObserved), pairsEverObserved)
    {
      hide Distinct;
      var list := digest.pairs;
      assert list[..0] == [];
      for i := 0 to |list|
        invariant AllAbstracted(pairsEverObserved) == Merge(AllAbstracted(old(pairsEverObserved)), list[..i], seq_)
        invariant ListsGrow(old(pairsEverObserved), pairsEverObserved)
      {
        ghost var before := pairsEverObserved;
        MergePair(list[i], seq_);
        assert list[..i + 1][..i] == list[..i];
        ListsGrowOn(old(pairsEverObserved), before, pairsEverObserved);
      }
      assert list[..|list|] == list;
    }

    method MergePair(pair: Pair, seq_: nat)
      requires forall id :: id in pairsEverObserved ==> Distinct(pairsEverObserved[id].statesSeen)
      modifies `pairsEverObserved
      ensures var before := AllAbstracted(old(pairsEverObserved));
              AllAbstracted(pairsEverObserved) == before[pair.id := MergeOne(Lookup(before, pair.id), pair, seq_)]
      ensures ListsGrow(old(pairsEverObserved), pairsEverObserved)
    {
      hide Distinct, Abstracted, MergeOne;
      var prev := if pair.id in pairsEverObserved then Some(pairsEverObserved[pair.id]) else None;
      var next := MergeKept(prev, pair, seq_);
      AbstractedUpdate(pairsEverObserved, pair.id, next);
      pairsEverObserved := pairsEverObserved[pair.id := next];
    }
  }

  lemma AbstractedUpdate(pairs: map<PairId, Kept>, id: PairId, k: Kept)
    ensures AllAbstracted(pairs[id := k]) == AllAbstracted(pairs)[id := Abstracted(k)]
    ensures Lookup(AllAbstracted(pairs), id) == if id in pairs then Some(Abstracted(pairs[id])) else None
  {
    hide Abstracted;
  }

  /** Merging what is kept of a pair, field by field. */
  method MergeKept(before: Option<Kept>, pair: Pair, seq_: nat) returns (prev: Kept)
    requires before.Some? ==> Distinct(before.value.statesSeen)
    ensures Abstracted(prev) == MergeOne(if before.Some? then Some(Abstracted(before.value)) else None, pair, seq_)
    ensures Distinct(prev.statesSeen) && (before.Some? ==> before.value.statesSeen <= prev.statesSeen)
  {
    hide Distinct, ToSet;
    EmptyList();
    prev := if before.Some? then before.value else Kept(seq_, 0, [], pair.state, false, false, pair.local, pair.remote);
    Listed(prev.statesSeen, pair.state);
    if seq_ < prev.firstSeen {
      prev := prev.(firstSeen := seq_);
    }
    if pair.state !in prev.statesSeen {
      prev := prev.(statesSeen := prev.statesSeen + [pair.state]);
    }
    prev := prev.(everNominated := prev.everNominated || pair.nominated);
    prev := prev.(everSelected := prev.everSelected || pair.selected);
    if seq_ >= prev.lastSeen {
      prev := prev.(lastSeen := seq_, lastState := pair.state, local := pair.local, remote := pair.remote);
    }
  }

  lemma EmptyList()
    ensures Distinct<PairState>([]) && ToSet<PairState>([]) == {} && forall x: PairState :: {} + {x} == {x}
  {
  }
}
