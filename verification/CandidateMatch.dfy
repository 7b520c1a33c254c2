/**
  Recovering the address of a candidate that the statistics redact, from the candidates that were
  signalled, and picking the selected pair of a report.
 */
module CandidateMatch {
  import opened Arith
  import opened Option

  /** Text attributes are compared only; none stands for null. */
  type Text = nat

  datatype Signaled = Signaled(
    address: Option<Text>, port: Option<int>, protocol: Option<Text>, kind: Option<Text>,
    foundation: Option<Text>, priority: Option<int>)

  datatype Stat = Stat(
    address: Option<Text>, port: Option<int>, protocol: Option<Text>, kind: Option<Text>,
    foundation: Option<Text>, priority: Option<int>)

  predicate SameBase(c: Signaled, stat: Stat) { c.port == stat.port && c.protocol == stat.protocol && c.kind == stat.kind }

  predicate Strong(c: Signaled, stat: Stat) {
    SameBase(c, stat) && c.foundation.Some? && c.priority.Some? && c.foundation == stat.foundation && c.priority == stat.priority
  }

  /** Whether a candidate matches, on the strong key or on the weak one. */
  predicate Matches(c: Signaled, stat: Stat, strong: bool) { if strong then Strong(c, stat) else SameBase(c, stat) }

  function Filter(pool: seq<Signaled>, stat: Stat, strong: bool): seq<Signaled> {
    if pool == [] then []
    else (if Matches(pool[0], stat, strong) then [pool[0]] else []) + Filter(pool[1..], stat, strong)
  }

  datatype Key = StrongKey | WeakKey

  datatype Found = Found(matches: seq<Signaled>, matchedOn: Option<Key>)

  /** The strong matches if the statistics carry the strong key and there are any; otherwise the weak ones. */
  function MatchSignaled(pool: seq<Signaled>, stat: Stat): Found {
    var strong := if stat.foundation.Some? && stat.priority.Some? then Filter(pool, stat, true) else [];
    if |strong| > 0 then Found(strong, Some(StrongKey))
    else
      var weak := Filter(pool, stat, false);
      Found(weak, if |weak| > 0 then Some(WeakKey) else None)
  }

  datatype AddressSource = FromStats | FromSignaling | Ambiguous | Unknown

  /** What is reported: the address, where it is from, the key that decided, and how many candidates agreed on it. */
  datatype Described = Described(address: Option<Text>, source: AddressSource, matchedOn: Option<Key>, matches: Option<nat>)

  /** The statistics' own address, or the address of the only match; none when there are several. */
  function Describe(pool: seq<Signaled>, stat: Stat): Described {
    if stat.address.Some? then Described(stat.address, FromStats, None, None)
    else
      var found := MatchSignaled(pool, stat);
      if |found.matches| == 1 then Described(found.matches[0].address, FromSignaling, found.matchedOn, Some(1))
      else if |found.matches| > 1 then Described(None, Ambiguous, found.matchedOn, Some(|found.matches|))
      else Described(None, Unknown, None, Some(0))
  }

  lemma {:induction false} FilterCounts(pool: seq<Signaled>, stat: Stat, strong: bool)
    ensures forall c: Signaled ::
              multiset(Filter(pool, stat, strong))[c] == if Matches(c, stat, strong) then multiset(pool)[c] else 0
  {
    hide Matches;
    if pool != [] {
      FilterCounts(pool[1..], stat, strong);
      assert pool == [pool[0]] + pool[1..];
    }
  }

  /** The same candidates in another order match the same. */
  lemma FilterReorders(a: seq<Signaled>, b: seq<Signaled>, stat: Stat, strong: bool)
    requires multiset(a) == multiset(b)
    ensures multiset(Filter(a, stat, strong)) == multiset(Filter(b, stat, strong))
    ensures |Filter(a, stat, strong)| == |Filter(b, stat, strong)|
    ensures |Filter(a, stat, strong)| == 1 ==> Filter(a, stat, strong)[0] == Filter(b, stat, strong)[0]
  {
    hide Matches, Filter;
    FilterCounts(a, stat, strong);
    FilterCounts(b, stat, strong);
    var fa, fb := Filter(a, stat, strong), Filter(b, stat, strong);
    assert multiset(fa) == multiset(fb);
    assert |fa| == |multiset(fa)| && |fb| == |multiset(fb)|;
    if |fa| == 1 {
      assert fb[0] in multiset(fb);
      assert fb[0] in fa;
    }
  }

  /** What is reported does not depend on the order in which candidates were signalled. */
  lemma SignallingOrderDoesNotMatter(a: seq<Signaled>, b: seq<Signaled>, stat: Stat)
    requires multiset(a) == multiset(b)
    ensures Describe(a, stat) == Describe(b, stat)
  {
    hide Filter;
    FilterReorders(a, b, stat, true);
    FilterReorders(a, b, stat, false);
  }

  lemma StrongNeedsKey(pool: seq<Signaled>, stat: Stat)
    ensures stat.foundation.None? || stat.priority.None? ==> Filter(pool, stat, true) == []
  {
  }

  lemma OnlyMatch(pool: seq<Signaled>, stat: Stat, strong: bool)
    requires |Filter(pool, stat, strong)| == 1
    ensures var c := Filter(pool, stat, strong)[0];
            && c in pool && Matches(c, stat, strong) && multiset(pool)[c] == 1
            && (forall x :: x in pool && Matches(x, stat, strong) ==> x == c)
  {
    hide Matches, Filter;
    FilterCounts(pool, stat, strong);
    var f := Filter(pool, stat, strong);
    var c := f[0];
    assert f == [c];
    assert multiset(f)[c] == 1;
    assert c in multiset(pool);
    forall x | x in pool && Matches(x, stat, strong)
      ensures x == c
    {
      assert x in multiset(pool);
      assert multiset(f)[x] > 0;
    }
  }

  // ----- on the fields -----

  /** The only candidate of the pool that agrees with the statistics on port, protocol and type. */
  ghost predicate OnlyAtPort(pool: seq<Signaled>, stat: Stat, c: Signaled) {
    && multiset(pool)[c] == 1 && c.port == stat.port && c.protocol == stat.protocol && c.kind == stat.kind
    && (forall x :: x in pool && x.port == stat.port && x.protocol == stat.protocol && x.kind == stat.kind ==> x == c)
  }

  /** The candidate carries the foundation and priority the statistics carry, next to port, protocol and type. */
  ghost predicate AgreesOnAll(c: Signaled, stat: Stat) {
    && c.port == stat.port && c.protocol == stat.protocol && c.kind == stat.kind
    && c.foundation.Some? && c.foundation == stat.foundation && c.priority.Some? && c.priority == stat.priority
  }

  /** The only candidate of the pool that agrees on all five. */
  ghost predicate OnlyOnAll(pool: seq<Signaled>, stat: Stat, c: Signaled) {
    multiset(pool)[c] == 1 && AgreesOnAll(c, stat) && forall x :: x in pool && AgreesOnAll(x, stat) ==> x == c
  }

  lemma FilterIsEmpty(pool: seq<Signaled>, stat: Stat, strong: bool)
    ensures Filter(pool, stat, strong) == [] <==> forall x :: x in pool ==> !Matches(x, stat, strong)
  {
    hide Matches, Filter;
    FilterCounts(pool, stat, strong);
    var f := Filter(pool, stat, strong);
    if f != [] {
      assert multiset(f)[f[0]] > 0;
      assert f[0] in multiset(pool);
    }
    forall x | x in pool && Matches(x, stat, strong)
      ensures f != []
    {
      assert x in multiset(pool);
      assert multiset(f)[x] > 0;
    }
  }

  lemma {:induction false} FilterIsOne(pool: seq<Signaled>, stat: Stat, strong: bool, c: Signaled)
    requires multiset(pool)[c] == 1 && Matches(c, stat, strong)
    requires forall x :: x in pool && Matches(x, stat, strong) ==> x == c
    ensures Filter(pool, stat, strong) == [c]
  {
    hide Matches, Filter;
    FilterCounts(pool, stat, strong);
    var f := Filter(pool, stat, strong);
    assert multiset(f)[c] == 1;
    assert c in multiset(f);
    forall i | 0 <= i < |f|
      ensures f[i] == c
    {
      assert multiset(f)[f[i]] > 0;
      assert f[i] in multiset(pool);
    }
    AllSame(f, c);
  }

  lemma {:induction false} AllSame(f: seq<Signaled>, c: Signaled)
    requires forall i :: 0 <= i < |f| ==> f[i] == c
    ensures multiset(f)[c] == |f|
  {
    if f != [] {
      AllSame(f[1..], c);
      assert f == [f[0]] + f[1..];
    }
  }

  lemma AllIsStrong(pool: seq<Signaled>, stat: Stat)
    ensures forall x: Signaled :: Matches(x, stat, true) <==> AgreesOnAll(x, stat)
    ensures forall x: Signaled :: Matches(x, stat, false) <==> x.port == stat.port && x.protocol == stat.protocol && x.kind == stat.kind
  {
  }

  /**
    An address comes from signalling exactly when the statistics have none and one candidate decides it: the
    only one that agrees on port, protocol, type, foundation and priority, or, when none does, the only one
    that agrees on port, protocol and type. It is that candidate's address, and the key says which of the two.
   */
  lemma AddressIsSignalled(pool: seq<Signaled>, stat: Stat, c: Signaled)
    ensures stat.address.None? && OnlyOnAll(pool, stat, c) ==> Describe(pool, stat) == Described(c.address, FromSignaling, Some(StrongKey), Some(1))
    ensures stat.address.None? && (forall x :: x in pool ==> !AgreesOnAll(x, stat)) && OnlyAtPort(pool, stat, c) ==>
              Describe(pool, stat) == Described(c.address, FromSignaling, Some(WeakKey), Some(1))
  {
    hide Filter, Matches;
    AllIsStrong(pool, stat);
    StrongNeedsKey(pool, stat);
    if OnlyOnAll(pool, stat, c) {
      FilterIsOne(pool, stat, true, c);
    }
    if (forall x :: x in pool ==> !AgreesOnAll(x, stat)) && OnlyAtPort(pool, stat, c) {
      FilterIsEmpty(pool, stat, true);
      FilterIsOne(pool, stat, false, c);
    }
  }

  /** Conversely, a signalled address is never a guess: it belongs to the one candidate that decides. */
  lemma AddressIsNoGuess(pool: seq<Signaled>, stat: Stat) returns (c: Signaled)
    requires Describe(pool, stat).source == FromSignaling
    ensures var d := Describe(pool, stat);
            && stat.address.None? && d.address == c.address
            && (if d.matchedOn == Some(StrongKey) then OnlyOnAll(pool, stat, c)
                else d.matchedOn == Some(WeakKey) && OnlyAtPort(pool, stat, c) && forall x :: x in pool ==> !AgreesOnAll(x, stat))
  {
    hide Filter, Matches;
    AllIsStrong(pool, stat);
    StrongNeedsKey(pool, stat);
    FilterIsEmpty(pool, stat, true);
    var strong := Describe(pool, stat).matchedOn == Some(StrongKey);
    OnlyMatch(pool, stat, strong);
    c := Filter(pool, stat, strong)[0];
  }

  /** How many positions of the pool hold a candidate that agrees on the deciding key. */
  ghost function Agreeing(pool: seq<Signaled>, stat: Stat, all: bool): set<nat> {
    set i: nat | i < |pool| &&
      (if all then AgreesOnAll(pool[i], stat) else pool[i].port == stat.port && pool[i].protocol == stat.protocol && pool[i].kind == stat.kind)
  }

  lemma {:induction false} FilterConcat(a: seq<Signaled>, b: seq<Signaled>, stat: Stat, strong: bool)
    ensures Filter(a + b, stat, strong) == Filter(a, stat, strong) + Filter(b, stat, strong)
  {
    if a == [] {
      assert a + b == b;
    } else {
      assert (a + b)[1..] == a[1..] + b;
      FilterConcat(a[1..], b, stat, strong);
    }
  }

  lemma AgreeingMore(pool: seq<Signaled>, c: Signaled, stat: Stat, all: bool)
    ensures Agreeing(pool + [c], stat, all) == Agreeing(pool, stat, all) + if Matches(c, stat, all) then {|pool|} else {}
  {
    hide Matches, AgreesOnAll;
    AllIsStrong(pool, stat);
  }

  lemma FilterMore(pool: seq<Signaled>, c: Signaled, stat: Stat, all: bool)
    ensures Filter(pool + [c], stat, all) == Filter(pool, stat, all) + if Matches(c, stat, all) then [c] else []
  {
    hide Matches;
    FilterConcat(pool, [c], stat, all);
    assert [c][1..] == [];
  }

  lemma {:induction false} FilterSize(pool: seq<Signaled>, stat: Stat, all: bool)
    ensures |Filter(pool, stat, all)| == |Agreeing(pool, stat, all)|
  {
    if pool == [] {
      assert Agreeing(pool, stat, all) == {};
    } else {
      hide Matches, AgreesOnAll, Filter, Agreeing;
      var n := |pool| - 1;
      FilterSize(pool[..n], stat, all);
      FilterMore(pool[..n], pool[n], stat, all);
      AgreeingMore(pool[..n], pool[n], stat, all);
      assert pool == pool[..n] + [pool[n]];
      BelowLength(pool[..n], stat, all);
    }
  }

  lemma BelowLength(pool: seq<Signaled>, stat: Stat, all: bool)
    ensures |pool| !in Agreeing(pool, stat, all)
  {
  }

  /**
    The other answers: the statistics' own address; none because several candidates tie on the deciding key,
    and how many; and none because no candidate agrees on port, protocol and type.
   */
  lemma OtherwiseNoAddress(pool: seq<Signaled>, stat: Stat)
    ensures var d, tied := Describe(pool, stat), |Agreeing(pool, stat, true)|;
            var count := if tied > 0 then tied else |Agreeing(pool, stat, false)|;
            && (stat.address.Some? <==> d.source == FromStats) && (stat.address.Some? ==> d.address == stat.address && d.matches == None)
            && (stat.address.None? ==> d.matches == Some(count))
            && (d.source == Unknown <==> stat.address.None? && count == 0)
            && (d.source == Ambiguous <==> stat.address.None? && count > 1)
            && (d.source == Unknown || d.source == Ambiguous ==> d.address.None?)
            && (d.matchedOn == if stat.address.Some? || count == 0 then None else Some(if tied > 0 then StrongKey else WeakKey))
  {
    hide Filter, Agreeing;
    FilterSize(pool, stat, true);
    FilterSize(pool, stat, false);
    StrongNeedsKey(pool, stat);
  }
}
