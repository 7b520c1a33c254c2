/**
  Where the header reader gets its bytes: a growing prefix of the file, fetched over HTTP with ranges
  or as one stream, or read from the disk.

  What the network and the disk do is arbitrary within a contract: a partial reply is the beginning of
  the range asked for, stream pieces come in order and are not empty, and any request may fail. A
  reliable server always answers, in full.
 */
module ByteSource {
  import opened Arith
  import opened Option
  import opened GgufFormat

  /** The first read is 1 MiB, and no read goes past 512 MiB. */
  const FIRST_READ: nat := 1048576
  const MAX_READ: nat := 512 * 1048576

  function Most(a: nat, b: nat): nat { if a < b then b else a }

  /** Whether a server supports ranges, sends a Content-Length, answers always and in full, and the
      largest piece its streams come in. */
  datatype Server = Server(ranges: bool, lengths: bool, reliable: bool, largest: nat)

  datatype Reply = Partial(body: Bytes, total: Option<nat>) | Whole(length: Option<nat>) | Refused

  predicate Faithful(server: Server, file: Bytes, from: nat, target: nat, reply: Reply)
    requires from <= |file| && from < target
  {
    var there := file[from..Least(target, |file|)];
    && (match reply
        case Partial(body, total) => body <= there && (total == None || total == Some(|file|))
        case Whole(length) => length == None || length == Some(|file|)
        case Refused => true)
    && (server.reliable ==>
          if server.ranges then if from < |file| then reply.Partial? && reply.body == there else reply.Refused?
          else reply.Whole? && (reply.length.Some? <==> server.lengths))
  }

  datatype Piece = Next(bytes: Bytes) | Done | Broken

  predicate InOrder(server: Server, file: Bytes, from: nat, piece: Piece)
    requires from <= |file|
  {
    && (piece.Next? ==> piece.bytes != [] && |piece.bytes| <= server.largest && piece.bytes <= file[from..])
    && (server.reliable ==> !piece.Broken? && (piece.Done? <==> from == |file|))
  }

  /** How many bytes a source may hold when the reader has asked for `wanted`. */
  function Bound(wanted: nat): nat { Most(FIRST_READ, 2 * wanted) }

  /** Each request at least doubled what was there, or reached the end of the file. */
  ghost predicate Few(requests: nat, have: nat, size: nat, wanted: nat) {
    && (requests >= 1 ==> have == size || have >= FIRST_READ * Pow2(requests - 1))
    && (requests >= 2 ==> FIRST_READ * Pow2(requests - 2) < wanted)
  }

  lemma FewWants(requests: nat, have: nat, size: nat, wanted: nat, end: nat)
    requires Few(requests, have, size, wanted)
    ensures Few(requests, have, size, Most(wanted, end))
  {
  }

  lemma FewMore(requests: nat, have: nat, size: nat, wanted: nat, end: nat, have': nat)
    requires Few(requests, have, size, wanted) && have < end <= size && have <= have' <= size
    requires (requests == 0 ==> have == 0) && have' >= Least(Most(FIRST_READ, 2 * have), size)
    ensures Few(requests + 1, have', size, Most(wanted, end))
  {
    assert requests >= 1 ==> Pow2(requests) == 2 * Pow2(requests - 1);
    assert Pow2(0) == 1;
  }

  class HttpSource {
    const file: Bytes
    const server: Server
    var bytes: Bytes
    var size: Option<nat>
    var requests: nat
    var streaming: bool
    /** The largest end asked for, and the end that could not be given, if any. */
    ghost var wanted: nat
    ghost var failedAt: Option<nat>
    /** How many requests were refused and how many streams broke. */
    ghost var faults: nat

    ghost predicate Valid()
      reads this
    {
      Shape() && Paced()
    }

    /** The bytes are a prefix of the file, and the mode fits what the server does. */
    ghost predicate Shape()
      reads this
    {
      && server.largest > 0 && bytes <= file && SizeOk()
      && (requests == 0 ==> bytes == [] && !streaming)
      && (!streaming && !server.ranges && server.reliable ==> bytes == [] && size.None?)
      && (streaming && server.ranges ==> !server.reliable)
      && (streaming && server.reliable ==> |bytes| >= Least(FIRST_READ, |file|))
    }

    /** Not much more was fetched than was asked for, in few requests. */
    ghost predicate Paced()
      reads this
    {
      && |bytes| <= Bound(wanted) + (if streaming then server.largest - 1 else 0)
      && (server.ranges && server.reliable && failedAt.None? ==> Few(requests, |bytes|, |file|, wanted))
    }

    /** A stream without a length has come in as far as it ever will: the first read and what its last piece carried. */
    ghost predicate Settled()
      reads this
    {
      server.reliable && !server.ranges && !server.lengths ==> streaming && |bytes| <= 1048576 + server.largest - 1
    }

    /** The size is unknown or right; a whole reply without a Content-Length counts as an empty file. */
    ghost predicate SizeOk()
      reads this
    {
      && (size.Some? ==> size.value == |file| || size.value == 0)
      && (server.reliable && size.Some? ==> size.value == if streaming && !server.lengths then 0 else |file|)
      && (streaming ==> size.Some?)
    }

    constructor (file: Bytes, server: Server)
      requires server.largest > 0
      ensures Valid() && this.file == file && this.server == server && bytes == [] && !streaming
      ensures wanted == 0 && failedAt.None? && requests == 0
    {
      this.file, this.server := file, server;
      bytes, size, requests, streaming, wanted, failedAt, faults := [], None, 0, false, 0, None, 0;
    }

    /** The network answers a range request. */
    method Ask(from: nat, target: nat) returns (reply: Reply)
      requires from <= |file| && from < target
      modifies `faults
      ensures Faithful(server, file, from, target, reply) && faults == old(faults) + if reply.Refused? then 1 else 0
    {
      reply := *;
      if !Faithful(server, file, from, target, reply) {
        if !server.reliable || (server.ranges && from == |file|) {
          reply := Refused;
        } else if server.ranges {
          reply := Partial(file[from..Least(target, |file|)], None);
        } else {
          reply := Whole(if server.lengths then Some(|file|) else None);
        }
      }
      faults := faults + if reply.Refused? then 1 else 0;
    }

    /** The next piece of the stream. */
    method NextPiece() returns (piece: Piece)
      requires bytes <= file && server.largest > 0
      modifies `faults
      ensures InOrder(server, file, |bytes|, piece) && faults == old(faults) + if piece.Broken? then 1 else 0
    {
      piece := *;
      if !InOrder(server, file, |bytes|, piece) {
        piece := if |bytes| < |file| then Next(file[|bytes|..|bytes| + 1]) else Done;
      }
      faults := faults + if piece.Broken? then 1 else 0;
    }

    /** Takes pieces until there is enough, or the stream ends or breaks. */
    method Pump(target: nat) returns (ok: bool)
      requires bytes <= file && server.largest > 0
      modifies `bytes, `faults
      ensures old(bytes) <= bytes <= file && (ok <==> faults == old(faults))
      ensures |bytes| <= Most(|old(bytes)|, target + server.largest - 1)
      ensures server.reliable ==> ok && |bytes| >= Least(target, |file|)
    {
      while |bytes| < target
        invariant old(bytes) <= bytes <= file && faults == old(faults)
        invariant |bytes| <= Most(|old(bytes)|, target + server.largest - 1)
        decreases |file| - |bytes|
      {
        var piece := NextPiece();
        match piece {
          case Broken => return false;
          case Done => break;
          case Next(more) =>
            Extends(file, bytes, more);
            bytes := bytes + more;
        }
      }
      ok := true;
    }

    /** One range request; a whole reply to the first one is read as a stream from then on. */
    method FetchRange(target: nat) returns (ok: bool)
      requires Shape() && !streaming && |bytes| < target
      modifies `bytes, `size, `requests, `streaming, `faults
      ensures old(bytes) <= bytes <= file && requests == old(requests) + 1
      ensures SizeOk() && (streaming ==> !server.ranges || !server.reliable)
      ensures !streaming ==> |bytes| <= Most(|old(bytes)|, target)
      ensures streaming ==> |bytes| <= target + server.largest - 1
      ensures ok ==> faults == old(faults)
      ensures !server.ranges && server.reliable ==> streaming
      ensures server.reliable ==> (ok <==> !server.ranges || |old(bytes)| < |file|)
      ensures server.reliable && ok ==> |bytes| >= Least(target, |file|)
    {
      var from := |bytes|;
      var reply := Ask(from, target);
      requests := requests + 1;
      match reply
      case Partial(body, total) =>
        if total.Some? {
          size := total;
        }
        Extends(file, bytes, body);
        bytes := bytes + body;
        ok := true;
      case Whole(length) =>
        size := Some(if length.Some? then length.value else 0);
        if from != 0 {
          return false;
        }
        streaming := true;
        ok := Pump(target);
      case Refused =>
        ok := false;
    }

    /** Fetches at least up to `end`, doubling what is there, but not past a known size. */
    method Grow(end: nat) returns (ok: bool)
      requires Shape() && |bytes| < end
      modifies `bytes, `size, `requests, `streaming, `faults
      ensures Shape() && old(bytes) <= bytes && (old(streaming) ==> streaming)
      ensures ok ==> end <= |bytes| && faults == old(faults)
      ensures server.reliable ==> (ok <==> end <= |file| && (!old(streaming) || server.lengths))
      ensures server.reliable && !ok ==> |bytes| < end
      ensures old(Settled()) || end <= FIRST_READ ==> Settled()
      ensures |bytes| <= Most(|old(bytes)|, Bound(end) + (if streaming then server.largest - 1 else 0))
      ensures server.ranges && server.reliable && ok ==>
        requests == old(requests) + 1 && |bytes| >= Least(Most(FIRST_READ, 2 * |old(bytes)|), |file|)
    {
      hide Faithful, InOrder;
      var target := Most(Most(end, FIRST_READ), |bytes| * 2);
      if size.Some? {
        target := Least(target, size.value);
      }
      if target < end {
        return false;
      }
      if !streaming {
        ok := FetchRange(target);
      } else {
        ok := Pump(target);
      }
      if ok && |bytes| < end {
        ok := false;
      }
    }

    /**
      Makes sure that the first `end` bytes are there. A reliable server gives them exactly when they
      are there already, or when the end is within the file and the limit, and either ranges still work
      or the stream was announced with its length.
     */
    method Ensure(end: nat) returns (ok: bool)
      requires Valid()
      modifies this
      ensures Valid() && old(bytes) <= bytes && wanted == Most(old(wanted), end)
      ensures ok ==> end <= |bytes| && failedAt == old(failedAt) && faults == old(faults)
      ensures !ok ==> failedAt == Some(end)
      ensures server.reliable ==>
        (ok <==> end <= |old(bytes)| || (end <= 536870912 && end <= |file| && (!old(streaming) || server.lengths)))
      ensures server.reliable && !ok ==> |bytes| < end
      ensures old(Settled()) || (old(wanted) == 0 && 0 < end <= FIRST_READ) ==> Settled()
    {
      hide Few, Pow2;
      ghost var before, had, have := wanted, requests, |bytes|;
      if server.ranges && server.reliable && failedAt.None? {
        FewWants(requests, |bytes|, |file|, wanted, end);
      }
      wanted := Most(wanted, end);
      if end <= |bytes| {
        return true;
      }
      if end > MAX_READ {
        failedAt := Some(end);
        return false;
      }
      ok := Grow(end);
      if !ok {
        failedAt := Some(end);
        return false;
      }
      if server.ranges && server.reliable && failedAt.None? {
        FewMore(had, have, |file|, before, end, |bytes|);
      }
    }
  }

  lemma Extends(file: Bytes, bytes: Bytes, more: Bytes)
    requires bytes <= file && |bytes| <= |file| && more <= file[|bytes|..]
    ensures bytes + more <= file
  {
    assert file == file[..|bytes|] + file[|bytes|..];
  }

  /** A file on the disk, read in pieces; a reliable disk gives every byte up to the end asked for. */
  class FileSource {
    const file: Bytes
    const reliable: bool
    var bytes: Bytes
    var requests: nat
    ghost var wanted: nat
    ghost var failedAt: Option<nat>
    /** How many reads have failed. */
    ghost var faults: nat

    ghost predicate Valid()
      reads this
    {
      && bytes <= file && |bytes| <= Bound(wanted) && (requests == 0 ==> bytes == [])
      && (reliable && failedAt.None? ==> Few(requests, |bytes|, |file|, wanted))
    }

    constructor (file: Bytes, reliable: bool)
      ensures Valid() && this.file == file && this.reliable == reliable && bytes == []
      ensures wanted == 0 && failedAt.None? && requests == 0
    {
      this.file, this.reliable := file, reliable;
      bytes, requests, wanted, failedAt, faults := [], 0, 0, None, 0;
    }

    /** The next piece of the file between `at` and `target`; an unreliable disk may stop early. */
    method NextPiece(at: nat, target: nat) returns (piece: Piece)
      requires at < target <= |file|
      modifies `faults
      ensures faults == old(faults) + if piece.Broken? then 1 else 0
      ensures piece.Next? ==> piece.bytes != [] && piece.bytes <= file[at..target]
      ensures reliable ==> piece.Next?
    {
      piece := *;
      if !(piece.Next? && piece.bytes != [] && piece.bytes <= file[at..target]) {
        piece := if reliable || piece.Next? then Next(file[at..at + 1]) else piece;
      }
      faults := faults + if piece.Broken? then 1 else 0;
    }

    /** The bytes up to `target`, piece by piece; the file may end early, and reading may fail. */
    method ReadUpTo(target: nat) returns (ok: bool, merged: Bytes)
      requires bytes <= file && |bytes| <= target <= |file|
      modifies `faults
      ensures (ok <==> faults == old(faults)) && bytes <= merged <= file && |merged| <= target && (reliable ==> ok && |merged| == target)
    {
      merged := bytes;
      var stopped := false;
      while |merged| < target && !stopped
        invariant bytes <= merged <= file && |merged| <= target && (reliable ==> !stopped) && faults == old(faults)
        decreases target - |merged|, !stopped
      {
        var piece := NextPiece(|merged|, target);
        if piece.Broken? {
          return false, merged;
        }
        if piece.Done? {
          stopped := true;
        } else {
          assert piece.bytes <= file[|merged|..] by {
            PrefixOf(file, |merged|, target, piece.bytes);
          }
          Extends(file, merged, piece.bytes);
          merged := merged + piece.bytes;
        }
      }
      ok := true;
    }

    method Ensure(end: nat) returns (ok: bool)
      requires Valid()
      modifies this
      ensures Valid() && old(bytes) <= bytes && wanted == Most(old(wanted), end)
      ensures ok ==> end <= |bytes| && failedAt == old(failedAt) && faults == old(faults)
      ensures !ok ==> failedAt == Some(end)
      ensures reliable ==> (ok <==> end <= |old(bytes)| || (end <= 536870912 && end <= |file|))
      ensures reliable && !ok ==> |bytes| < end
    {
      hide Few, Pow2;
      ghost var before, had, have := wanted, requests, |bytes|;
      if reliable && failedAt.None? {
        FewWants(requests, |bytes|, |file|, wanted, end);
      }
      wanted := Most(wanted, end);
      if end <= |bytes| {
        return true;
      }
      if end > MAX_READ {
        failedAt := Some(end);
        return false;
      }
      var target := Least(Most(Most(end, FIRST_READ), |bytes| * 2), |file|);
      if target < end {
        failedAt := Some(end);
        return false;
      }
      var whole, merged := ReadUpTo(target);
      if !whole {
        failedAt := Some(end);
        return false;
      }
      requests := requests + 1;
      bytes := merged;
      ok := |bytes| >= end;
      if !ok {
        failedAt := Some(end);
      } else if reliable && failedAt.None? {
        FewMore(had, have, |file|, before, end, |bytes|);
      }
    }
  }

  lemma PrefixOf(file: Bytes, from: nat, to: nat, piece: Bytes)
    requires from <= to <= |file| && piece <= file[from..to]
    ensures piece <= file[from..]
  {
    assert file[from..to] == file[from..][..to - from];
  }

  // ----- either of them -----

  datatype Source = Http(http: HttpSource) | Disk(disk: FileSource) {
    function Object(): object { match this case Http(h) => h case Disk(d) => d }

    function File(): Bytes { match this case Http(h) => h.file case Disk(d) => d.file }

    ghost function Wanted(): nat
      reads Object()
    {
      match this case Http(h) => h.wanted case Disk(d) => d.wanted
    }

    ghost function FailedAt(): Option<nat>
      reads Object()
    {
      match this case Http(h) => h.failedAt case Disk(d) => d.failedAt
    }

    ghost predicate Valid()
      reads Object()
    {
      match this case Http(h) => h.Valid() case Disk(d) => d.Valid()
    }

    function Held(): Bytes
      reads Object()
    {
      match this case Http(h) => h.bytes case Disk(d) => d.bytes
    }

    ghost predicate Settled()
      reads Object()
    {
      match this case Http(h) => h.Settled() case Disk(d) => true
    }

    predicate Reliable() {
      match this case Http(h) => h.server.reliable case Disk(d) => d.reliable
    }

    /** Whether every end up to `end` is sure to be given: a stream without a length only up to the first read. */
    predicate Serves(end: nat) {
      && end <= |File()| && end <= MAX_READ
      && (match this
          case Http(h) => h.server.reliable && (h.server.ranges || h.server.lengths || end <= FIRST_READ)
          case Disk(d) => d.reliable)
    }

    method Ensure(end: nat) returns (ok: bool)
      requires Valid()
      modifies Object()
      ensures Valid() && Wanted() == Most(old(Wanted()), end)
      ensures ok ==> end <= |Held()| && Held() <= File() && FailedAt() == old(FailedAt())
      ensures !ok ==> FailedAt() == Some(end) && !Serves(end) && (Reliable() ==> |Held()| < end)
      ensures |old(Held())| <= |Held()| && (old(Settled()) || (old(Wanted()) == 0 && 0 < end <= FIRST_READ) ==> Settled())
    {
      match this {
        case Http(h) => ok := h.Ensure(end);
        case Disk(d) => ok := d.Ensure(end);
      }
    }
  }

  /**
    The stream case that does not work: without ranges and without a Content-Length, a header that is
    longer than the first read fails, although the server sends the whole file.
   */
  method StreamWithoutLengthIsCutShort(file: Bytes) returns (first: bool, second: bool)
    requires FIRST_READ < |file| <= MAX_READ
    ensures first && !second
  {
    var source := new HttpSource(file, Server(false, false, true, 1));
    first := source.Ensure(4);
    assert source.streaming;
    second := source.Ensure(|file|);
  }
}
