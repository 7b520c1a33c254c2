/**
  The development server's Range requests (section 14.1.2 of RFC 9110): parsing the header, copying the
  bytes, and the reply as the header reader's HTTP source sees it.

  A header is a string of characters up to U+00FF, as the HTTP layer decodes it.
 */
module RangeServer {
  import opened Arith
  import opened Option
  import opened GgufFormat
  import opened ByteSource

  const COPY_CHUNK: nat := 256 * 1024

  // ----- reading numbers -----

  /** White space around a header value; around a number, the separators U+001C to U+001F are none. */
  predicate Space(c: char, number: bool) {
    var n := c as int;
    (9 <= n <= 13) || n == 32 || n == 0x85 || n == 0xA0 || (28 <= n <= 31 && !number)
  }

  predicate Digit(c: char) { '0' <= c <= '9' }

  function DigitValue(c: char): nat
    requires Digit(c)
  {
    c as int - '0' as int
  }

  function StripLeft(s: string, number: bool): string {
    if s != "" && Space(s[0], number) then StripLeft(s[1..], number) else s
  }

  function StripRight(s: string, number: bool): string {
    if s != "" && Space(s[|s| - 1], number) then StripRight(s[..|s| - 1], number) else s
  }

  function Strip(s: string, number: bool): string { StripRight(StripLeft(s, number), number) }

  /** Decimal digits, with at most one underscore between two of them. */
  function Digits(s: string): Option<nat>
    decreases |s|
  {
    if s == "" || !Digit(s[|s| - 1]) then None
    else
      var d := DigitValue(s[|s| - 1]);
      if |s| == 1 then Some(d)
      else
        match Digits(if s[|s| - 2] == '_' then s[..|s| - 2] else s[..|s| - 1])
        case None => None
        case Some(n) => Some(10 * n + d)
  }

  /** A number as Python's `int` reads it: spaces around, one sign, decimal digits. */
  function PyInt(s: string): Option<int> {
    var t := Strip(s, true);
    if t == "" then None
    else if t[0] == '-' then match Digits(t[1..]) case None => None case Some(n) => Some(-(n as int))
    else match Digits(if t[0] == '+' then t[1..] else t) case None => None case Some(n) => Some(n)
  }

  // ----- the Range header -----

  datatype Range = Ignore | Unsatisfiable | Satisfied(start: nat, end: nat)

  function Max0(x: int): nat { if x < 0 then 0 else x }

  /** Where a character first is, or the length. */
  function Find(s: string, c: char): (i: nat)
    ensures i <= |s| && (i < |s| ==> s[i] == c) && forall k :: 0 <= k < i ==> s[k] != c
  {
    if s == "" || s[0] == c then 0 else 1 + Find(s[1..], c)
  }

  function Clamp(start: int, end: int, size: nat): Range {
    if start >= size || start < 0 || end < start then Unsatisfiable
    else Satisfied(start, if end < size then end else size - 1)
  }

  const PREFIX: string := "bytes="

  function ParseByteRange(value: string, size: nat): Range {
    if !(PREFIX <= value) then Ignore
    else
      var spec := Strip(value[|PREFIX|..], false);
      var dash := Find(spec, '-');
      if ',' in spec || dash == |spec| then Ignore
      else
        var first, last := spec[..dash], spec[dash + 1..];
        if first == "" then
          match PyInt(last)
          case None => Ignore
          case Some(length) => if length <= 0 then Unsatisfiable else Clamp(Max0(size - length), size - 1, size)
        else
          match PyInt(first)
          case None => Ignore
          case Some(start) =>
            if last == "" then Clamp(start, size - 1, size)
            else match PyInt(last) case None => Ignore case Some(end) => Clamp(start, end, size)
  }

  // ----- what is printed is parsed back -----

  function DigitChar(d: nat): (c: char)
    requires d < 10
    ensures Digit(c) && DigitValue(c) == d
  {
    (d + '0' as int) as char
  }

  function Decimal(n: nat): (s: string)
    ensures s != "" && forall i :: 0 <= i < |s| ==> Digit(s[i])
  {
    if n < 10 then [DigitChar(n)] else Decimal(n / 10) + [DigitChar(n % 10)]
  }

  lemma {:induction false} DecimalRound(n: nat)
    ensures Digits(Decimal(n)) == Some(n)
  {
    if n >= 10 {
      DecimalRound(n / 10);
      var head := Decimal(n / 10);
      assert Decimal(n)[..|Decimal(n)| - 1] == head;
      assert Digit(head[|head| - 1]);
    }
  }

  /** No space, sign, dash or comma. */
  ghost predicate Plain(s: string) { s != "" && forall i :: 0 <= i < |s| ==> Digit(s[i]) || s[i] == '-' }

  lemma StripPlain(s: string, number: bool)
    requires Plain(s)
    ensures Strip(s, number) == s
  {
  }

  lemma PyIntDecimal(n: nat)
    ensures PyInt(Decimal(n)) == Some(n)
  {
    DecimalRound(n);
    StripPlain(Decimal(n), true);
    assert Digit(Decimal(n)[0]);
  }

  lemma FindIs(s: string, c: char, k: nat)
    requires k < |s| && s[k] == c && forall i :: 0 <= i < k ==> s[i] != c
    ensures Find(s, c) == k
  {
  }

  lemma FindDash(a: string, b: string)
    requires forall i :: 0 <= i < |a| ==> a[i] != '-'
    ensures Find(a + "-" + b, '-') == |a|
  {
    var s := a + "-" + b;
    assert s[|a|] == '-' && forall i :: 0 <= i < |a| ==> s[i] == a[i];
    FindIs(s, '-', |a|);
  }

  lemma AfterPrefix(spec: string)
    ensures PREFIX <= PREFIX + spec && (PREFIX + spec)[|PREFIX|..] == spec
  {
  }

  /** The header a client prints for the bytes from `begin` up to but not including `end`. */
  function RangeRequest(begin: nat, end: nat): string
    requires begin < end
  {
    PREFIX + (Decimal(begin) + "-" + Decimal(end - 1))
  }

  /** `bytes=A-B` asks for A to B, cut at the end of the file; backwards, it is refused and not ignored. */
  lemma NumberedRange(a: nat, b: nat, size: nat)
    ensures ParseByteRange(PREFIX + (Decimal(a) + "-" + Decimal(b)), size) ==
            if a < size && a <= b then Satisfied(a, Least(b + 1, size) - 1) else Unsatisfiable
  {
    hide Digits, Decimal, Strip, PyInt, Find;
    var first, last := Decimal(a), Decimal(b);
    var spec := first + "-" + last;
    AfterPrefix(spec);
    StripPlain(spec, false);
    FindDash(first, last);
    assert spec[..|first|] == first && spec[|first| + 1..] == last;
    PyIntDecimal(a);
    PyIntDecimal(b);
    assert ',' !in spec;
  }

  /** A printed request is parsed to its range, cut at the end of the file. */
  lemma RequestRoundTrip(begin: nat, end: nat, size: nat)
    requires begin < end
    ensures ParseByteRange(RangeRequest(begin, end), size) ==
            if begin < size then Satisfied(begin, Least(end, size) - 1) else Unsatisfiable
  {
    hide ParseByteRange, Decimal;
    NumberedRange(begin, end - 1, size);
  }

  /** `bytes=N-` asks for everything from N on. */
  lemma OpenRange(begin: nat, size: nat)
    ensures ParseByteRange(PREFIX + (Decimal(begin) + "-"), size) ==
            if begin < size then Satisfied(begin, size - 1) else Unsatisfiable
  {
    hide Digits, Decimal, Strip, PyInt, Find;
    var first := Decimal(begin);
    var spec := first + "-";
    AfterPrefix(spec);
    StripPlain(spec, false);
    FindDash(first, "");
    assert first + "-" + "" == spec;
    assert spec[..|first|] == first && spec[|first| + 1..] == "";
    PyIntDecimal(begin);
    assert ',' !in spec;
  }

  /** `bytes=-N` asks for the last N bytes, or for all of a shorter file. */
  lemma SuffixRange(length: nat, size: nat)
    ensures ParseByteRange(PREFIX + ("-" + Decimal(length)), size) ==
            if length == 0 || size == 0 then Unsatisfiable else Satisfied(Max0(size - length), size - 1)
  {
    hide Digits, Decimal, Strip, PyInt, Find;
    var last := Decimal(length);
    var spec := "-" + last;
    AfterPrefix(spec);
    StripPlain(spec, false);
    FindDash("", last);
    assert "" + "-" + last == spec;
    assert spec[..0] == "" && spec[1..] == last;
    PyIntDecimal(length);
    assert ',' !in spec;
  }

  /** Whatever the header says, what is served lies within the file. */
  lemma RangeInFile(value: string, size: nat)
    ensures var r := ParseByteRange(value, size); r.Satisfied? ==> r.start <= r.end < size
  {
  }

  // ----- copying -----

  class Stream {
    const file: Bytes
    var pos: nat

    constructor (file: Bytes, pos: nat)
      ensures this.file == file && this.pos == pos
    {
      this.file, this.pos := file, pos;
    }

    /** Some bytes, at most `n`; none only at the end of the file. */
    method Read(n: nat) returns (chunk: Bytes)
      requires pos <= |file|
      modifies this
      ensures old(pos) <= pos <= |file| && pos - old(pos) <= n && chunk == file[old(pos)..pos]
      ensures chunk == [] <==> n == 0 || old(pos) == |file|
    {
      var most := Least(n, |file| - pos);
      var wish: int := *;
      var count := if 0 < wish < most then wish else most;
      chunk := file[pos..pos + count];
      pos := pos + count;
    }
  }

  /** Copies `count` bytes in chunks, however short the reads are. */
  method CopyFile(source: Stream, count: nat) returns (output: Bytes)
    requires source.pos <= |source.file|
    modifies source
    ensures output == source.file[old(source.pos)..Least(old(source.pos) + count, |source.file|)]
  {
    output := [];
    var remaining := count;
    while remaining > 0
      invariant 0 <= remaining <= count && source.pos == old(source.pos) + (count - remaining) <= |source.file|
      invariant output == source.file[old(source.pos)..source.pos]
      decreases remaining
    {
      var chunk := source.Read(Least(COPY_CHUNK, remaining));
      if chunk == [] {
        break;
      }
      output := output + chunk;
      remaining := remaining - |chunk|;
    }
  }

  // ----- the reply -----

  datatype Response = Response(status: nat, contentRange: string, contentLength: nat, body: Bytes)

  function ContentRange(start: nat, end: nat, size: nat): string {
    "bytes " + Decimal(start) + "-" + Decimal(end) + "/" + Decimal(size)
  }

  /** The reply to a request for a file, with its Range header or without. */
  method Serve(file: Bytes, rawRange: string) returns (r: Response)
    ensures r.contentLength == |r.body|
    ensures match (if rawRange == "" then Ignore else ParseByteRange(rawRange, |file|))
            case Ignore => r.status == 200 && r.body == file && r.contentRange == ""
            case Unsatisfiable => r.status == 416 && r.body == [] && r.contentRange == "bytes */" + Decimal(|file|)
            case Satisfied(start, end) =>
              r.status == 206 && start <= end < |file| && r.body == file[start..end + 1] && r.contentRange == ContentRange(start, end, |file|)
  {
    hide ParseByteRange, Decimal;
    if rawRange == "" {
      return Response(200, "", |file|, file);
    }
    var parsed := ParseByteRange(rawRange, |file|);
    RangeInFile(rawRange, |file|);
    match parsed
    case Ignore => return Response(200, "", |file|, file);
    case Unsatisfiable => return Response(416, "bytes */" + Decimal(|file|), 0, []);
    case Satisfied(start, end) =>
      var stream := new Stream(file, start);
      var rangeRemaining := end - start + 1;
      var body := CopyFile(stream, rangeRemaining);
      return Response(206, ContentRange(start, end, |file|), rangeRemaining, body);
  }

  // ----- the header reader against this server -----

  /** What the client reads behind the slash of a Content-Range. */
  function TotalOf(contentRange: string): Option<nat> {
    var slash := Find(contentRange, '/');
    if slash == |contentRange| then None else Digits(contentRange[slash + 1..])
  }

  lemma TotalRound(start: nat, end: nat, size: nat)
    ensures TotalOf(ContentRange(start, end, size)) == Some(size)
  {
    hide Digits, Decimal;
    DecimalRound(size);
    var head := "bytes " + Decimal(start) + "-" + Decimal(end);
    var whole := head + "/" + Decimal(size);
    assert forall i :: 0 <= i < |head| ==> head[i] != '/';
    assert whole[|head|] == '/' && forall i :: 0 <= i < |head| ==> whole[i] == head[i];
    FindIs(whole, '/', |head|);
    assert whole[|head| + 1..] == Decimal(size);
  }

  /** A client's range request to this server: always answered, and in full. */
  method AskServer(file: Bytes, from: nat, target: nat) returns (reply: Reply)
    requires from <= |file| && from < target
    ensures Faithful(Server(true, true, true, 1), file, from, target, reply)
    ensures from < |file| ==> reply == Partial(file[from..Least(target, |file|)], Some(|file|))
  {
    hide ParseByteRange, TotalOf, ContentRange;
    RequestRoundTrip(from, target, |file|);
    var request := RangeRequest(from, target);
    var r := Serve(file, request);
    if r.status == 206 {
      TotalRound(from, Least(target, |file|) - 1, |file|);
      reply := Partial(r.body, TotalOf(r.contentRange));
    } else {
      reply := Refused;
    }
  }

  /**
    Asking for one range after another, from where the last one ended, gives the file back, whatever the
    ends asked for.
   */
  method Reassemble(file: Bytes, targets: seq<nat>) returns (bytes: Bytes)
    ensures bytes <= file
    ensures forall i :: 0 <= i < |targets| ==> |bytes| >= Least(targets[i], |file|)
  {
    bytes := [];
    for i := 0 to |targets|
      invariant bytes <= file && forall k :: 0 <= k < i ==> |bytes| >= Least(targets[k], |file|)
    {
      if |bytes| < targets[i] && |bytes| < |file| {
        var reply := AskServer(file, |bytes|, targets[i]);
        assert file[..|bytes|] + reply.body == file[..|bytes| + |reply.body|];
        bytes := bytes + reply.body;
      }
    }
  }
}
