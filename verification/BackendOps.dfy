/**
  The judge of the backend-ops run: it counts test cases as output arrives and passes only a run that
  is complete and clean.

  What a line is, is left to a classifier.
 */
module BackendOps {
  import opened Arith
  import opened Option

  datatype Status = StatusOk | StatusFail | NotSupported | Skipped | Unclear

  datatype Line = SectionLine(name: string) | SelfReported | CaseLine(status: Status) | OtherLine

  datatype Counts = Counts(ok: nat, fail: nat, notSupported: nat, skipped: nat, unclear: nat) {
    function Total(): nat { ok + fail + notSupported + skipped + unclear }

    function Add(status: Status): (c: Counts)
      ensures c.Total() == Total() + 1
    {
      match status
      case StatusOk => this.(ok := ok + 1)
      case StatusFail => this.(fail := fail + 1)
      case NotSupported => this.(notSupported := notSupported + 1)
      case Skipped => this.(skipped := skipped + 1)
      case Unclear => this.(unclear := unclear + 1)
    }

    /** At least as many of each. */
    predicate Within(c: Counts) {
      ok <= c.ok && fail <= c.fail && notSupported <= c.notSupported && skipped <= c.skipped && unclear <= c.unclear
    }
  }

  const NONE: Counts := Counts(0, 0, 0, 0, 0)

  datatype Section = Section(name: string, counts: Counts)

  /** Cases go to the last section; before the first one they are orphans. */
  datatype State = State(sections: seq<Section>, orphans: Counts, selfReported: nat, carry: string)

  const START: State := State([], NONE, 0, "")

  type Classifier = string -> Line

  function OnLine(classify: Classifier, s: State, text: string): State {
    match classify(text)
    case SectionLine(name) => s.(sections := s.sections + [Section(name, NONE)])
    case SelfReported => s.(selfReported := s.selfReported + 1)
    case CaseLine(status) =>
      if s.sections == [] then s.(orphans := s.orphans.Add(status))
      else
        var last := |s.sections| - 1;
        s.(sections := s.sections[last := s.sections[last].(counts := s.sections[last].counts.Add(status))])
    case OtherLine => s
  }

  // ----- lines of a text -----

  /** The whole lines of a text, and what is behind the last newline. */
  function Lines(text: string): (lines: seq<string>) {
    if text == "" then []
    else
      var init, last := text[..|text| - 1], text[|text| - 1];
      if last == '\n' then Lines(init) + [Tail(init)] else Lines(init)
  }

  function Tail(text: string): string {
    if text == "" then ""
    else
      var init, last := text[..|text| - 1], text[|text| - 1];
      if last == '\n' then "" else Tail(init) + [last]
  }

  function OnLines(classify: Classifier, s: State, lines: seq<string>): State {
    if lines == [] then s else OnLine(classify, OnLines(classify, s, lines[..|lines| - 1]), lines[|lines| - 1])
  }

  /** Taking in a slice of the output. */
  function Feed(classify: Classifier, s: State, chunk: string): State {
    var text := s.carry + chunk;
    OnLines(classify, s, Lines(text)).(carry := Tail(text))
  }

  /** The end of the output: a last line without its newline counts. */
  function Flush(classify: Classifier, s: State): State {
    if s.carry == "" then s else OnLine(classify, s, s.carry).(carry := "")
  }

  function Concat(chunks: seq<string>): string {
    if chunks == [] then "" else Concat(chunks[..|chunks| - 1]) + chunks[|chunks| - 1]
  }

  function FeedAll(classify: Classifier, s: State, chunks: seq<string>): State {
    if chunks == [] then s else Feed(classify, FeedAll(classify, s, chunks[..|chunks| - 1]), chunks[|chunks| - 1])
  }

  // ----- slicing does not matter -----

  lemma {:induction false} TailConcat(a: string, b: string)
    ensures Tail(a + b) == Tail(Tail(a) + b)
  {
    if b == "" {
      assert a + b == a && Tail(a) + b == Tail(a);
      TailHasNoLines(a);
    } else {
      var init := b[..|b| - 1];
      TailConcat(a, init);
      assert (a + b)[..|a + b| - 1] == a + init;
      assert (Tail(a) + b)[..|Tail(a) + b| - 1] == Tail(a) + init;
    }
  }

  lemma {:induction false} LinesConcat(a: string, b: string)
    ensures Lines(a + b) == Lines(a) + Lines(Tail(a) + b)
  {
    hide Tail;
    if b == "" {
      assert a + b == a && Tail(a) + b == Tail(a);
      TailHasNoLines(a);
    } else {
      var init := b[..|b| - 1];
      LinesConcat(a, init);
      TailConcat(a, init);
      assert (a + b)[..|a + b| - 1] == a + init;
      assert (Tail(a) + b)[..|Tail(a) + b| - 1] == Tail(a) + init;
    }
  }

  lemma {:induction false} TailHasNoLines(a: string)
    ensures Lines(Tail(a)) == [] && Tail(Tail(a)) == Tail(a)
  {
    if a != "" {
      var init, last := a[..|a| - 1], a[|a| - 1];
      TailHasNoLines(init);
      if last != '\n' {
        assert (Tail(init) + [last])[..|Tail(init)|] == Tail(init);
      }
    }
  }

  lemma {:induction false} OnLinesConcat(classify: Classifier, s: State, a: seq<string>, b: seq<string>)
    ensures OnLines(classify, s, a + b) == OnLines(classify, OnLines(classify, s, a), b)
  {
    hide OnLine;
    if b == [] {
      assert a + b == a;
    } else {
      assert (a + b)[..|a + b| - 1] == a + b[..|b| - 1];
      OnLinesConcat(classify, s, a, b[..|b| - 1]);
    }
  }

  lemma CarryStays(classify: Classifier, s: State, carry: string, text: string)
    ensures OnLine(classify, s.(carry := carry), text) == OnLine(classify, s, text).(carry := carry)
  {
  }

  lemma {:induction false} CarryIsLeftAlone(classify: Classifier, s: State, carry: string, lines: seq<string>)
    ensures OnLines(classify, s.(carry := carry), lines) == OnLines(classify, s, lines).(carry := carry)
  {
    hide OnLine;
    if lines != [] {
      CarryIsLeftAlone(classify, s, carry, lines[..|lines| - 1]);
      CarryStays(classify, OnLines(classify, s, lines[..|lines| - 1]), carry, lines[|lines| - 1]);
    }
  }

  /** Feeding two slices is feeding them as one. */
  lemma FeedConcat(classify: Classifier, s: State, a: string, b: string)
    ensures Feed(classify, Feed(classify, s, a), b) == Feed(classify, s, a + b)
  {
    hide OnLine, Lines, Tail;
    var text := s.carry + a;
    LinesConcat(text, b);
    TailConcat(text, b);
    assert text + b == s.carry + (a + b);
    OnLinesConcat(classify, s, Lines(text), Lines(Tail(text) + b));
    CarryIsLeftAlone(classify, OnLines(classify, s, Lines(text)), Tail(text), Lines(Tail(text) + b));
  }

  /** However the output is sliced, the judge ends where it would with the whole of it. */
  lemma {:induction false} SlicingDoesNotMatter(classify: Classifier, chunks: seq<string>)
    ensures FeedAll(classify, START, chunks) == Feed(classify, START, Concat(chunks))
    ensures Flush(classify, FeedAll(classify, START, chunks)) == Flush(classify, Feed(classify, START, Concat(chunks)))
  {
    hide OnLine, Feed, Flush;
    if chunks == [] {
      FeedNothing(classify);
    } else {
      SlicingDoesNotMatter(classify, chunks[..|chunks| - 1]);
      FeedConcat(classify, START, Concat(chunks[..|chunks| - 1]), chunks[|chunks| - 1]);
    }
  }

  lemma FeedNothing(classify: Classifier)
    ensures Feed(classify, START, "") == START
  {
  }

  // ----- no case is lost -----

  function SectionTotals(sections: seq<Section>): nat {
    if sections == [] then 0 else SectionTotals(sections[..|sections| - 1]) + sections[|sections| - 1].counts.Total()
  }

  function Counted(s: State): nat { SectionTotals(s.sections) + s.orphans.Total() }

  function Cases(classify: Classifier, lines: seq<string>): nat {
    if lines == [] then 0
    else Cases(classify, lines[..|lines| - 1]) + if classify(lines[|lines| - 1]).CaseLine? then 1 else 0
  }

  lemma OnLineCounts(classify: Classifier, s: State, text: string)
    ensures Counted(OnLine(classify, s, text)) == Counted(s) + if classify(text).CaseLine? then 1 else 0
  {
  }

  lemma {:induction false} OnLinesCounts(classify: Classifier, s: State, lines: seq<string>)
    ensures Counted(OnLines(classify, s, lines)) == Counted(s) + Cases(classify, lines)
  {
    hide OnLine, Counted;
    if lines != [] {
      OnLinesCounts(classify, s, lines[..|lines| - 1]);
      OnLineCounts(classify, OnLines(classify, s, lines[..|lines| - 1]), lines[|lines| - 1]);
    }
  }

  /** All lines of the output, the last one with or without its newline. */
  function AllLines(text: string): seq<string> { Lines(text) + if Tail(text) == "" then [] else [Tail(text)] }

  lemma FlushCounts(classify: Classifier, s: State)
    ensures Counted(Flush(classify, s)) == Counted(s) + if s.carry != "" && classify(s.carry).CaseLine? then 1 else 0
  {
  }

  /** Every case line of the output is counted once, in a section or as an orphan. */
  lemma CasesAreConserved(classify: Classifier, chunks: seq<string>)
    ensures Counted(Flush(classify, FeedAll(classify, START, chunks))) == Cases(classify, AllLines(Concat(chunks)))
  {
    hide OnLine, OnLines, Lines, Tail, Cases, Counted, Feed, Flush, FeedAll, Concat;
    var text := Concat(chunks);
    SlicingDoesNotMatter(classify, chunks);
    FeedCounts(classify, text);
    FlushCounts(classify, Feed(classify, START, text));
    CasesOfAll(classify, Lines(text), Tail(text));
  }

  lemma FeedFromStart(classify: Classifier, text: string)
    ensures Feed(classify, START, text) == OnLines(classify, START, Lines(text)).(carry := Tail(text))
  {
    hide OnLine, OnLines, Lines, Tail;
    assert START.carry + text == text;
  }

  lemma CarryCountsNothing(s: State, carry: string)
    ensures Counted(s.(carry := carry)) == Counted(s)
  {
  }

  lemma StartCountsNothing()
    ensures Counted(START) == 0
  {
  }

  lemma FeedCounts(classify: Classifier, text: string)
    ensures Counted(Feed(classify, START, text)) == Cases(classify, Lines(text))
    ensures Feed(classify, START, text).carry == Tail(text)
  {
    hide *;
    FeedFromStart(classify, text);
    OnLinesCounts(classify, START, Lines(text));
    CarryCountsNothing(OnLines(classify, START, Lines(text)), Tail(text));
    StartCountsNothing();
  }

  lemma CasesOfAll(classify: Classifier, lines: seq<string>, tail: string)
    ensures Cases(classify, lines + if tail == "" then [] else [tail]) ==
            Cases(classify, lines) + if tail != "" && classify(tail).CaseLine? then 1 else 0
  {
    if tail == "" {
      assert lines + [] == lines;
    } else {
      assert (lines + [tail])[..|lines|] == lines;
    }
  }

  // ----- the verdict -----

  type Target = string -> bool

  function Targets(sections: seq<Section>, target: Target): seq<Section> {
    if sections == [] then []
    else Targets(sections[..|sections| - 1], target) + if target(sections[|sections| - 1].name) then [sections[|sections| - 1]] else []
  }

  datatype Reason =
    | NoTarget | AmbiguousTarget | OrphanCases | ExpectedUnknown | ExpectedZero
    | ObservedDiffers | OkDiffers | Has(status: Status)

  function When(b: bool, reason: Reason): seq<Reason> { if b then [reason] else [] }

  /** Everything that speaks against a pass. */
  function Reasons(s: State, expected: Option<int>, target: Target): seq<Reason> {
    var targets := Targets(s.sections, target);
    When(targets == [], NoTarget)
    + When(|targets| > 1, AmbiguousTarget)
    + When(s.orphans.Total() > 0, OrphanCases)
    + When(expected.None?, ExpectedUnknown)
    + When(expected.Some? && expected.value <= 0, ExpectedZero)
    + if |targets| == 1 && expected.Some? && expected.value > 0
      then CountReasons(targets[0].counts, expected.value) else []
  }

  function CountReasons(c: Counts, expected: int): seq<Reason> {
    When(c.Total() != expected, ObservedDiffers)
    + When(c.ok != expected, OkDiffers)
    + When(c.fail > 0, Has(StatusFail))
    + When(c.notSupported > 0, Has(NotSupported))
    + When(c.skipped > 0, Has(Skipped))
    + When(c.unclear > 0, Has(Unclear))
  }

  predicate Pass(s: State, expected: Option<int>, target: Target) { Reasons(s, expected, target) == [] }

  /** A pass is exactly one target section whose cases are as many as expected, all of them OK, and no orphans. */
  lemma PassesExactly(s: State, expected: Option<int>, target: Target)
    ensures Pass(s, expected, target) <==>
            var targets := Targets(s.sections, target);
            && expected.Some? && expected.value > 0 && s.orphans == NONE
            && |targets| == 1 && targets[0].counts == Counts(expected.value, 0, 0, 0, 0)
  {
    hide Targets, CountReasons;
    var targets := Targets(s.sections, target);
    var counted := |targets| == 1 && expected.Some? && expected.value > 0;
    if counted {
      CountsPass(targets[0].counts, expected.value);
    }
    var last := if counted then CountReasons(targets[0].counts, expected.value) else [];
    assert |Reasons(s, expected, target)| ==
           |When(targets == [], NoTarget)| + |When(|targets| > 1, AmbiguousTarget)| + |When(s.orphans.Total() > 0, OrphanCases)|
           + |When(expected.None?, ExpectedUnknown)| + |When(expected.Some? && expected.value <= 0, ExpectedZero)| + |last|;
  }

  lemma CountsPass(c: Counts, expected: int)
    requires expected > 0
    ensures CountReasons(c, expected) == [] <==> c == Counts(expected, 0, 0, 0, 0)
  {
  }

  // ----- what cannot be undone -----

  /** Sections only grow in number and in counts, and keep their names; orphans only grow. */
  ghost predicate Grows(s: State, t: State) {
    && |s.sections| <= |t.sections| && s.orphans.Within(t.orphans)
    && (forall i :: 0 <= i < |s.sections| ==>
          s.sections[i].name == t.sections[i].name && s.sections[i].counts.Within(t.sections[i].counts))
  }

  lemma {:induction false} OnLinesGrow(classify: Classifier, s: State, lines: seq<string>)
    ensures Grows(s, OnLines(classify, s, lines))
  {
    if lines != [] {
      OnLinesGrow(classify, s, lines[..|lines| - 1]);
    }
  }

  lemma FeedGrows(classify: Classifier, s: State, chunk: string)
    ensures Grows(s, Feed(classify, s, chunk)) && Grows(s, Flush(classify, s))
  {
    hide Lines, Tail;
    OnLinesGrow(classify, s, Lines(s.carry + chunk));
    OnLinesGrow(classify, s, [s.carry]);
    assert [s.carry][..0] == [];
    assert OnLines(classify, s, [s.carry]) == OnLine(classify, OnLines(classify, s, []), s.carry);
  }

  ghost predicate Bad(c: Counts, expected: int) {
    c.fail > 0 || c.notSupported > 0 || c.skipped > 0 || c.unclear > 0 || c.Total() > expected
  }

  ghost predicate TwoHits(sections: seq<Section>, target: Target) {
    exists i, j :: 0 <= i < j < |sections| && target(sections[i].name) && target(sections[j].name)
  }

  ghost predicate BadHit(sections: seq<Section>, target: Target, expected: int) {
    exists i :: 0 <= i < |sections| && target(sections[i].name) && Bad(sections[i].counts, expected)
  }

  /** Seen already: an orphan, a second target section, or in a target section a case that is not OK or too many. */
  ghost predicate Doomed(s: State, expected: Option<int>, target: Target) {
    || expected.None? || expected.value <= 0 || s.orphans.Total() > 0
    || TwoHits(s.sections, target) || BadHit(s.sections, target, expected.value)
  }

  lemma DoomGrows(s: State, t: State, expected: Option<int>, target: Target)
    requires Grows(s, t) && Doomed(s, expected, target)
    ensures Doomed(t, expected, target)
  {
  }

  lemma {:induction false} TargetIsListed(sections: seq<Section>, target: Target, i: nat)
    requires i < |sections| && target(sections[i].name)
    ensures sections[i] in Targets(sections, target)
  {
    if i < |sections| - 1 {
      TargetIsListed(sections[..|sections| - 1], target, i);
    }
  }

  lemma {:induction false} TwoTargets(sections: seq<Section>, target: Target, i: nat, j: nat)
    requires i < j < |sections| && target(sections[i].name) && target(sections[j].name)
    ensures |Targets(sections, target)| >= 2
  {
    if j < |sections| - 1 {
      TwoTargets(sections[..|sections| - 1], target, i, j);
    } else {
      TargetIsListed(sections[..j], target, i);
    }
  }

  lemma HitsAreTargets(sections: seq<Section>, target: Target, expected: int)
    ensures TwoHits(sections, target) ==> |Targets(sections, target)| >= 2
    ensures BadHit(sections, target, expected) ==> exists x :: x in Targets(sections, target) && Bad(x.counts, expected)
  {
    hide Targets, Bad;
    if i, j :| 0 <= i < j < |sections| && target(sections[i].name) && target(sections[j].name) {
      TwoTargets(sections, target, i, j);
    }
    if i :| 0 <= i < |sections| && target(sections[i].name) && Bad(sections[i].counts, expected) {
      TargetIsListed(sections, target, i);
    }
  }

  lemma OrphansFail(s: State, expected: Option<int>, target: Target)
    requires s.orphans.Total() > 0
    ensures !Pass(s, expected, target)
  {
  }

  lemma BadTargetFails(s: State, expected: Option<int>, target: Target, x: Section)
    requires expected.Some? && expected.value > 0 && x in Targets(s.sections, target) && Bad(x.counts, expected.value)
    ensures !Pass(s, expected, target)
  {
  }

  lemma HitsFail(s: State, expected: Option<int>, target: Target)
    requires expected.Some? && expected.value > 0
    ensures TwoHits(s.sections, target) || BadHit(s.sections, target, expected.value) ==> !Pass(s, expected, target)
  {
    hide *;
    PassesExactly(s, expected, target);
    HitsAreTargets(s.sections, target, expected.value);
    if BadHit(s.sections, target, expected.value) {
      var x :| x in Targets(s.sections, target) && Bad(x.counts, expected.value);
      BadTargetFails(s, expected, target, x);
    }
  }

  lemma DoomedFails(s: State, expected: Option<int>, target: Target)
    requires Doomed(s, expected, target)
    ensures !Pass(s, expected, target)
  {
    hide Pass, Targets, TwoHits, BadHit, Counts.Total;
    if expected.None? || expected.value <= 0 {
      UnknownFails(s, expected, target);
    } else if s.orphans.Total() > 0 {
      OrphansFail(s, expected, target);
    } else {
      HitsFail(s, expected, target);
    }
  }

  lemma UnknownFails(s: State, expected: Option<int>, target: Target)
    requires expected.None? || expected.value <= 0
    ensures !Pass(s, expected, target)
  {
  }

  /** Once something has gone wrong, no later output makes it a pass. */
  lemma {:induction false} NoUndoing(classify: Classifier, s: State, chunks: seq<string>, expected: Option<int>, target: Target)
    requires Doomed(s, expected, target)
    ensures Doomed(FeedAll(classify, s, chunks), expected, target)
    ensures !Pass(FeedAll(classify, s, chunks), expected, target)
    ensures !Pass(Flush(classify, FeedAll(classify, s, chunks)), expected, target)
  {
    hide Doomed, Pass, Grows, Feed, Flush;
    if chunks != [] {
      NoUndoing(classify, s, chunks[..|chunks| - 1], expected, target);
      var before := FeedAll(classify, s, chunks[..|chunks| - 1]);
      FeedGrows(classify, before, chunks[|chunks| - 1]);
      DoomGrows(before, Feed(classify, before, chunks[|chunks| - 1]), expected, target);
    }
    var after := FeedAll(classify, s, chunks);
    FeedGrows(classify, after, "");
    DoomGrows(after, Flush(classify, after), expected, target);
    DoomedFails(after, expected, target);
    DoomedFails(Flush(classify, after), expected, target);
  }

  /** What a line does to the section cases are counted in. */
  lemma LineCounts(classify: Classifier, s: State, text: string)
    requires s.sections != [] && classify(text).CaseLine?
    ensures var t, last := OnLine(classify, s, text), |s.sections| - 1;
            && t.orphans == s.orphans && |t.sections| == |s.sections| && t.sections[..last] == s.sections[..last]
            && t.sections[last].name == s.sections[last].name
            && var c, d := s.sections[last].counts, t.sections[last].counts;
            match classify(text).status
            case StatusOk => d == c.(ok := c.ok + 1)
            case StatusFail => d == c.(fail := c.fail + 1)
            case NotSupported => d == c.(notSupported := c.notSupported + 1)
            case Skipped => d == c.(skipped := c.skipped + 1)
            case Unclear => d == c.(unclear := c.unclear + 1)
  {
  }

  /** A case outside any section, a case in a target section that is not OK, or a second target section dooms the run. */
  lemma WrongLineDooms(classify: Classifier, s: State, text: string, expected: Option<int>, target: Target)
    requires match classify(text)
             case CaseLine(status) => s.sections == [] || (status != StatusOk && target(s.sections[|s.sections| - 1].name))
             case SectionLine(name) => target(name) && exists i :: 0 <= i < |s.sections| && target(s.sections[i].name)
             case _ => false
    ensures Doomed(OnLine(classify, s, text), expected, target)
  {
    var t := OnLine(classify, s, text);
    match classify(text)
    case CaseLine(status) =>
      if s.sections != [] {
        LineCounts(classify, s, text);
        var last := |s.sections| - 1;
        assert expected.Some? ==> target(t.sections[last].name) && Bad(t.sections[last].counts, expected.value);
      }
    case SectionLine(name) =>
      var i :| 0 <= i < |s.sections| && target(s.sections[i].name);
      assert target(t.sections[i].name) && target(t.sections[|s.sections|].name);
    case _ =>
  }

  // ----- how many cases to expect -----

  /** White space, other than the newline. */
  predicate White(c: char) {
    var n := c as int;
    n == 9 || 11 <= n <= 13 || n == 0x20 || n == 0xA0 || n == 0x1680 || 0x2000 <= n <= 0x200A || n == 0x2028 || n == 0x2029
    || n == 0x202F || n == 0x205F || n == 0x3000 || n == 0xFEFF
  }

  predicate Blank(line: string) { forall i :: 0 <= i < |line| ==> White(line[i]) }

  function NonBlank(lines: seq<string>): nat {
    if lines == [] then 0
    else NonBlank(lines[..|lines| - 1]) + if Blank(lines[|lines| - 1]) then 0 else 1
  }

  /** The lines of the test file that hold something. */
  function CountExpectedCases(text: string): nat { NonBlank(AllLines(text)) }

  function Written(cases: seq<string>): string {
    if cases == [] then "" else Written(cases[..|cases| - 1]) + (cases[|cases| - 1] + "\n")
  }

  lemma {:induction false} NoNewline(text: string)
    requires '\n' !in text
    ensures Lines(text) == [] && Tail(text) == text
  {
    if text != "" {
      NoNewline(text[..|text| - 1]);
      assert text == text[..|text| - 1] + [text[|text| - 1]];
    }
  }

  lemma OneLine(line: string)
    requires '\n' !in line
    ensures Lines(line + "\n") == [line] && Tail(line + "\n") == ""
  {
    NoNewline(line);
    assert (line + "\n")[..|line|] == line;
  }

  lemma OneMoreLine(before: string, line: string)
    requires '\n' !in line && Tail(before) == ""
    ensures Lines(before + (line + "\n")) == Lines(before) + [line] && Tail(before + (line + "\n")) == ""
  {
    hide Lines, Tail;
    LinesConcat(before, line + "\n");
    TailConcat(before, line + "\n");
    assert "" + (line + "\n") == line + "\n";
    OneLine(line);
  }

  lemma {:induction false} WrittenLines(cases: seq<string>)
    requires forall i :: 0 <= i < |cases| ==> '\n' !in cases[i]
    ensures Lines(Written(cases)) == cases && Tail(Written(cases)) == ""
  {
    hide Lines, Tail;
    if cases == [] {
      NoNewline("");
    } else {
      var before, last := Written(cases[..|cases| - 1]), cases[|cases| - 1];
      WrittenLines(cases[..|cases| - 1]);
      OneMoreLine(before, last);
      assert cases == cases[..|cases| - 1] + [last];
    }
  }

  lemma {:induction false} AllCount(lines: seq<string>)
    requires forall i :: 0 <= i < |lines| ==> !Blank(lines[i])
    ensures NonBlank(lines) == |lines|
  {
    if lines != [] {
      AllCount(lines[..|lines| - 1]);
    }
  }

  /** A file with one case written per line announces as many cases as were written. */
  lemma ExpectedIsWritten(cases: seq<string>)
    requires forall i :: 0 <= i < |cases| ==> '\n' !in cases[i] && !Blank(cases[i])
    ensures CountExpectedCases(Written(cases)) == |cases|
  {
    WrittenLines(cases);
    AllCount(cases);
    assert cases + [] == cases;
  }
}
