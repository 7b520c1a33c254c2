/**
  The judge's books in terms of the output alone: which line is counted where, which reasons a verdict
  lists, and how many cases a test file announces.
 */
module BackendOpsLedger {
  import opened Arith
  import opened Option
  import opened BackendOps

  // ----- where cases are counted -----

  /** How many section lines there are. */
  function Heads(classify: Classifier, lines: seq<string>): nat {
    if lines == [] then 0
    else Heads(classify, lines[..|lines| - 1]) + if classify(lines[|lines| - 1]).SectionLine? then 1 else 0
  }

  /** Line `i` is a case with this status, behind exactly `k` section lines. */
  ghost predicate CaseAt(classify: Classifier, lines: seq<string>, i: nat, k: nat, status: Status)
    requires i < |lines|
  {
    classify(lines[i]) == CaseLine(status) && Heads(classify, lines[..i]) == k
  }

  ghost function Cases(classify: Classifier, lines: seq<string>, k: nat, status: Status): set<nat> {
    set i: nat | i < |lines| && CaseAt(classify, lines, i, k, status)
  }

  ghost predicate CountsAre(classify: Classifier, lines: seq<string>, k: nat, c: Counts) {
    && c.ok == |Cases(classify, lines, k, StatusOk)| && c.fail == |Cases(classify, lines, k, StatusFail)|
    && c.notSupported == |Cases(classify, lines, k, NotSupported)| && c.skipped == |Cases(classify, lines, k, Skipped)|
    && c.unclear == |Cases(classify, lines, k, Unclear)|
  }

  ghost function SelfReports(classify: Classifier, lines: seq<string>): set<nat> {
    set i: nat | i < |lines| && classify(lines[i]) == Line.SelfReported
  }

  /** Every line is in the books: in the section of the last section line before it, or as an orphan. */
  ghost predicate InTheBooks(classify: Classifier, lines: seq<string>, s: State) {
    && |s.sections| == Heads(classify, lines) && CountsAre(classify, lines, 0, s.orphans)
    && s.selfReported == |SelfReports(classify, lines)|
    && (forall k: nat :: k < |s.sections| ==> CountsAre(classify, lines, k + 1, s.sections[k].counts))
    && (forall i: nat :: i < |lines| && classify(lines[i]).SectionLine? ==>
          Heads(classify, lines[..i]) < |s.sections| && s.sections[Heads(classify, lines[..i])].name == classify(lines[i]).name)
  }

  lemma PrefixKeeps(lines: seq<string>, line: string, i: nat)
    requires i <= |lines|
    ensures (lines + [line])[..i] == lines[..i]
  {
  }

  lemma SameCase(classify: Classifier, lines: seq<string>, line: string, i: nat, k: nat, status: Status)
    requires i <= |lines|
    ensures CaseAt(classify, lines + [line], i, k, status) <==>
              if i < |lines| then CaseAt(classify, lines, i, k, status) else classify(line) == CaseLine(status) && Heads(classify, lines) == k
  {
    PrefixKeeps(lines, line, i);
    assert lines[..|lines|] == lines;
  }

  lemma MoreCases(classify: Classifier, lines: seq<string>, line: string, k: nat, status: Status)
    ensures |Cases(classify, lines + [line], k, status)| == |Cases(classify, lines, k, status)| +
              if classify(line) == CaseLine(status) && Heads(classify, lines) == k then 1 else 0
  {
    hide Heads, CaseAt;
    forall i: nat | i <= |lines|
      ensures CaseAt(classify, lines + [line], i, k, status) <==>
                if i < |lines| then CaseAt(classify, lines, i, k, status) else classify(line) == CaseLine(status) && Heads(classify, lines) == k
    {
      SameCase(classify, lines, line, i, k, status);
    }
    OneMoreIn(Cases(classify, lines, k, status), Cases(classify, lines + [line], k, status), |lines|,
              classify(line) == CaseLine(status) && Heads(classify, lines) == k);
  }

  /** A set of numbers below `n` that may gain `n`. */
  lemma OneMoreIn(a: set<nat>, b: set<nat>, n: nat, gains: bool)
    requires n !in a && b == a + if gains then {n} else {}
    ensures |b| == |a| + if gains then 1 else 0
  {
  }

  lemma MoreReports(classify: Classifier, lines: seq<string>, line: string)
    ensures |SelfReports(classify, lines + [line])| == |SelfReports(classify, lines)| + if classify(line) == Line.SelfReported then 1 else 0
  {
    var more := lines + [line];
    assert forall i: nat :: i < |lines| ==> more[i] == lines[i];
    OneMoreIn(SelfReports(classify, lines), SelfReports(classify, more), |lines|, classify(line) == Line.SelfReported);
  }

  lemma MoreCounts(classify: Classifier, lines: seq<string>, line: string, k: nat, c: Counts)
    requires CountsAre(classify, lines, k, c)
    ensures !(classify(line).CaseLine? && Heads(classify, lines) == k) ==> CountsAre(classify, lines + [line], k, c)
    ensures classify(line).CaseLine? && Heads(classify, lines) == k ==> CountsAre(classify, lines + [line], k, c.Add(classify(line).status))
  {
    hide Heads, Cases, CaseAt;
    MoreCases(classify, lines, line, k, StatusOk);
    MoreCases(classify, lines, line, k, StatusFail);
    MoreCases(classify, lines, line, k, NotSupported);
    MoreCases(classify, lines, line, k, Skipped);
    MoreCases(classify, lines, line, k, Unclear);
  }

  lemma MoreHeads(classify: Classifier, lines: seq<string>, line: string)
    ensures Heads(classify, lines + [line]) == Heads(classify, lines) + if classify(line).SectionLine? then 1 else 0
  {
  }

  /** Behind as many heads as there are, nothing is counted yet. */
  lemma {:induction false} NothingBehind(classify: Classifier, lines: seq<string>, k: nat)
    requires k > Heads(classify, lines)
    ensures CountsAre(classify, lines, k, NONE)
  {
    forall i: nat | i < |lines|
      ensures Heads(classify, lines[..i]) != k
    {
      HeadsGrow(classify, lines, i);
    }
    assert forall status: Status :: Cases(classify, lines, k, status) == {};
  }

  lemma {:induction false} HeadsGrow(classify: Classifier, lines: seq<string>, i: nat)
    requires i <= |lines|
    ensures Heads(classify, lines[..i]) <= Heads(classify, lines)
    decreases |lines|
  {
    if i < |lines| {
      HeadsGrow(classify, lines[..|lines| - 1], i);
      assert lines[..|lines| - 1][..i] == lines[..i];
    } else {
      assert lines[..i] == lines;
    }
  }

  lemma OneMoreLine(classify: Classifier, lines: seq<string>, line: string, s: State)
    requires InTheBooks(classify, lines, s)
    ensures InTheBooks(classify, lines + [line], OnLine(classify, s, line))
  {
    hide Heads, CountsAre, SelfReports;
    var more, t := lines + [line], OnLine(classify, s, line);
    MoreHeads(classify, lines, line);
    MoreReports(classify, lines, line);
    MoreCounts(classify, lines, line, 0, s.orphans);
    forall k: nat | k < |t.sections|
      ensures CountsAre(classify, more, k + 1, t.sections[k].counts)
    {
      if k < |s.sections| {
        MoreCounts(classify, lines, line, k + 1, s.sections[k].counts);
      } else {
        NothingBehind(classify, lines, k + 1);
        MoreCounts(classify, lines, line, k + 1, NONE);
      }
    }
    forall i: nat | i < |more| && classify(more[i]).SectionLine?
      ensures Heads(classify, more[..i]) < |t.sections| && t.sections[Heads(classify, more[..i])].name == classify(more[i]).name
    {
      PrefixKeeps(lines, line, i);
      assert lines[..|lines|] == lines;
    }
  }

  lemma {:induction false} LinesInTheBooks(classify: Classifier, lines: seq<string>)
    ensures InTheBooks(classify, lines, OnLines(classify, START, lines))
  {
    if lines == [] {
      assert forall k: nat, status: Status :: Cases(classify, [], k, status) == {};
      assert SelfReports(classify, []) == {};
    } else {
      hide InTheBooks, OnLine;
      LinesInTheBooks(classify, lines[..|lines| - 1]);
      OneMoreLine(classify, lines[..|lines| - 1], lines[|lines| - 1], OnLines(classify, START, lines[..|lines| - 1]));
      assert lines == lines[..|lines| - 1] + [lines[|lines| - 1]];
    }
  }

  lemma CarryIsNoBook(classify: Classifier, lines: seq<string>, s: State, carry: string)
    ensures InTheBooks(classify, lines, s.(carry := carry)) <==> InTheBooks(classify, lines, s)
  {
  }

  /**
    However the output is sliced, at its end the books are those of its lines: as many sections as section
    lines, in order and by name, and in each, by status, the cases between its line and the next.
   */
  lemma BooksAreTheOutput(classify: Classifier, chunks: seq<string>)
    ensures InTheBooks(classify, AllLines(Concat(chunks)), Flush(classify, FeedAll(classify, START, chunks)))
  {
    hide OnLine, OnLines, Lines, Tail, InTheBooks, Feed, FeedAll, Concat;
    var text := Concat(chunks);
    SlicingDoesNotMatter(classify, chunks);
    FeedFromStart(classify, text);
    var s := OnLines(classify, START, Lines(text));
    LinesInTheBooks(classify, Lines(text));
    var tail := Tail(text);
    if tail == "" {
      assert Lines(text) + [] == Lines(text);
      CarryIsNoBook(classify, Lines(text), s, "");
    } else {
      OneMoreLine(classify, Lines(text), tail, s);
      CarryStays(classify, s, tail, tail);
      CarryIsNoBook(classify, Lines(text) + [tail], OnLine(classify, s, tail), "");
    }
  }

  // ----- lines -----

  /** A text is its lines, each ended by a newline, and the rest behind the last one. */
  lemma {:induction false} LinesAreTheText(text: string)
    ensures text == Written(Lines(text)) + Tail(text) && '\n' !in Tail(text)
    ensures forall i :: 0 <= i < |Lines(text)| ==> '\n' !in Lines(text)[i]
  {
    if text != "" {
      var init, last := text[..|text| - 1], text[|text| - 1];
      LinesAreTheText(init);
      assert text == init + [last];
      if last == '\n' {
        assert Lines(text)[..|Lines(text)| - 1] == Lines(init);
        assert Written(Lines(text)) == Written(Lines(init)) + (Tail(init) + "\n");
        assert Written(Lines(init)) + (Tail(init) + "\n") == (Written(Lines(init)) + Tail(init)) + "\n";
      } else {
        assert Written(Lines(init)) + (Tail(init) + [last]) == (Written(Lines(init)) + Tail(init)) + [last];
      }
    }
  }

  // ----- reasons -----

  /** Where the target sections are. */
  ghost function Hits(sections: seq<Section>, target: Target): set<nat> { set i: nat | i < |sections| && target(sections[i].name) }

  lemma SameHit(sections: seq<Section>, x: Section, i: nat)
    requires i <= |sections|
    ensures (sections + [x])[i] == if i < |sections| then sections[i] else x
  {
  }

  lemma MoreHits(sections: seq<Section>, x: Section, target: Target)
    ensures |Hits(sections + [x], target)| == |Hits(sections, target)| + if target(x.name) then 1 else 0
  {
    var more, before := sections + [x], Hits(sections, target);
    forall i: nat
      ensures i in Hits(more, target) <==> i in before || (i == |sections| && target(x.name))
    {
      if i <= |sections| {
        SameHit(sections, x, i);
      }
    }
    OneMoreIn(before, Hits(more, target), |sections|, target(x.name));
  }

  lemma {:induction false} TargetsAreHits(sections: seq<Section>, target: Target)
    ensures |Targets(sections, target)| == |Hits(sections, target)|
  {
    if sections == [] {
      assert Hits(sections, target) == {};
    } else {
      hide Hits;
      var n := |sections| - 1;
      TargetsAreHits(sections[..n], target);
      MoreHits(sections[..n], sections[n], target);
      assert sections == sections[..n] + [sections[n]];
    }
  }

  lemma WhenLists(b: bool, r: Reason, x: Reason)
    ensures x in When(b, r) <==> b && x == r
  {
  }

  lemma InEither(a: seq<Reason>, b: seq<Reason>, x: Reason)
    ensures x in a + b <==> x in a || x in b
  {
  }

  /** What speaks against the counts of the one target section. */
  ghost predicate SpeaksAgainst(c: Counts, expected: int, r: Reason) {
    match r
    case ObservedDiffers => c.ok + c.fail + c.notSupported + c.skipped + c.unclear != expected
    case OkDiffers => c.ok != expected
    case Has(StatusFail) => c.fail > 0
    case Has(NotSupported) => c.notSupported > 0
    case Has(Skipped) => c.skipped > 0
    case Has(Unclear) => c.unclear > 0
    case _ => false
  }

  lemma CountReasonsHold(c: Counts, expected: int, r: Reason)
    ensures r in CountReasons(c, expected) <==> SpeaksAgainst(c, expected, r)
  {
    hide When;
    var a, b := When(c.Total() != expected, ObservedDiffers), When(c.ok != expected, OkDiffers);
    var d, e := When(c.fail > 0, Has(StatusFail)), When(c.notSupported > 0, Has(NotSupported));
    var f, g := When(c.skipped > 0, Has(Skipped)), When(c.unclear > 0, Has(Unclear));
    WhenLists(c.Total() != expected, ObservedDiffers, r);
    WhenLists(c.ok != expected, OkDiffers, r);
    WhenLists(c.fail > 0, Has(StatusFail), r);
    WhenLists(c.notSupported > 0, Has(NotSupported), r);
    WhenLists(c.skipped > 0, Has(Skipped), r);
    WhenLists(c.unclear > 0, Has(Unclear), r);
    InEither(a + b + d + e + f, g, r);
    InEither(a + b + d + e, f, r);
    InEither(a + b + d, e, r);
    InEither(a + b, d, r);
    InEither(a, b, r);
  }

  /** Section `i` is the only target section. */
  ghost predicate OneHit(sections: seq<Section>, target: Target, i: nat) {
    i < |sections| && Hits(sections, target) == {i}
  }

  /** A reason is listed exactly when it holds: no target section, or several, orphans, an expectation that is
      unknown or zero, and, for the one target section under a positive one, too few or many cases, not
      all of them OK, and each kind that is not. */
  lemma ReasonsHold(s: State, expected: Option<int>, target: Target, r: Reason)
    ensures r in Reasons(s, expected, target) <==>
            var hits, o := Hits(s.sections, target), s.orphans;
            match r
            case NoTarget => hits == {}
            case AmbiguousTarget => |hits| > 1
            case OrphanCases => o.ok + o.fail + o.notSupported + o.skipped + o.unclear > 0
            case ExpectedUnknown => expected.None?
            case ExpectedZero => expected.Some? && expected.value <= 0
            case _ => exists i: nat :: OneHit(s.sections, target, i) && expected.Some? && expected.value > 0
                                       && SpeaksAgainst(s.sections[i].counts, expected.value, r)
  {
    hide Targets, When, CountReasons, Hits;
    var targets, hits := Targets(s.sections, target), Hits(s.sections, target);
    TargetsAreHits(s.sections, target);
    HitsFacts(s.sections, target);
    var counted := |targets| == 1 && expected.Some? && expected.value > 0;
    var last := if counted then CountReasons(targets[0].counts, expected.value) else [];
    BaseReasons(s, expected, target, r, last);
    if counted {
      var i := TheHit(s.sections, target);
      CountReasonsHold(targets[0].counts, expected.value, r);
      assert OneHit(s.sections, target, i);
      forall k: nat | OneHit(s.sections, target, k)
        ensures k == i
      {
        assert k in hits;
      }
    } else {
      forall k: nat | OneHit(s.sections, target, k)
        ensures |targets| == 1
      {
      }
    }
  }

  lemma HitsFacts(sections: seq<Section>, target: Target)
    ensures |Hits(sections, target)| == 0 <==> Hits(sections, target) == {}
    ensures forall i: nat :: i in Hits(sections, target) ==> i < |sections|
  {
  }

  lemma TheHit(sections: seq<Section>, target: Target) returns (i: nat)
    requires |Targets(sections, target)| == 1
    ensures i < |sections| && Hits(sections, target) == {i} && Targets(sections, target) == [sections[i]]
  {
    hide Targets;
    TargetsAreHits(sections, target);
    var hits := Hits(sections, target);
    i :| i in hits;
    assert |hits - {i}| == 0;
    TargetIsListed(sections, target, i);
  }

  lemma BaseReasons(s: State, expected: Option<int>, target: Target, r: Reason, last: seq<Reason>)
    requires var targets := Targets(s.sections, target);
             last == if |targets| == 1 && expected.Some? && expected.value > 0 then CountReasons(targets[0].counts, expected.value) else []
    ensures var targets := Targets(s.sections, target);
            r in Reasons(s, expected, target) <==>
              || (r == NoTarget && |targets| == 0) || (r == AmbiguousTarget && |targets| > 1)
              || (r == OrphanCases && s.orphans.Total() > 0) || (r == ExpectedUnknown && expected.None?)
              || (r == ExpectedZero && expected.Some? && expected.value <= 0) || r in last
  {
    hide Targets, When, CountReasons, Counts.Total;
    var targets := Targets(s.sections, target);
    var a, b := When(targets == [], NoTarget), When(|targets| > 1, AmbiguousTarget);
    var c, d := When(s.orphans.Total() > 0, OrphanCases), When(expected.None?, ExpectedUnknown);
    var e := When(expected.Some? && expected.value <= 0, ExpectedZero);
    WhenLists(targets == [], NoTarget, r);
    WhenLists(|targets| > 1, AmbiguousTarget, r);
    WhenLists(s.orphans.Total() > 0, OrphanCases, r);
    WhenLists(expected.None?, ExpectedUnknown, r);
    WhenLists(expected.Some? && expected.value <= 0, ExpectedZero, r);
    InEither(a + b + c + d + e, last, r);
    InEither(a + b + c + d, e, r);
    InEither(a + b + c, d, r);
    InEither(a + b, c, r);
    InEither(a, b, r);
  }

  // ----- how many cases to expect -----

  /** White space inside a line, by code point: ASCII controls and space, no-break space, the Unicode space
      separators, the two line separators and the byte order mark. */
  const WHITE: set<int> := {
    9, 11, 12, 13, 32, 0xA0, 0x1680, 0x2000, 0x2001, 0x2002, 0x2003, 0x2004, 0x2005, 0x2006, 0x2007, 0x2008, 0x2009, 0x200A,
    0x2028, 0x2029, 0x202F, 0x205F, 0x3000, 0xFEFF}

  lemma WhiteSpaceIs(c: char)
    ensures White(c) <==> c as int in WHITE
  {
  }

  /** The lines that hold something other than white space. */
  ghost function Filled(lines: seq<string>): set<nat> {
    set i: nat | i < |lines| && exists j :: 0 <= j < |lines[i]| && lines[i][j] as int !in WHITE
  }

  lemma {:induction false} FilledCount(lines: seq<string>)
    ensures NonBlank(lines) == |Filled(lines)|
  {
    if lines == [] {
      assert Filled(lines) == {};
    } else {
      hide Filled;
      var n := |lines| - 1;
      FilledCount(lines[..n]);
      MoreFilled(lines[..n], lines[n]);
      assert lines == lines[..n] + [lines[n]];
    }
  }

  lemma MoreFilled(lines: seq<string>, line: string)
    ensures |Filled(lines + [line])| == |Filled(lines)| + if Blank(line) then 0 else 1
  {
    hide White;
    var more := lines + [line];
    assert forall i: nat :: i < |lines| ==> more[i] == lines[i];
    forall c: char
      ensures White(c) <==> c as int in WHITE
    {
      WhiteSpaceIs(c);
    }
    OneMoreIn(Filled(lines), Filled(more), |lines|, !Blank(line));
  }

  /** A file announces as many cases as it has lines that are not blank, the last one with or without its newline. */
  lemma ExpectedIsFilledLines(lines: seq<string>, last: string)
    requires '\n' !in last && forall i :: 0 <= i < |lines| ==> '\n' !in lines[i]
    ensures CountExpectedCases(Written(lines) + last) == |Filled(lines + [last])|
  {
    hide Lines, Tail, NonBlank, Filled;
    WrittenLines(lines);
    LinesConcat(Written(lines), last);
    TailConcat(Written(lines), last);
    NoNewline(last);
    assert "" + last == last && lines + [] == lines;
    FilledCount(lines + [last]);
    FilledCount(lines);
    if last == "" {
      EmptyIsBlank(lines);
    }
  }

  lemma EmptyIsBlank(lines: seq<string>)
    ensures |Filled(lines + [""])| == |Filled(lines)|
  {
    hide Filled;
    MoreFilled(lines, "");
  }
}
