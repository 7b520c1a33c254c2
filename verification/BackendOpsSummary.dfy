/** The judge as the object that takes the output in as it arrives. */
module BackendOpsSummary {
  import opened Arith
  import opened Option
  import opened BackendOps

  class Summary {
    const expected: Option<int>
    const target: Target
    const classify: Classifier
    var sections: seq<Section>
    /** The section cases are counted in. */
    var current: Option<nat>
    var orphans: Counts
    var selfReported: nat
    var carry: string

    function View(): State
      reads this
    {
      State(sections, orphans, selfReported, carry)
    }

    predicate Valid()
      reads this
    {
      current == if sections == [] then None else Some(|sections| - 1)
    }

    constructor (expected: Option<int>, target: Target, classify: Classifier)
      ensures Valid() && View() == START
      ensures this.expected == expected && this.target == target && this.classify == classify
    {
      this.expected, this.target, this.classify := expected, target, classify;
      sections, current, orphans, selfReported, carry := [], None, NONE, 0, "";
    }

    method TakeLine(text: string)
      requires Valid()
      modifies `sections, `current, `orphans, `selfReported
      ensures Valid() && View() == OnLine(classify, old(View()), text)
    {
      match classify(text)
      case SectionLine(name) =>
        sections := sections + [Section(name, NONE)];
        current := Some(|sections| - 1);
      case SelfReported => selfReported := selfReported + 1;
      case CaseLine(status) =>
        if current.Some? {
          var i := current.value;
          sections := sections[i := sections[i].(counts := sections[i].counts.Add(status))];
        } else {
          orphans := orphans.Add(status);
        }
      case OtherLine =>
    }

    /** Takes in a slice of the output, line by line as lines become whole. */
    method Feed(chunk: string)
      requires Valid()
      modifies this
      ensures Valid() && View() == BackendOps.Feed(classify, old(View()), chunk)
    {
      hide OnLine, OnLines, Lines, Tail;
      carry := carry + chunk;
      ghost var goal := BackendOps.Feed(classify, old(View()), chunk);
      CarryIsLeftAlone(classify, old(View()), carry, Lines(carry));
      var at := IndexOfNewline(carry);
      while at < |carry|
        invariant Valid() && 0 <= at <= |carry| && '\n' !in carry[..at] && (at < |carry| ==> carry[at] == '\n')
        invariant goal == OnLines(classify, View(), Lines(carry)).(carry := Tail(carry))
        decreases |carry|
      {
        var line, rest := carry[..at], carry[at + 1..];
        FirstLine(classify, View(), line, rest);
        assert carry == line + "\n" + rest;
        TakeLine(line);
        carry := rest;
        at := IndexOfNewline(carry);
      }
      assert carry[..at] == carry;
      NoNewline(carry);
      NoLines(classify, View());
    }

    /** Takes in a last line that never got its newline. */
    method Flush()
      requires Valid()
      modifies this
      ensures Valid() && View() == BackendOps.Flush(classify, old(View()))
    {
      if |carry| > 0 {
        TakeLine(carry);
        carry := "";
      }
    }

    /** Judges what has been seen so far; `why` lists everything against a pass. */
    method Verdict() returns (pass: bool, why: seq<Reason>)
      requires Valid()
      ensures why == Reasons(View(), expected, target) && pass == Pass(View(), expected, target)
    {
      hide Targets, CountReasons, When;
      var targets := Targets(sections, target);
      var reasons := Note([], |targets| == 0, NoTarget);
      assert (targets == []) == (|targets| == 0);
      reasons := Note(reasons, |targets| > 1, AmbiguousTarget);
      reasons := Note(reasons, orphans.Total() > 0, OrphanCases);
      reasons := Note(reasons, expected.None?, ExpectedUnknown);
      reasons := Note(reasons, expected.Some? && expected.value <= 0, ExpectedZero);
      if |targets| == 1 && expected.Some? && expected.value > 0 {
        var more := CountVerdict(targets[0].counts, expected.value);
        reasons := reasons + more;
      } else {
        assert reasons + [] == reasons;
      }
      assert [] + When(targets == [], NoTarget) == When(targets == [], NoTarget);
      why := reasons;
      pass := |reasons| == 0;
    }
  }

  /** Adds a reason to the list if it applies. */
  method Note(reasons: seq<Reason>, applies: bool, reason: Reason) returns (more: seq<Reason>)
    ensures more == reasons + When(applies, reason)
  {
    more := reasons;
    if applies {
      more := more + [reason];
    }
  }

  method CountVerdict(counts: Counts, expected: int) returns (reasons: seq<Reason>)
    ensures reasons == CountReasons(counts, expected)
  {
    hide When;
    reasons := Note([], counts.Total() != expected, ObservedDiffers);
    assert [] + When(counts.Total() != expected, ObservedDiffers) == When(counts.Total() != expected, ObservedDiffers);
    reasons := Note(reasons, counts.ok != expected, OkDiffers);
    reasons := Note(reasons, counts.fail > 0, Has(StatusFail));
    reasons := Note(reasons, counts.notSupported > 0, Has(NotSupported));
    reasons := Note(reasons, counts.skipped > 0, Has(Skipped));
    reasons := Note(reasons, counts.unclear > 0, Has(Unclear));
  }

  /** Where the first newline is, or the length. */
  method IndexOfNewline(text: string) returns (at: nat)
    ensures at <= |text| && '\n' !in text[..at] && (at < |text| ==> text[at] == '\n')
  {
    at := 0;
    while at < |text| && text[at] != '\n'
      invariant at <= |text| && '\n' !in text[..at]
    {
      at := at + 1;
    }
  }

  /** Taking the first line off a text. */
  lemma FirstLine(classify: Classifier, s: State, line: string, rest: string)
    requires '\n' !in line
    ensures OnLines(classify, s, Lines(line + "\n" + rest)).(carry := Tail(line + "\n" + rest))
         == OnLines(classify, OnLine(classify, s, line).(carry := rest), Lines(rest)).(carry := Tail(rest))
  {
    hide OnLine, Lines, Tail;
    LinesConcat(line + "\n", rest);
    TailConcat(line + "\n", rest);
    OneLine(line);
    assert "" + rest == rest;
    OnLinesConcat(classify, s, [line], Lines(rest));
    assert [line][..0] == [];
    assert OnLines(classify, s, [line]) == OnLine(classify, s, line);
    CarryIsLeftAlone(classify, OnLine(classify, s, line), rest, Lines(rest));
  }

  lemma NoLines(classify: Classifier, s: State)
    ensures OnLines(classify, s, []) == s
  {
  }
}
