/**
  The syntax of the Range header: which headers are ignored, which numbers they may hold and what
  those are worth.
 */
module RangeSyntax {
  import opened Option
  import opened GgufFormat
  import opened RangeServer

  // ----- numerals -----

  /** Digits, and single underscores between two of them. */
  ghost predicate Numeral(s: string) {
    && s != "" && Digit(s[0]) && Digit(s[|s| - 1])
    && (forall i :: 0 <= i < |s| ==> Digit(s[i]) || s[i] == '_')
    && (forall i, j :: 0 <= i < j < |s| && j == i + 1 ==> Digit(s[i]) || Digit(s[j]))
  }

  lemma NumeralButOne(s: string)
    requires |s| >= 2 && Digit(s[|s| - 1])
    ensures Numeral(s) <==> Numeral(if s[|s| - 2] == '_' then s[..|s| - 2] else s[..|s| - 1])
  {
    hide Digit;
    var n := |s|;
    var t := if s[n - 2] == '_' then s[..n - 2] else s[..n - 1];
    NoDigit();
    assert forall i :: 0 <= i < |t| ==> t[i] == s[i];
    if Numeral(s) {
      assert s[n - 2] == '_' ==> n - 2 != 0;
      assert s[n - 2] == '_' ==> Digit(s[n - 3]);
      assert Digit(s[n - 2]) || s[n - 2] == '_';
    }
    if Numeral(t) {
      forall i | 0 <= i < n
        ensures Digit(s[i]) || s[i] == '_'
      {
        assert i < |t| ==> t[i] == s[i];
      }
      forall i, j | 0 <= i < j < n && j == i + 1
        ensures Digit(s[i]) || Digit(s[j])
      {
        assert j < |t| ==> t[i] == s[i] && t[j] == s[j];
        assert t[|t| - 1] == s[|t| - 1];
      }
    }
  }

  lemma NoDigit()
    ensures !Digit('_')
  {
  }

  /** A string is read as a number exactly when it is a numeral. */
  lemma {:induction false} DigitsAreNumerals(s: string)
    ensures Digits(s).Some? <==> Numeral(s)
    decreases |s|
  {
    if s != "" && Digit(s[|s| - 1]) && |s| > 1 {
      var t := if s[|s| - 2] == '_' then s[..|s| - 2] else s[..|s| - 1];
      NumeralButOne(s);
      DigitsAreNumerals(t);
    }
  }

  lemma EndsInDigit(s: string)
    requires Digits(s).Some?
    ensures s != "" && Digit(s[|s| - 1])
  {
  }

  lemma DigitsStep(s: string)
    requires |s| > 1 && Digit(s[|s| - 1])
    ensures Digits(s) ==
            match Digits(if s[|s| - 2] == '_' then s[..|s| - 2] else s[..|s| - 1])
            case None => None
            case Some(n) => Some(10 * n + DigitValue(s[|s| - 1]))
  {
  }

  lemma OneMoreDigit(s: string, c: char)
    requires Digit(c) && s != "" && Digit(s[|s| - 1])
    ensures Digits(s + [c]) == match Digits(s) case None => None case Some(n) => Some(10 * n + DigitValue(c))
  {
    hide Digits;
    DigitsStep(s + [c]);
    assert (s + [c])[..|s|] == s;
  }

  lemma OneMoreGroup(s: string, c: char)
    requires Digit(c) && s != ""
    ensures Digits(s + "_" + [c]) == match Digits(s) case None => None case Some(n) => Some(10 * n + DigitValue(c))
  {
    hide Digits;
    DigitsStep(s + "_" + [c]);
    assert (s + "_" + [c])[..|s|] == s;
  }

  lemma Worth(c: char)
    requires '0' <= c <= '9'
    ensures Digit(c) && DigitValue(c) == c as int - '0' as int && Digits([c]) == Some(DigitValue(c))
  {
  }

  /** In base ten: one more digit multiplies by ten and adds it... */
  lemma DigitsCount(s: string, c: char)
    requires '0' <= c <= '9'
    ensures Digits([c]) == Some(c as int - '0' as int)
    ensures Digits(s).Some? ==> Digits(s + [c]) == Some(10 * Digits(s).value + (c as int - '0' as int))
  {
    hide Digits, DigitValue, Digit;
    Worth(c);
    if Digits(s).Some? {
      EndsInDigit(s);
      OneMoreDigit(s, c);
    }
  }

  /** ... and an underscore in front of it is worth nothing. */
  lemma UnderscoresCount(s: string, c: char)
    requires '0' <= c <= '9'
    ensures Digits(s).Some? ==> Digits(s + "_" + [c]) == Some(10 * Digits(s).value + (c as int - '0' as int))
  {
    hide Digits, DigitValue, Digit;
    Worth(c);
    if Digits(s).Some? {
      EndsInDigit(s);
      OneMoreGroup(s, c);
    }
  }

  // ----- white space -----

  /** White space up to U+00FF, and the separators that count around a header value but not around a number. */
  const SPACES: set<int> := {9, 10, 11, 12, 13, 32, 0x85, 0xA0}
  const SEPARATORS: set<int> := {28, 29, 30, 31}

  lemma SpacesAre(c: char, number: bool)
    ensures Space(c, number) <==> c as int in SPACES || (c as int in SEPARATORS && !number)
  {
  }

  ghost predicate AllSpace(s: string, number: bool) { forall i :: 0 <= i < |s| ==> Space(s[i], number) }

  lemma {:induction false} LeftGone(pad: string, s: string, number: bool)
    requires AllSpace(pad, number) && (s != "" ==> !Space(s[0], number))
    ensures StripLeft(pad + s, number) == s
  {
    if pad == "" {
      assert pad + s == s;
    } else {
      assert (pad + s)[1..] == pad[1..] + s;
      LeftGone(pad[1..], s, number);
    }
  }

  lemma {:induction false} RightGone(s: string, pad: string, number: bool)
    requires AllSpace(pad, number) && (s != "" ==> !Space(s[|s| - 1], number))
    ensures StripRight(s + pad, number) == s
  {
    if pad == "" {
      assert s + pad == s;
    } else {
      assert (s + pad)[..|s + pad| - 1] == s + pad[..|pad| - 1];
      RightGone(s, pad[..|pad| - 1], number);
    }
  }

  /** White space around a text without any at its ends goes, and nothing else. */
  lemma StripIs(left: string, s: string, right: string, number: bool)
    requires AllSpace(left, number) && AllSpace(right, number)
    requires s != "" ==> !Space(s[0], number) && !Space(s[|s| - 1], number)
    ensures Strip(left + s + right, number) == s
  {
    if s == "" {
      OnlySpace(left + right, number);
      assert left + s + right == left + right;
    } else {
      assert left + s + right == left + (s + right);
      LeftGone(left, s + right, number);
      RightGone(s, right, number);
    }
  }

  lemma {:induction false} OnlySpace(s: string, number: bool)
    requires AllSpace(s, number)
    ensures StripLeft(s, number) == ""
  {
    if s != "" {
      OnlySpace(s[1..], number);
    }
  }

  /** Every text is white space around what is left of it. */
  lemma {:induction false} StripLeaves(s: string, number: bool) returns (left: string, right: string)
    ensures s == left + Strip(s, number) + right && AllSpace(left, number) && AllSpace(right, number)
    ensures Strip(s, number) != "" ==> !Space(Strip(s, number)[0], number) && !Space(Strip(s, number)[|Strip(s, number)| - 1], number)
  {
    left := LeftOf(s, number);
    var t := StripLeft(s, number);
    right := RightOf(t, number);
    assert s == left + (Strip(s, number) + right);
  }

  lemma {:induction false} LeftOf(s: string, number: bool) returns (left: string)
    ensures s == left + StripLeft(s, number) && AllSpace(left, number)
    ensures StripLeft(s, number) != "" ==> !Space(StripLeft(s, number)[0], number)
  {
    if s != "" && Space(s[0], number) {
      var rest := LeftOf(s[1..], number);
      left := [s[0]] + rest;
      assert s == [s[0]] + s[1..];
    } else {
      left := "";
    }
  }

  lemma {:induction false} RightOf(s: string, number: bool) returns (right: string)
    ensures s == StripRight(s, number) + right && AllSpace(right, number)
    ensures StripRight(s, number) != "" ==> !Space(StripRight(s, number)[|StripRight(s, number)| - 1], number) && StripRight(s, number)[0] == s[0]
  {
    if s != "" && Space(s[|s| - 1], number) {
      var rest := RightOf(s[..|s| - 1], number);
      right := rest + [s[|s| - 1]];
      assert s == s[..|s| - 1] + [s[|s| - 1]];
    } else {
      right := "";
    }
  }

  // ----- integers -----

  /** White space, a sign or none, a numeral, and white space again. */
  ghost predicate Integer(s: string, left: string, sign: string, digits: string, right: string) {
    && s == left + (sign + digits) + right && AllSpace(left, true) && AllSpace(right, true)
    && (sign == "" || sign == "+" || sign == "-") && Numeral(digits)
  }

  /** Such a string is read as its digits, negated by a minus sign... */
  lemma IntegerIsRead(s: string, left: string, sign: string, digits: string, right: string)
    requires Integer(s, left, sign, digits, right)
    ensures Digits(digits).Some?
    ensures PyInt(s) == Some(if sign == "-" then -(Digits(digits).value as int) else Digits(digits).value)
  {
    hide Digits;
    DigitsAreNumerals(digits);
    var t := sign + digits;
    assert t[0] == if sign == "" then digits[0] else sign[0];
    assert t[|t| - 1] == digits[|digits| - 1];
    StripIs(left, t, right, true);
    assert sign != "" ==> t[1..] == digits;
    assert sign == "" ==> t == digits;
  }

  /** ... and no other string is read as a number. */
  lemma OnlyIntegersAreRead(s: string) returns (left: string, sign: string, digits: string, right: string)
    requires PyInt(s).Some?
    ensures Integer(s, left, sign, digits, right)
  {
    hide Digits, Strip;
    left, right := StripLeaves(s, true);
    var t := Strip(s, true);
    if t[0] == '-' || t[0] == '+' {
      sign, digits := [t[0]], t[1..];
    } else {
      sign, digits := "", t;
    }
    DigitsAreNumerals(digits);
    assert sign + digits == t;
  }

  // ----- headers that are ignored -----

  /** One range, of what is read as numbers, behind `bytes=`. */
  ghost predicate OneRange(value: string, first: string, last: string) {
    && "bytes=" <= value && Strip(value[6..], false) == first + "-" + last
    && '-' !in first && ',' !in Strip(value[6..], false)
    && (first != "" ==> PyInt(first).Some? && (last == "" || PyInt(last).Some?))
    && (first == "" ==> PyInt(last).Some?)
  }

  lemma IsOneRange(value: string, size: nat) returns (first: string, last: string)
    requires ParseByteRange(value, size) != Ignore
    ensures OneRange(value, first, last)
  {
    hide PyInt, Strip, Clamp;
    var spec := Strip(value[6..], false);
    var dash := Find(spec, '-');
    first, last := spec[..dash], spec[dash + 1..];
    assert spec == first + "-" + last && '-' !in first;
  }

  lemma OneRangeCounts(value: string, first: string, last: string, size: nat)
    requires OneRange(value, first, last)
    ensures ParseByteRange(value, size) != Ignore
  {
    hide PyInt, Strip;
    var spec := first + "-" + last;
    FindDash(first, last);
    assert spec[..|first|] == first && spec[|first| + 1..] == last;
  }

  /** A header is ignored exactly when it is not that. */
  lemma IgnoredExactly(value: string, size: nat)
    ensures ParseByteRange(value, size) != Ignore <==> exists first: string, last: string :: OneRange(value, first, last)
  {
    hide ParseByteRange, OneRange;
    if ParseByteRange(value, size) != Ignore {
      var first, last := IsOneRange(value, size);
    }
    if first: string, last: string :| OneRange(value, first, last) {
      OneRangeCounts(value, first, last, size);
    }
  }

  /** What is not ignored, by its numbers: a suffix, an open range or a closed one. */
  lemma RangeIs(value: string, first: string, last: string, size: nat)
    requires "bytes=" <= value && Strip(value[6..], false) == first + "-" + last && '-' !in first && ',' !in first + "-" + last
    ensures first == "" && PyInt(last).Some? ==>
              var n := PyInt(last).value;
              ParseByteRange(value, size) ==
              if n <= 0 || size == 0 then Unsatisfiable else if n >= size then Satisfied(0, size - 1) else Satisfied(size - n, size - 1)
    ensures first != "" && PyInt(first).Some? && last == "" ==>
              var a := PyInt(first).value;
              ParseByteRange(value, size) == if 0 <= a < size then Satisfied(a, size - 1) else Unsatisfiable
    ensures first != "" && PyInt(first).Some? && last != "" && PyInt(last).Some? ==>
              var a, b := PyInt(first).value, PyInt(last).value;
              ParseByteRange(value, size) ==
              if 0 <= a < size && a <= b then Satisfied(a, if b < size then b else size - 1) else Unsatisfiable
  {
    hide PyInt, Strip;
    FindDash(first, last);
    var spec := first + "-" + last;
    assert spec[..|first|] == first && spec[|first| + 1..] == last;
  }
}
