/**
 * The `show_epoch` option of a network: its validation when it is set
 * (`ShowEpochProperty.validate`) and its conversion into a reporting cadence
 * at the start of training (`parse_show_epoch_property`).
 */
module ShowEpoch {
  import opened Wrappers
  import opened Strings

  /** The two forms the option takes: an integer period or an "N time(s)" string. */
  datatype ShowEpochValue = Period(n: int) | Times(text: string)

  /** The ValueError messages of `validate`, one constructor per `raise`. */
  datatype ShowEpochError =
    | PeriodBelowOne      // an integer smaller than one
    | MissingTimeWord     // a string that does not contain "time"
    | BadFormat           // a wrong ending, or a number part that is not all digits
    | CountBelowOne       // a number part whose value is zero

  datatype Check = Accepted | Rejected(error: ShowEpochError)

  const TimeWord: string := "time"

  predicate HasTimeEnding(s: string) {
    EndsWith(s, "times") || EndsWith(s, "time")
  }

  /** The stripped text in front of the first "time", if there is one. */
  function NumberPart(s: string): (r: Option<string>)
    ensures r.None? <==> !Contains(s, TimeWord)
  {
    match IndexOf(s, TimeWord)
    case None => None
    case Some(pos) => Some(Strip(s[..pos]))
  }

  /** `ShowEpochProperty.validate`: which values the option accepts, and why it refuses the others. */
  function Validate(v: ShowEpochValue): (r: Check)
    ensures v.Period? ==> (r.Accepted? <==> v.n >= 1)
    ensures v.Times? && r.Accepted? ==> Contains(v.text, TimeWord) && HasTimeEnding(v.text)
    ensures v.Times? && !Contains(v.text, TimeWord) ==> r == Rejected(MissingTimeWord)
  {
    match v
    case Period(n) => if n < 1 then Rejected(PeriodBelowOne) else Accepted
    case Times(s) =>
      match NumberPart(s)
      case None => Rejected(MissingTimeWord)
      case Some(number) =>
        if !HasTimeEnding(s) || !IsDigits(number) then Rejected(BadFormat)
        else if DigitsValue(number) < 1 then Rejected(CountBelowOne)
        else Accepted
  }

  /** The N of an accepted "N time(s)" string. */
  function ShowTimes(s: string): (n: nat)
    requires Validate(Times(s)).Accepted?
    ensures n >= 1
  {
    DigitsValue(NumberPart(s).value)
  }

  /**
   * `s` reads: whitespace `s[..i]`, digits `s[i..j]`, whitespace `s[j..k]`,
   * then "time" at `k`, whatever follows.
   */
  ghost predicate WellFormedAt(s: string, i: int, j: int, k: int) {
    0 <= i < j <= k && OccursAt(s, TimeWord, k)
    && AllSpace(s[..i]) && IsDigits(s[i..j]) && AllSpace(s[j..k])
  }

  /** Whitespace and digits never start an occurrence of "time". */
  lemma NoTimeBefore(s: string, k: nat)
    requires k <= |s|
    requires forall m :: 0 <= m < k ==> IsSpace(s[m]) || IsDigit(s[m])
    ensures forall m :: 0 <= m < k ==> !OccursAt(s, TimeWord, m)
  {
    forall m | 0 <= m < k ensures !OccursAt(s, TimeWord, m) {
      if m + 4 <= |s| {
        assert s[m..m + 4][0] == s[m];
      }
    }
  }

  /** In a well-formed string the number part is exactly the digit span. */
  lemma {:induction false} NumberPartOfWellFormed(s: string, i: int, j: int, k: int)
    requires WellFormedAt(s, i, j, k)
    ensures NumberPart(s) == Some(s[i..j])
  {
    forall m | 0 <= m < k ensures IsSpace(s[m]) || IsDigit(s[m]) {
      if m < i {
        assert s[..i][m] == s[m];
      } else if m < j {
        assert s[i..j][m - i] == s[m];
      } else {
        assert s[j..k][m - j] == s[m];
      }
    }
    NoTimeBefore(s, k);
    assert IndexOf(s, TimeWord) == Some(k);
    var pre := s[..k];
    assert pre[..i] == s[..i] && pre[j..] == s[j..k] && pre[i..j] == s[i..j];
    assert pre[i] == s[i..j][0] && pre[j - 1] == s[i..j][j - 1 - i];
    StripSpan(pre, i, j);
  }

  /**
   * The strings the option accepts are exactly the well-formed ones with a
   * non-zero number and a "time"/"times" ending; the count is that number.
   */
  lemma {:induction false} WellFormedIsAccepted(s: string, i: int, j: int, k: int)
    requires WellFormedAt(s, i, j, k) && HasTimeEnding(s) && DigitsValue(s[i..j]) >= 1
    ensures Validate(Times(s)).Accepted? && ShowTimes(s) == DigitsValue(s[i..j])
  {
    NumberPartOfWellFormed(s, i, j, k);
  }

  /** An accepted string has "time" at `k` and a digit string in front of it, up to whitespace. */
  lemma AcceptedParts(s: string) returns (k: nat, number: string)
    requires Validate(Times(s)).Accepted?
    ensures OccursAt(s, TimeWord, k) && number == Strip(s[..k]) && IsDigits(number)
    ensures HasTimeEnding(s) && ShowTimes(s) == DigitsValue(number)
  {
    k := IndexOf(s, TimeWord).value;
    number := NumberPart(s).value;
  }

  lemma AcceptedIsWellFormed(s: string) returns (i: nat, j: nat, k: nat)
    requires Validate(Times(s)).Accepted?
    ensures WellFormedAt(s, i, j, k) && HasTimeEnding(s)
    ensures ShowTimes(s) == DigitsValue(s[i..j])
  {
    var number;
    k, number := AcceptedParts(s);
    i, j := StrippedDigitsShape(s, k, number);
  }

  /** Digits that are what stripping leaves in front of "time" make the string well formed. */
  lemma StrippedDigitsShape(s: string, k: nat, number: string) returns (i: nat, j: nat)
    requires OccursAt(s, TimeWord, k) && number == Strip(s[..k]) && IsDigits(number)
    ensures WellFormedAt(s, i, j, k) && s[i..j] == number
  {
    var pre := s[..k];
    i, j := StripShape(pre);
    assert s[i..j] == pre[i..j];
    assert s[..i] == pre[..i];
    assert s[j..k] == pre[j..];
  }

  /** `str(n) + " times"` (or `" time"`) for a count `n`. */
  function FormatTimes(n: nat, plural: bool): string {
    NatToDigits(n) + (if plural then " times" else " time")
  }

  /** A digit string with a non-zero value followed by " times" or " time" is accepted with that count. */
  lemma CountWithEnding(d: string, ending: string)
    requires IsDigits(d) && DigitsValue(d) >= 1
    requires ending == " times" || ending == " time"
    ensures Validate(Times(d + ending)).Accepted? && ShowTimes(d + ending) == DigitsValue(d)
  {
    var s, j := d + ending, |d|;
    assert s[..0] == [] && s[0..j] == d && s[j..] == ending;
    assert s[j..j + 1] == ending[..1] == " " && IsSpace(' ');
    assert s[j + 1..j + 5] == ending[1..5] == TimeWord;
    assert s[|s| - |ending|..] == ending;
    WellFormedIsAccepted(s, 0, j, j + 1);
  }

  /** Writing a count out and validating it gives the count back. */
  lemma FormatTimesRoundTrip(n: nat, plural: bool)
    requires n >= 1
    ensures Validate(Times(FormatTimes(n, plural))).Accepted?
    ensures ShowTimes(FormatTimes(n, plural)) == n
  {
    DigitsRoundTrip(n);
    CountWithEnding(NatToDigits(n), if plural then " times" else " time");
  }

  /** A number part of only zeros ("0 times", "00 time") is refused for its value. */
  lemma ZeroCountRejected(s: string)
    requires NumberPart(s).Some? && HasTimeEnding(s) && IsDigits(NumberPart(s).value)
    ensures Validate(Times(s)) == Rejected(CountBelowOne)
        <==> forall m :: 0 <= m < |NumberPart(s).value| ==> NumberPart(s).value[m] == '0'
  {
    DigitsValuePositive(NumberPart(s).value);
  }

  /**
   * Python 3's `round(a / b)` for b > 0: the integer nearest to a / b,
   * the even one of the two on a tie.
   */
  ghost predicate IsRoundedQuotient(r: int, a: int, b: int) {
    b > 0 && -b <= 2 * a - 2 * b * r <= b
    && ((2 * a - 2 * b * r == b || 2 * a - 2 * b * r == -b) ==> r % 2 == 0)
  }

  function RoundHalfEven(a: int, b: int): (r: int)
    requires b > 0
    ensures IsRoundedQuotient(r, a, b)
  {
    var q, rem := a / b, a % b;
    assert a == b * q + rem;
    assert 2 * a - 2 * b * q == 2 * rem;
    assert 2 * a - 2 * b * (q + 1) == 2 * rem - 2 * b;
    if 2 * rem < b then q
    else if 2 * rem > b then q + 1
    else if q % 2 == 0 then q
    else q + 1
  }

  /** The nearest-integer property pins the rounded quotient down. */
  lemma RoundedQuotientUnique(r: int, r': int, a: int, b: int)
    requires IsRoundedQuotient(r, a, b) && IsRoundedQuotient(r', a, b)
    ensures r == r'
  {
    var d := r - r';
    assert 2 * b * d == (2 * a - 2 * b * r') - (2 * a - 2 * b * r);
    assert d >= 2 ==> b * d >= 2 * b;
    assert d <= -2 ==> b * d <= -2 * b;
    assert -1 <= d <= 1;
  }

  /** A quotient of more than one rounds to at least one. */
  lemma RoundedQuotientPositive(r: int, a: int, b: int)
    requires IsRoundedQuotient(r, a, b) && a > b
    ensures r >= 1
  {
    assert 2 * b * r > b;
    assert r <= 0 ==> b * r <= 0;
  }

  /**
   * `parse_show_epoch_property`: the cadence, in epochs, at which training is
   * reported. The option has passed `Validate` when it was set.
   */
  function ParseShowEpoch(v: ShowEpochValue, nEpochs: int, epsilonGiven: bool): (cadence: int)
    requires Validate(v).Accepted?
    ensures cadence >= 1
    ensures v.Period? ==> cadence == v.n
    ensures v.Times? && epsilonGiven ==> cadence == 1
    ensures v.Times? && !epsilonGiven && nEpochs <= ShowTimes(v.text) ==> cadence == 1
    ensures v.Times? && !epsilonGiven && nEpochs > ShowTimes(v.text) ==>
              IsRoundedQuotient(cadence, nEpochs, ShowTimes(v.text))
  {
    match v
    case Period(n) => n
    case Times(s) =>
      if epsilonGiven then 1
      else
        var times := ShowTimes(s);
        if nEpochs <= times then 1
        else
          var r := RoundHalfEven(nEpochs, times);
          RoundedQuotientPositive(r, nEpochs, times);
          r
  }

  /** "d times" for a digit d from 1 to 9 is accepted with count d. */
  lemma DigitTimesAccepted(d: char, s: string)
    requires '1' <= d <= '9' && s == [d] + " times"
    ensures Validate(Times(s)).Accepted? && ShowTimes(s) == d as int - '0' as int
  {
    assert DigitsValue([d]) == d as int - '0' as int by {
      assert [d][..0] == [];
    }
    CountWithEnding([d], " times");
  }

  /**
   * Worked cases: "3 times" over 30 epochs reports every 10th epoch; over 2
   * epochs, every epoch; in epsilon mode, every epoch.
   */
  lemma ThreeTimesCadence()
    ensures Validate(Times("3 times")).Accepted?
    ensures ParseShowEpoch(Times("3 times"), 30, false) == 10
    ensures ParseShowEpoch(Times("3 times"), 2, false) == 1
    ensures ParseShowEpoch(Times("3 times"), 30, true) == 1
  {
    DigitTimesAccepted('3', "3 times");
  }

  /** Ties round to even: 10 epochs over "4 times" give 2, not 3. */
  lemma TieRoundsDownToEven()
    ensures Validate(Times("4 times")).Accepted?
    ensures ParseShowEpoch(Times("4 times"), 10, false) == 2
  {
    DigitTimesAccepted('4', "4 times");
    assert ParseShowEpoch(Times("4 times"), 10, false) == RoundHalfEven(10, 4);
    assert 10 / 4 == 2 && 10 % 4 == 2;
    assert RoundHalfEven(10, 4) == 2;
  }

  /** Ties round to even: 7 epochs over "2 times" give 4. */
  lemma TieRoundsUpToEven()
    ensures Validate(Times("2 times")).Accepted?
    ensures ParseShowEpoch(Times("2 times"), 7, false) == 4
  {
    DigitTimesAccepted('2', "2 times");
    assert ParseShowEpoch(Times("2 times"), 7, false) == RoundHalfEven(7, 2);
    assert 7 / 2 == 3 && 7 % 2 == 1;
    assert RoundHalfEven(7, 2) == 4;
  }

  /** An integer option is its own cadence, whatever the number of epochs and in either mode. */
  lemma PeriodCadence(nEpochs: int, epsilonGiven: bool)
    ensures ParseShowEpoch(Period(5), nEpochs, epsilonGiven) == 5
  {
  }

  /** The word must be written in lower case. */
  lemma TimeWordIsCaseSensitive()
    ensures Validate(Times("3 Times")) == Rejected(MissingTimeWord)
  {
    assert !Contains("3 Times", TimeWord) by {
      forall j | 0 <= j <= |"3 Times"| - 4 ensures !OccursAt("3 Times", TimeWord, j) {
        assert "3 Times"[j..j + 4][0] == "3 Times"[j];
      }
    }
  }
}
