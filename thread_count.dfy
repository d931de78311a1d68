/**
 * Thread-count validation at start-up: the answer typed at the prompt is
 * stripped; an empty answer, one that `int()` rejects, and a number outside
 * [1, MaxThreads] all fall back to the mode's default.
 */
module ThreadCount {
  import opened HunterTypes

  /** The ASCII characters `str.strip()` removes. */
  predicate IsSpace(c: char)
  {
    c == ' ' || c == '\t' || c == '\n' || c == '\r' || c == '\U{B}' || c == '\U{C}'
    || ('\U{1C}' <= c <= '\U{1F}')
  }

  /** The position of the first non-space at or after `from`, or `|s|`. */
  function StartFrom(s: string, from: nat): (i: nat)
    requires from <= |s|
    ensures from <= i <= |s|
    ensures forall j :: from <= j < i ==> IsSpace(s[j])
    ensures i < |s| ==> !IsSpace(s[i])
    decreases |s| - from
  {
    if from == |s| || !IsSpace(s[from]) then from else StartFrom(s, from + 1)
  }

  /** The position just after the last non-space before `to`, or 0. */
  function EndBefore(s: string, to: nat): (e: nat)
    requires to <= |s|
    ensures e <= to
    ensures forall j :: e <= j < to ==> IsSpace(s[j])
    ensures e > 0 ==> !IsSpace(s[e - 1])
  {
    if to == 0 || !IsSpace(s[to - 1]) then to else EndBefore(s, to - 1)
  }

  /** `s` is `r` with white space only before position `i` and after `i + |r|`. */
  ghost predicate StrippedAt(s: string, r: string, i: nat)
  {
    && i + |r| <= |s|
    && r == s[i..i + |r|]
    && (forall j :: 0 <= j < i ==> IsSpace(s[j]))
    && (forall j :: i + |r| <= j < |s| ==> IsSpace(s[j]))
  }

  /** `str.strip()`: the answer without leading and trailing white space. It
      is a contiguous piece of the input, begins and ends with a non-space,
      and everything cut off on either side is white space. */
  function Strip(s: string): (r: string)
    ensures r == [] || (!IsSpace(r[0]) && !IsSpace(r[|r| - 1]))
    ensures exists i :: StrippedAt(s, r, i)
  {
    var i, e := StartFrom(s, 0), EndBefore(s, |s|);
    if i < e then
      assert StrippedAt(s, s[i..e], i);
      s[i..e]
    else
      assert StrippedAt(s, [], |s|);
      []
  }

  /** Stripping a padded answer gives back the answer. */
  lemma StripOfPadded(before: string, x: string, after: string)
    requires forall i :: 0 <= i < |before| ==> IsSpace(before[i])
    requires forall i :: 0 <= i < |after| ==> IsSpace(after[i])
    requires x != [] && !IsSpace(x[0]) && !IsSpace(x[|x| - 1])
    ensures Strip(before + x + after) == x
  {
    var s := before + x + after;
    var i, e := StartFrom(s, 0), EndBefore(s, |s|);
    assert s[|before|] == x[0];
    assert s[|before| + |x| - 1] == x[|x| - 1];
    assert i == |before|;
    assert e == |before| + |x|;
    assert s[i..e] == x;
  }

  /** Stripping twice is stripping once. */
  lemma StripIdempotent(s: string)
    ensures Strip(Strip(s)) == Strip(s)
  {
    var r := Strip(s);
    if r != [] {
      StripOfPadded([], r, []);
      assert [] + r + [] == r;
    }
  }

  predicate IsDigit(c: char)
  {
    '0' <= c <= '9'
  }

  /** Python's grammar for a base-10 integer body: digits, each underscore
      standing between two digits. */
  predicate WellFormedDigits(t: string)
  {
    && |t| > 0
    && IsDigit(t[0])
    && forall i :: 0 <= i < |t| ==> DigitOrJoiner(t, i)
  }

  /** Position `i` holds a digit, or an underscore followed by a digit. */
  predicate DigitOrJoiner(t: string, i: nat)
    requires i < |t|
  {
    IsDigit(t[i]) || (t[i] == '_' && i + 1 < |t| && IsDigit(t[i + 1]))
  }

  /** A well-formed digit string ends in a digit: `int("4_")` is rejected. */
  lemma WellFormedEndsInDigit(t: string)
    requires WellFormedDigits(t)
    ensures IsDigit(t[|t| - 1])
  {
    assert DigitOrJoiner(t, |t| - 1);
  }

  /** The value of a digit string, underscores ignored. */
  function DigitsValue(t: string): nat
  {
    if t == [] then 0
    else if IsDigit(t[|t| - 1]) then 10 * DigitsValue(t[..|t| - 1]) + (t[|t| - 1] as int - '0' as int) as nat
    else DigitsValue(t[..|t| - 1])
  }

  /** The most digits `int()` accepts in a decimal string: CPython's
      default integer string conversion length limit. */
  const MAX_STR_DIGITS: nat := 4300

  /** The number of digits in `t`; underscores do not count. */
  function DigitCount(t: string): (n: nat)
    ensures n <= |t|
  {
    if t == [] then 0
    else DigitCount(t[..|t| - 1]) + (if IsDigit(t[|t| - 1]) then 1 else 0)
  }

  /** A string made of digits only counts each of its characters. */
  lemma {:induction false} AllDigitsCount(t: string)
    requires forall i :: 0 <= i < |t| ==> IsDigit(t[i])
    ensures DigitCount(t) == |t|
  {
    if t != [] {
      var p := t[..|t| - 1];
      assert forall i :: 0 <= i < |p| ==> p[i] == t[i];
      AllDigitsCount(p);
    }
  }

  /** Counting digits from the front: a leading character adds one when it
      is a digit. */
  lemma {:induction false} DigitCountCons(c: char, t: string)
    ensures DigitCount([c] + t) == (if IsDigit(c) then 1 else 0) + DigitCount(t)
    decreases |t|
  {
    if t != [] {
      var u := [c] + t;
      assert u[..|u| - 1] == [c] + t[..|t| - 1];
      assert u[|u| - 1] == t[|t| - 1];
      DigitCountCons(c, t[..|t| - 1]);
    }
  }

  function ParseDigits(t: string): Option<nat>
  {
    if WellFormedDigits(t) && DigitCount(t) <= MAX_STR_DIGITS then Some(DigitsValue(t)) else None
  }

  /** `int(s)` on an already stripped string: an optional sign followed by
      well-formed digits, at most `MAX_STR_DIGITS` of them; `None` stands for
      the `ValueError` it raises. An accepted string ends in a digit and
      begins with a digit or a sign, only a minus sign gives a negative
      number, and a string of more than `MAX_STR_DIGITS` digits, signed or
      with underscores, is rejected. */
  function ParseInt(s: string): (r: Option<int>)
    ensures r.Some? ==> s != [] && IsDigit(s[|s| - 1])
    ensures r.Some? ==> IsDigit(s[0]) || s[0] == '-' || s[0] == '+'
    ensures r.Some? && r.value < 0 ==> s[0] == '-'
    ensures DigitCount(s) > MAX_STR_DIGITS ==> r.None?
  {
    if s == [] then None
    else if s[0] == '-' || s[0] == '+' then
      match ParseDigits(s[1..])
      case None => None
      case Some(n) =>
        WellFormedEndsInDigit(s[1..]);
        assert s == [s[0]] + s[1..];
        DigitCountCons(s[0], s[1..]);
        var m: int := n;
        Some(if s[0] == '-' then -m else m)
    else
      match ParseDigits(s)
      case None => None
      case Some(n) =>
        WellFormedEndsInDigit(s);
        var m: int := n;
        Some(m)
  }

  function DigitChar(d: nat): (c: char)
    requires d < 10
    ensures IsDigit(c) && c as int - '0' as int == d
  {
    ('0' as int + d) as char
  }

  /** The decimal rendering of a natural number. */
  function ShowNat(n: nat): (t: string)
    ensures |t| > 0
  {
    if n < 10 then [DigitChar(n)] else ShowNat(n / 10) + [DigitChar(n % 10)]
  }

  /** The decimal rendering of an integer, with a minus sign when negative. */
  function ShowInt(v: int): (t: string)
  {
    if v < 0 then "-" + ShowNat(-v) else ShowNat(v)
  }

  lemma {:induction false} ShowNatParses(n: nat)
    ensures forall i :: 0 <= i < |ShowNat(n)| ==> IsDigit(ShowNat(n)[i])
    ensures WellFormedDigits(ShowNat(n))
    ensures DigitsValue(ShowNat(n)) == n
    ensures DigitCount(ShowNat(n)) == |ShowNat(n)|
  {
    var t := ShowNat(n);
    if n >= 10 {
      var p := ShowNat(n / 10);
      ShowNatParses(n / 10);
      assert t == p + [DigitChar(n % 10)];
      assert t[..|t| - 1] == p;
      forall i | 0 <= i < |t|
        ensures IsDigit(t[i])
      {
        if i < |p| {
          assert t[i] == p[i];
        }
      }
    } else {
      assert t[..0] == [];
    }
    AllDigitsCount(t);
  }

  /** The absolute value, whose rendering `ShowInt` writes after the sign. */
  function Magnitude(v: int): (m: nat)
    ensures m == v || m == -v
  {
    if v < 0 then -v else v
  }

  /** Parsing reads back what the decimal rendering wrote, for every integer
      of at most `MAX_STR_DIGITS` digits, and rejects every longer one. */
  lemma ParseShowRoundTrip(v: int)
    ensures |ShowNat(Magnitude(v))| <= MAX_STR_DIGITS ==> ParseInt(ShowInt(v)) == Some(v)
    ensures |ShowNat(Magnitude(v))| > MAX_STR_DIGITS ==> ParseInt(ShowInt(v)) == None
  {
    var m := Magnitude(v);
    var d := ShowNat(m);
    ShowNatParses(m);
    assert ParseDigits(d) == if |d| <= MAX_STR_DIGITS then Some(m) else None;
    if v < 0 {
      assert ShowInt(v)[0] == '-' && ShowInt(v)[1..] == d;
    } else {
      assert ShowInt(v) == d && IsDigit(d[0]);
    }
  }

  /** The thread count the start-up prompt settles on. */
  function ChooseThreadCount(mode: Mode, line: string): (n: nat)
    ensures 1 <= n <= MaxThreads(mode)
    ensures Strip(line) == [] ==> n == DefaultThreads(mode)
    ensures ParseInt(Strip(line)).None? ==> n == DefaultThreads(mode)
    ensures ParseInt(Strip(line)).Some? ==>
              var v := ParseInt(Strip(line)).value;
              n == if 1 <= v <= MaxThreads(mode) then v else DefaultThreads(mode)
  {
    var input := Strip(line);
    if input == [] then DefaultThreads(mode)
    else match ParseInt(input)
      case None => DefaultThreads(mode)
      case Some(v) => if 1 <= v <= MaxThreads(mode) then v else DefaultThreads(mode)
  }

  /** The rendering of an integer is its own stripped form. */
  lemma StripShowInt(k: int)
    ensures Strip(ShowInt(k)) == ShowInt(k)
  {
    var t := ShowInt(k);
    var d := ShowNat(Magnitude(k));
    ShowNatParses(Magnitude(k));
    assert IsDigit(d[0]) && IsDigit(d[|d| - 1]);
    if k < 0 {
      assert t == "-" + d;
      assert t[0] == '-' && t[|t| - 1] == d[|d| - 1];
    } else {
      assert t == d;
    }
    assert !IsSpace(t[0]) && !IsSpace(t[|t| - 1]);
    StripOfPadded([], t, []);
    assert [] + t + [] == t;
  }

  /** Typing any in-range number, surrounded by white space or not, selects
      exactly that number. */
  lemma InRangeAnswerIsTaken(mode: Mode, k: int, before: string, after: string)
    requires 1 <= k <= MaxThreads(mode)
    requires forall i :: 0 <= i < |before| ==> IsSpace(before[i])
    requires forall i :: 0 <= i < |after| ==> IsSpace(after[i])
    ensures ChooseThreadCount(mode, before + ShowInt(k) + after) == k
  {
    assert |ShowNat(k)| <= 2 by {
      assert k / 10 < 10;
    }
    ParseShowRoundTrip(k);
    ShowNatParses(k);
    var t := ShowInt(k);
    assert IsDigit(t[0]) && IsDigit(t[|t| - 1]);
    StripOfPadded(before, t, after);
  }

  /** Any out-of-range number falls back to the default. */
  lemma OutOfRangeFallsBack(mode: Mode, k: int)
    requires k < 1 || k > MaxThreads(mode)
    ensures ChooseThreadCount(mode, ShowInt(k)) == DefaultThreads(mode)
  {
    ParseShowRoundTrip(k);
    StripShowInt(k);
  }

  /** An answer of more than `MAX_STR_DIGITS` digits is rejected, whatever
      number it spells (leading zeros included), and selects the default. */
  lemma TooManyDigitsFallsBack(mode: Mode, t: string)
    requires forall i :: 0 <= i < |t| ==> IsDigit(t[i])
    requires |t| > MAX_STR_DIGITS
    ensures ChooseThreadCount(mode, t) == DefaultThreads(mode)
  {
    AllDigitsCount(t);
    assert ParseDigits(t).None?;
    RejectedFallsBack(mode, t);
  }

  /** A blank answer selects the default. */
  lemma BlankFallsBack(mode: Mode, line: string)
    requires forall i :: 0 <= i < |line| ==> IsSpace(line[i])
    ensures ChooseThreadCount(mode, line) == DefaultThreads(mode)
  {
    var r := Strip(line);
    var i: nat :| StrippedAt(line, r, i);
  }

  /** A stripped answer `int()` rejects selects the default. */
  lemma RejectedFallsBack(mode: Mode, t: string)
    requires t != [] && !IsSpace(t[0]) && !IsSpace(t[|t| - 1])
    requires ParseInt(t).None?
    ensures ChooseThreadCount(mode, t) == DefaultThreads(mode)
  {
    StripOfPadded([], t, []);
    assert [] + t + [] == t;
  }

  /** Concrete answers that `int()` rejects: not a number, a doubled
      underscore, a trailing underscore. */
  lemma NonNumericExamples(mode: Mode)
    ensures ChooseThreadCount(mode, "abc") == DefaultThreads(mode)
    ensures ChooseThreadCount(mode, "1__0") == DefaultThreads(mode)
    ensures ChooseThreadCount(mode, "4_") == DefaultThreads(mode)
  {
    assert !WellFormedDigits("abc") by {
      assert !IsDigit("abc"[0]);
    }
    RejectedFallsBack(mode, "abc");
    assert !WellFormedDigits("1__0") by {
      assert !DigitOrJoiner("1__0", 1);
    }
    RejectedFallsBack(mode, "1__0");
    assert !WellFormedDigits("4_") by {
      if WellFormedDigits("4_") {
        WellFormedEndsInDigit("4_");
      }
    }
    RejectedFallsBack(mode, "4_");
  }

  /** Underscores between digits are accepted, as `int("1_0")` is 10. */
  lemma UnderscoreExample()
    ensures ParseInt("1_0") == Some(10)
  {
    var t := "1_0";
    forall i | 0 <= i < |t|
      ensures DigitOrJoiner(t, i)
    {
      if i == 1 {
        assert t[2] == '0';
      }
    }
    assert WellFormedDigits(t);
    assert t[..2] == "1_" && t[..2][..1] == "1" && t[..2][..1][..0] == [];
    assert DigitsValue("1") == 1;
    assert DigitsValue(t) == 10;
  }
}
