// Text comparisons the booking engine relies on. Dates ("YYYY-MM-DD") and
// wall-clock times ("HH:MM") are kept as strings and compared with
// JavaScript's `<` on strings, which is lexicographic order on characters.
// The lemmas at the end show that, for well-formed zero-padded strings, this
// order is the order of the calendar day and of the minute of the day.
module TimeText {

  /** JavaScript's `a < b` on strings: the first differing character decides; a proper prefix sorts first. */
  function LexLess(a: string, b: string): bool
  {
    if |a| == 0 then |b| > 0
    else if |b| == 0 then false
    else if a[0] != b[0] then a[0] < b[0]
    else LexLess(a[1..], b[1..])
  }

  lemma {:induction false} LexIrreflexive(a: string)
    ensures !LexLess(a, a)
  {
    if |a| > 0 {
      LexIrreflexive(a[1..]);
    }
  }

  lemma {:induction false} LexAsymmetric(a: string, b: string)
    ensures !(LexLess(a, b) && LexLess(b, a))
  {
    if |a| > 0 && |b| > 0 && a[0] == b[0] {
      LexAsymmetric(a[1..], b[1..]);
    }
  }

  lemma {:induction false} LexTransitive(a: string, b: string, c: string)
    requires LexLess(a, b) && LexLess(b, c)
    ensures LexLess(a, c)
  {
    if |a| > 0 && a[0] == b[0] && b[0] == c[0] {
      LexTransitive(a[1..], b[1..], c[1..]);
    }
  }

  /** Any two different strings are ordered one way or the other. */
  lemma {:induction false} LexTotal(a: string, b: string)
    requires a != b
    ensures LexLess(a, b) || LexLess(b, a)
  {
    if |a| > 0 && |b| > 0 && a[0] == b[0] {
      assert a == [a[0]] + a[1..] && b == [b[0]] + b[1..];
      LexTotal(a[1..], b[1..]);
    }
  }

  /** Comparing equal-length strings one character longer: the prefixes decide unless they are equal. */
  lemma {:induction false} LexSnoc(a: string, b: string, x: char, y: char)
    requires |a| == |b|
    ensures LexLess(a + [x], b + [y]) == (LexLess(a, b) || (a == b && x < y))
  {
    if |a| == 0 {
      assert (a + [x])[1..] == [] && (b + [y])[1..] == [];
    } else {
      assert (a + [x])[1..] == a[1..] + [x];
      assert (b + [y])[1..] == b[1..] + [y];
      LexSnoc(a[1..], b[1..], x, y);
      if a[0] == b[0] {
        assert a == [a[0]] + a[1..] && b == [b[0]] + b[1..];
      }
    }
  }

  /** `t` occurs in `s` starting at position `i`. */
  predicate OccursAt(s: string, t: string, i: int)
  {
    0 <= i <= |s| - |t| && s[i..i + |t|] == t
  }

  /** JavaScript's `s.includes(t)`: `t` occurs in `s` as a contiguous block. */
  predicate Contains(s: string, t: string)
  {
    exists i | 0 <= i <= |s| - |t| :: OccursAt(s, t, i)
  }

  /** A string that is built around `t` contains `t`. */
  lemma ContainsMiddle(pre: string, t: string, post: string)
    ensures Contains(pre + t + post, t)
  {
    var s := pre + t + post;
    assert s[|pre|..|pre| + |t|] == t;
    assert OccursAt(s, t, |pre|);
  }

  /** Containment survives extending the string on both sides. */
  lemma ContainsWithin(pre: string, s: string, post: string, t: string)
    requires Contains(s, t)
    ensures Contains(pre + s + post, t)
  {
    var i :| 0 <= i <= |s| - |t| && OccursAt(s, t, i);
    assert s[i..i + |t|] == t;
    var w := pre + s + post;
    assert w[|pre| + i..|pre| + i + |t|] == s[i..i + |t|];
    assert OccursAt(w, t, |pre| + i);
  }

  // ----- Digit shapes -----

  predicate IsDigit(c: char) { '0' <= c <= '9' }

  function DigitOf(c: char): nat
    requires IsDigit(c)
  {
    (c as int - '0' as int) as nat
  }

  /**
   * `s` fits `shape` when it has the same length, carries a decimal digit
   * wherever `shape` has '9', and the same character as `shape` elsewhere.
   */
  predicate Fits(s: string, shape: string)
  {
    |s| == |shape| &&
    forall i :: 0 <= i < |s| ==> if shape[i] == '9' then IsDigit(s[i]) else s[i] == shape[i]
  }

  /** The number written by the digits of `s` in the '9' positions of `shape`, read left to right. */
  function DigitValue(s: string, shape: string): nat
    requires Fits(s, shape)
  {
    if |s| == 0 then 0
    else
      var n := |s| - 1;
      assert Fits(s[..n], shape[..n]);
      var v := DigitValue(s[..n], shape[..n]);
      if shape[n] == '9' then 10 * v + DigitOf(s[n]) else v
  }

  /**
   * For strings of one shape, string order is numeric order of the digits
   * read as one number, and string equality is equality of that number.
   */
  lemma {:induction false} ShapeOrder(a: string, b: string, shape: string)
    requires Fits(a, shape) && Fits(b, shape)
    ensures LexLess(a, b) <==> DigitValue(a, shape) < DigitValue(b, shape)
    ensures a == b <==> DigitValue(a, shape) == DigitValue(b, shape)
  {
    if |shape| > 0 {
      var n := |shape| - 1;
      assert Fits(a[..n], shape[..n]) && Fits(b[..n], shape[..n]);
      ShapeOrder(a[..n], b[..n], shape[..n]);
      assert a == a[..n] + [a[n]] && b == b[..n] + [b[n]];
      LexSnoc(a[..n], b[..n], a[n], b[n]);
    }
  }

  // ----- Times "HH:MM" -----

  const TimeShape: string := "99:99"

  /** A zero-padded 24-hour wall-clock time, as an `<input type="time">` produces it. */
  predicate IsTime(s: string)
  {
    Fits(s, TimeShape) && 10 * DigitOf(s[0]) + DigitOf(s[1]) <= 23 && DigitOf(s[3]) <= 5
  }

  function Hours(s: string): nat
    requires IsTime(s)
  {
    10 * DigitOf(s[0]) + DigitOf(s[1])
  }

  function MinuteOfHour(s: string): nat
    requires IsTime(s)
  {
    10 * DigitOf(s[3]) + DigitOf(s[4])
  }

  /** Minutes since midnight. */
  function Minutes(s: string): (m: nat)
    requires IsTime(s)
    ensures m < 24 * 60
  {
    60 * Hours(s) + MinuteOfHour(s)
  }

  lemma TimeDigits(s: string)
    requires IsTime(s)
    ensures DigitValue(s, TimeShape) == 100 * Hours(s) + MinuteOfHour(s)
  {
    assert TimeShape[..4] == "99:9" && "99:9"[..3] == "99:" && "99:"[..2] == "99";
    assert "99"[..1] == "9" && "9"[..0] == "";
    assert s[..4][..3] == s[..3] && s[..3][..2] == s[..2] && s[..2][..1] == s[..1] && s[..1][..0] == [];
    assert Fits(s[..1], "9") && Fits(s[..2], "99") && Fits(s[..3], "99:") && Fits(s[..4], "99:9");
    assert DigitValue(s[..1], "9") == DigitOf(s[0]);
    assert DigitValue(s[..2], "99") == 10 * DigitOf(s[0]) + DigitOf(s[1]);
    assert DigitValue(s[..3], "99:") == DigitValue(s[..2], "99");
    assert DigitValue(s[..4], "99:9") == 10 * DigitValue(s[..3], "99:") + DigitOf(s[3]);
  }

  /** For well-formed times, the string comparison the store uses is the order of the clock. */
  lemma TimeOrder(a: string, b: string)
    requires IsTime(a) && IsTime(b)
    ensures LexLess(a, b) <==> Minutes(a) < Minutes(b)
    ensures a == b <==> Minutes(a) == Minutes(b)
  {
    ShapeOrder(a, b, TimeShape);
    TimeDigits(a);
    TimeDigits(b);
    ClockCompare(Hours(a), MinuteOfHour(a), Hours(b), MinuteOfHour(b));
  }

  /** With minutes below 60, comparing 100h+m is comparing 60h+m. */
  lemma ClockCompare(h: nat, m: nat, h': nat, m': nat)
    requires m < 60 && m' < 60
    ensures 100 * h + m < 100 * h' + m' <==> 60 * h + m < 60 * h' + m'
    ensures 100 * h + m == 100 * h' + m' <==> 60 * h + m == 60 * h' + m'
  {
    if h < h' {
      assert 100 * h + m < 100 * h' + m' && 60 * h + m < 60 * h' + m';
    } else if h > h' {
      assert 100 * h + m > 100 * h' + m' && 60 * h + m > 60 * h' + m';
    }
  }

  // ----- Dates "YYYY-MM-DD" -----

  const DateShape: string := "9999-99-99"

  /** A zero-padded ISO calendar date, the date part of an ISO timestamp. */
  predicate IsDate(s: string)
  {
    Fits(s, DateShape)
  }

  /** The date read as the eight-digit number YYYYMMDD; later days have larger numbers. */
  function DayNumber(s: string): nat
    requires IsDate(s)
  {
    DigitValue(s, DateShape)
  }

  /** For well-formed dates, the string comparison is the order of the calendar. */
  lemma DateOrder(a: string, b: string)
    requires IsDate(a) && IsDate(b)
    ensures LexLess(a, b) <==> DayNumber(a) < DayNumber(b)
    ensures a == b <==> DayNumber(a) == DayNumber(b)
  {
    ShapeOrder(a, b, DateShape);
  }
}
