/**
 * Landmark group keys written by the detection pipeline: the prefix, an
 * underscore and the detection index in decimal, zero-padded to the number
 * of digits of the detection count; and the map a sequence of detections
 * is stored under.
 */
module GroupKeys {

  predicate IsDigit(c: char)
  {
    '0' <= c <= '9'
  }

  predicate AllDigits(s: string)
  {
    forall i :: 0 <= i < |s| ==> IsDigit(s[i])
  }

  function DigitChar(d: nat): (c: char)
    requires d < 10
  {
    ('0' as int + d) as char
  }

  function DigitValue(c: char): nat
    requires IsDigit(c)
  {
    c as int - '0' as int
  }

  /** str(n) for a non-negative integer: its decimal digits, most significant first. */
  function DecimalString(n: nat): string
    decreases n
  {
    if n < 10 then [DigitChar(n)] else DecimalString(n / 10) + [DigitChar(n % 10)]
  }

  /** len(str(n)): the padding width used for n results. */
  function NumDigits(n: nat): nat
  {
    |DecimalString(n)|
  }

  function Zeros(k: nat): string
  {
    seq(k, _ => '0')
  }

  /** '{:0{width}d}'.format(n): the decimal digits of n, left-padded with zeros to at least width. */
  function ZeroPad(n: nat, width: nat): string
  {
    var digits := DecimalString(n);
    if |digits| >= width then digits else Zeros(width - |digits|) + digits
  }

  /** The key of the i-th detection: prefix, an underscore, and i zero-padded to width. */
  function GroupKey(prefix: string, i: nat, width: nat): string
  {
    prefix + "_" + ZeroPad(i, width)
  }

  /** int(s) for a string of decimal digits (leading zeros allowed). */
  function DecimalValue(s: string): nat
    requires AllDigits(s)
    decreases |s|
  {
    if s == [] then 0 else DecimalValue(s[..|s| - 1]) * 10 + DigitValue(s[|s| - 1])
  }

  function Pow10(k: nat): nat
  {
    if k == 0 then 1 else 10 * Pow10(k - 1)
  }

  /** Python's ordering of strings: lexicographic by code point. */
  predicate LexLess(a: string, b: string)
    decreases |a|
  {
    |b| > 0 && (|a| == 0 || a[0] < b[0] || (a[0] == b[0] && LexLess(a[1..], b[1..])))
  }

  // ----- decimal strings -----

  lemma DigitRoundTrip(d: nat)
    requires d < 10
    ensures IsDigit(DigitChar(d)) && DigitValue(DigitChar(d)) == d
  {
  }

  /** str(n) is a non-empty string of digits. */
  lemma {:induction false} DecimalStringDigits(n: nat)
    ensures |DecimalString(n)| >= 1 && AllDigits(DecimalString(n))
    decreases n
  {
    if n >= 10 {
      DecimalStringDigits(n / 10);
    }
  }

  /** Parsing str(n) gives back n. */
  lemma {:induction false} DecimalStringValue(n: nat)
    ensures AllDigits(DecimalString(n)) && DecimalValue(DecimalString(n)) == n
    decreases n
  {
    DecimalStringDigits(n);
    var s := DecimalString(n);
    if n < 10 {
      assert s[..0] == [];
    } else {
      DecimalStringValue(n / 10);
      assert s[..|s| - 1] == DecimalString(n / 10);
      DigitRoundTrip(n % 10);
    }
  }

  /** len(str(m)) <= len(str(n)) whenever m <= n. */
  lemma {:induction false} NumDigitsMonotone(m: nat, n: nat)
    requires m <= n
    ensures NumDigits(m) <= NumDigits(n)
    decreases n
  {
    if m >= 10 {
      NumDigitsMonotone(m / 10, n / 10);
    } else {
      DecimalStringDigits(n);
    }
  }

  /** Every index below n has at most len(str(n)) digits, so it fits the padding width. */
  lemma IndexFitsWidth(i: nat, n: nat)
    requires i < n
    ensures NumDigits(i) <= NumDigits(n)
  {
    NumDigitsMonotone(i, n);
  }

  /** For no results or one to nine results the width is 1; for 10 to 99 results it is 2. */
  lemma NumDigitsSmall(n: nat)
    ensures n < 10 ==> NumDigits(n) == 1
    ensures 10 <= n < 100 ==> NumDigits(n) == 2
  {
    if 10 <= n < 100 {
      assert DecimalString(n) == DecimalString(n / 10) + [DigitChar(n % 10)];
      assert |DecimalString(n / 10)| == 1;
    }
  }

  // ----- zero padding -----

  lemma ZerosDigits(k: nat)
    ensures |Zeros(k)| == k && AllDigits(Zeros(k))
  {
  }

  /** The padded string is all digits and exactly width long unless n has more digits. */
  lemma ZeroPadShape(n: nat, width: nat)
    ensures AllDigits(ZeroPad(n, width))
    ensures |ZeroPad(n, width)| == if NumDigits(n) >= width then NumDigits(n) else width
    ensures NumDigits(n) <= width ==> |ZeroPad(n, width)| == width
  {
    DecimalStringDigits(n);
    ZerosDigits(width);
  }

  lemma {:induction false} ZerosValue(k: nat)
    ensures AllDigits(Zeros(k)) && DecimalValue(Zeros(k)) == 0
    decreases k
  {
    if k > 0 {
      ZerosValue(k - 1);
      assert Zeros(k)[..k - 1] == Zeros(k - 1);
    }
  }

  /** Leading zeros do not change the value of a digit string. */
  lemma {:induction false} LeadingZerosValue(k: nat, s: string)
    requires AllDigits(s)
    ensures AllDigits(Zeros(k) + s) && DecimalValue(Zeros(k) + s) == DecimalValue(s)
    decreases |s|
  {
    var t := Zeros(k) + s;
    if s == [] {
      assert t == Zeros(k);
      ZerosValue(k);
    } else {
      LeadingZerosValue(k, s[..|s| - 1]);
      assert t[..|t| - 1] == Zeros(k) + s[..|s| - 1];
      assert t[|t| - 1] == s[|s| - 1];
    }
  }

  /** Parsing the padded index gives back the index, whatever the width. */
  lemma ZeroPadValue(n: nat, width: nat)
    ensures AllDigits(ZeroPad(n, width)) && DecimalValue(ZeroPad(n, width)) == n
  {
    DecimalStringValue(n);
    var digits := DecimalString(n);
    if |digits| < width {
      LeadingZerosValue(width - |digits|, digits);
    }
  }

  // ----- keys -----

  /** Distinct indices give distinct keys, for any prefix and width. */
  lemma GroupKeyInjective(prefix: string, i: nat, j: nat, width: nat)
    requires GroupKey(prefix, i, width) == GroupKey(prefix, j, width)
    ensures i == j
  {
    var k := |prefix| + 1;
    assert GroupKey(prefix, i, width)[k..] == ZeroPad(i, width);
    assert GroupKey(prefix, j, width)[k..] == ZeroPad(j, width);
    ZeroPadValue(i, width);
    ZeroPadValue(j, width);
  }

  lemma {:induction false} ValueOfFront(c: char, t: string)
    requires IsDigit(c) && AllDigits(t)
    ensures AllDigits([c] + t)
    ensures DecimalValue([c] + t) == DigitValue(c) * Pow10(|t|) + DecimalValue(t)
    decreases |t|
  {
    var u := [c] + t;
    if t == [] {
      assert u[..0] == [];
    } else {
      var t' := t[..|t| - 1];
      ValueOfFront(c, t');
      assert u[..|u| - 1] == [c] + t';
      assert u[|u| - 1] == t[|t| - 1];
      var dc, p, v := DigitValue(c), Pow10(|t'|), DecimalValue(t');
      calc {
        DecimalValue(u);
        (dc * p + v) * 10 + DigitValue(t[|t| - 1]);
        dc * (10 * p) + (v * 10 + DigitValue(t[|t| - 1]));
        dc * Pow10(|t|) + DecimalValue(t);
      }
    }
  }

  lemma {:induction false} ValueBelowPow10(s: string)
    requires AllDigits(s)
    ensures DecimalValue(s) < Pow10(|s|)
    decreases |s|
  {
    if s != [] {
      var s' := s[..|s| - 1];
      ValueBelowPow10(s');
      var v, p := DecimalValue(s'), Pow10(|s'|);
      assert v * 10 <= (p - 1) * 10;
    }
  }

  lemma LeadingDigitDominates(da: nat, db: nat, va: nat, vb: nat, p: nat)
    requires da < db && va < p
    ensures da * p + va < db * p + vb
  {
    assert (da + 1) * p <= db * p;
  }

  /** On digit strings of one length, string order is numeric order. */
  lemma {:induction false} LexLessIsNumeric(a: string, b: string)
    requires |a| == |b| && AllDigits(a) && AllDigits(b)
    ensures LexLess(a, b) <==> DecimalValue(a) < DecimalValue(b)
    decreases |a|
  {
    if |a| > 0 {
      var a', b' := a[1..], b[1..];
      assert a == [a[0]] + a' && b == [b[0]] + b';
      ValueOfFront(a[0], a');
      ValueOfFront(b[0], b');
      ValueBelowPow10(a');
      ValueBelowPow10(b');
      var p := Pow10(|a'|);
      if a[0] == b[0] {
        LexLessIsNumeric(a', b');
      } else if a[0] < b[0] {
        LeadingDigitDominates(DigitValue(a[0]), DigitValue(b[0]), DecimalValue(a'), DecimalValue(b'), p);
      } else {
        LeadingDigitDominates(DigitValue(b[0]), DigitValue(a[0]), DecimalValue(b'), DecimalValue(a'), p);
      }
    }
  }

  /** A common prefix does not change the order of two strings. */
  lemma {:induction false} LexLessCommonPrefix(x: string, a: string, b: string)
    ensures LexLess(x + a, x + b) <==> LexLess(a, b)
    decreases |x|
  {
    if |x| > 0 {
      assert (x + a)[0] == x[0] == (x + b)[0];
      assert (x + a)[1..] == x[1..] + a;
      assert (x + b)[1..] == x[1..] + b;
      assert LexLess(x + a, x + b) == LexLess((x + a)[1..], (x + b)[1..]);
      LexLessCommonPrefix(x[1..], a, b);
    } else {
      assert x + a == a && x + b == b;
    }
  }

  /**
   * Keys whose indices fit the width all have the same length, and they sort
   * as strings exactly in index order.
   */
  lemma GroupKeyOrder(prefix: string, i: nat, j: nat, width: nat)
    requires NumDigits(i) <= width && NumDigits(j) <= width
    ensures |GroupKey(prefix, i, width)| == |prefix| + 1 + width
    ensures LexLess(GroupKey(prefix, i, width), GroupKey(prefix, j, width)) <==> i < j
  {
    ZeroPadShape(i, width);
    ZeroPadShape(j, width);
    ZeroPadValue(i, width);
    ZeroPadValue(j, width);
    LexLessIsNumeric(ZeroPad(i, width), ZeroPad(j, width));
    LexLessCommonPrefix(prefix + "_", ZeroPad(i, width), ZeroPad(j, width));
  }

  /**
   * For n results padded to len(str(n)) digits, keys i and j are equally long
   * and key i sorts before key j exactly when i < j.
   */
  lemma DetectionKeysSorted(prefix: string, n: nat, i: nat, j: nat)
    requires i < n && j < n
    ensures |GroupKey(prefix, i, NumDigits(n))| == |GroupKey(prefix, j, NumDigits(n))|
    ensures LexLess(GroupKey(prefix, i, NumDigits(n)), GroupKey(prefix, j, NumDigits(n))) <==> i < j
  {
    IndexFitsWidth(i, n);
    IndexFitsWidth(j, n);
    GroupKeyOrder(prefix, i, j, NumDigits(n));
    GroupKeyOrder(prefix, j, i, NumDigits(n));
  }

  // ----- the landmarks written for a sequence of results -----

  /** The entries `landmarks[GroupKey(prefix, i, width)] = values[i]` written in index order. */
  function Entries<T>(prefix: string, width: nat, values: seq<T>): map<string, T>
    decreases |values|
  {
    if values == [] then map[]
    else Entries(prefix, width, values[..|values| - 1])[GroupKey(prefix, |values| - 1, width) := values[|values| - 1]]
  }

  /** The keys written are exactly the keys of the indices 0 .. |values|-1. */
  lemma {:induction false} EntriesKeys<T>(prefix: string, width: nat, values: seq<T>)
    ensures Entries(prefix, width, values).Keys == set i | 0 <= i < |values| :: GroupKey(prefix, i, width)
    decreases |values|
  {
    if values != [] {
      EntriesKeys(prefix, width, values[..|values| - 1]);
    }
  }

  /** The value stored under key i is the i-th result. */
  lemma {:induction false} EntriesLookup<T>(prefix: string, width: nat, values: seq<T>, i: nat)
    requires i < |values|
    ensures GroupKey(prefix, i, width) in Entries(prefix, width, values)
    ensures Entries(prefix, width, values)[GroupKey(prefix, i, width)] == values[i]
    decreases |values|
  {
    var last := |values| - 1;
    if i < last {
      EntriesLookup(prefix, width, values[..last], i);
      if GroupKey(prefix, i, width) == GroupKey(prefix, last, width) {
        GroupKeyInjective(prefix, i, last, width);
      }
    }
  }

  /** Exactly one entry is written per result; none for no results. */
  lemma {:induction false} EntriesSize<T>(prefix: string, width: nat, values: seq<T>)
    ensures |Entries(prefix, width, values)| == |values|
    decreases |values|
  {
    if values != [] {
      var last := |values| - 1;
      var before := Entries(prefix, width, values[..last]);
      EntriesSize(prefix, width, values[..last]);
      EntriesKeys(prefix, width, values[..last]);
      if GroupKey(prefix, last, width) in before {
        var i :| 0 <= i < last && GroupKey(prefix, i, width) == GroupKey(prefix, last, width);
        GroupKeyInjective(prefix, i, last, width);
      }
    }
  }

  /** The key examples: 12 results give prefix_00 .. prefix_11; one result gives prefix_0. */
  lemma KeyExamples()
    ensures GroupKey("prefix", 0, NumDigits(12)) == "prefix_00"
    ensures GroupKey("prefix", 11, NumDigits(12)) == "prefix_11"
    ensures GroupKey("object", 0, NumDigits(1)) == "object_0"
  {
    assert DecimalString(12) == "12";
    assert DecimalString(11) == "11";
    assert Zeros(1) == "0";
  }
}
