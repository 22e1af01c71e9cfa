/**
 * The JavaScript and lodash built-ins the plugin leans on, stated as
 * functions: string order, sorting, de-duplication, `parseInt`, number
 * printing and trailing-whitespace trimming.
 */
module Text {

  datatype Option<T> = None | Some(value: T)

  /** JavaScript's `<` on strings: lexicographic order of characters. */
  predicate Less(a: string, b: string)
    decreases |a|
  {
    if a == [] then b != []
    else if b == [] then false
    else if a[0] != b[0] then a[0] < b[0]
    else Less(a[1..], b[1..])
  }

  lemma {:induction false} LessIrreflexive(a: string)
    ensures !Less(a, a)
    decreases |a|
  {
    if a != [] {
      LessIrreflexive(a[1..]);
    }
  }

  lemma {:induction false} LessTransitive(a: string, b: string, c: string)
    requires Less(a, b) && Less(b, c)
    ensures Less(a, c)
    decreases |a|
  {
    if a != [] && b != [] && c != [] && a[0] == b[0] && b[0] == c[0] {
      LessTransitive(a[1..], b[1..], c[1..]);
    }
  }

  lemma {:induction false} LessTotal(a: string, b: string)
    ensures a == b || Less(a, b) || Less(b, a)
    decreases |a|
  {
    if a != [] && b != [] && a[0] == b[0] {
      LessTotal(a[1..], b[1..]);
      if a[1..] == b[1..] {
        assert a == [a[0]] + a[1..] && b == [b[0]] + b[1..];
      }
    }
  }

  lemma {:induction false} LessAsymmetric(a: string, b: string)
    requires Less(a, b)
    ensures !Less(b, a)
    decreases |a|
  {
    if a != [] && b != [] && a[0] == b[0] {
      LessAsymmetric(a[1..], b[1..]);
    }
  }

  /** `s` is in non-decreasing order of `key`. */
  ghost predicate SortedBy<T>(s: seq<T>, key: T -> string)
  {
    forall i, j :: 0 <= i < j < |s| ==> !Less(key(s[j]), key(s[i]))
  }

  /** Inserts `x` before the first element whose key is not below its own. */
  function InsertBy<T>(x: T, s: seq<T>, key: T -> string): (r: seq<T>)
    ensures multiset(r) == multiset(s) + multiset{x}
    ensures |r| == |s| + 1
  {
    if s == [] || !Less(key(s[0]), key(x)) then [x] + s
    else
      assert s == [s[0]] + s[1..];
      [s[0]] + InsertBy(x, s[1..], key)
  }

  /** A stable insertion sort by a string key: what `Array.prototype.sort`
      and lodash `sortBy` give for the inputs used here. */
  function SortBy<T>(s: seq<T>, key: T -> string): (r: seq<T>)
    ensures multiset(r) == multiset(s)
    ensures |r| == |s|
  {
    if s == [] then []
    else
      assert s == [s[0]] + s[1..];
      InsertBy(s[0], SortBy(s[1..], key), key)
  }

  lemma {:induction false} InsertBySorted<T>(x: T, s: seq<T>, key: T -> string)
    requires SortedBy(s, key)
    ensures SortedBy(InsertBy(x, s, key), key)
    decreases |s|
  {
    var r := InsertBy(x, s, key);
    if s == [] || !Less(key(s[0]), key(x)) {
      forall i, j | 0 <= i < j < |r| ensures !Less(key(r[j]), key(r[i])) {
        if i == 0 {
          assert r[j] == s[j - 1];
          if j - 1 > 0 {
            assert !Less(key(s[j - 1]), key(s[0]));
          }
          LessTotal(key(s[0]), key(x));
          if Less(key(r[j]), key(x)) {
            if key(s[j - 1]) != key(s[0]) {
              LessTotal(key(s[j - 1]), key(s[0]));
              LessTransitive(key(s[0]), key(s[j - 1]), key(x));
            }
          }
        } else {
          assert r[i] == s[i - 1] && r[j] == s[j - 1];
        }
      }
    } else {
      var t := InsertBy(x, s[1..], key);
      InsertBySorted(x, s[1..], key);
      assert r == [s[0]] + t;
      forall i, j | 0 <= i < j < |r| ensures !Less(key(r[j]), key(r[i])) {
        if i == 0 {
          assert r[j] in multiset(t);
          assert r[j] in multiset(s[1..]) + multiset{x};
          if r[j] == x {
            LessAsymmetric(key(s[0]), key(x));
          } else {
            assert r[j] in s[1..];
            var k :| 0 <= k < |s[1..]| && s[1..][k] == r[j];
            assert s[k + 1] == r[j];
          }
        } else {
          assert r[i] == t[i - 1] && r[j] == t[j - 1];
        }
      }
    }
  }

  lemma {:induction false} SortBySorted<T>(s: seq<T>, key: T -> string)
    ensures SortedBy(SortBy(s, key), key)
    decreases |s|
  {
    if s != [] {
      SortBySorted(s[1..], key);
      InsertBySorted(s[0], SortBy(s[1..], key), key);
    }
  }

  /** `s` has no repeated element. */
  ghost predicate NoDuplicates<T>(s: seq<T>)
  {
    forall i, j :: 0 <= i < j < |s| ==> s[i] != s[j]
  }

  /** The elements of `r` occur in `s`, and `r` lists them in the order of
      their first occurrences there. */
  predicate FirstOccurrenceOrder(r: seq<string>, s: seq<string>)
  {
    forall i, j :: 0 <= i < j < |r| ==>
      IndexOf(s, r[i]).Some? && IndexOf(s, r[j]).Some? && IndexOf(s, r[i]).value < IndexOf(s, r[j]).value
  }

  /** lodash `uniq`: the first occurrence of each element, in order. Every
      element is kept once, and the kept elements are in the order of their
      first occurrences in `s`. */
  function Uniq(s: seq<string>): (r: seq<string>)
    ensures forall x :: x in r <==> x in s
    ensures NoDuplicates(r)
    ensures FirstOccurrenceOrder(r, s)
    decreases |s|
  {
    if s == [] then []
    else
      var init := s[..|s| - 1];
      var u := Uniq(init);
      var x := s[|s| - 1];
      assert s == init + [x];
      assert forall y :: y in s <==> y in init || y == x;
      IndexOfKept(init, [x]);
      if x in u then u
      else
        IndexOfAppended(init, x);
        u + [x]
  }

  /** Appending text leaves the first index of an element already present. */
  lemma {:induction false} IndexOfKept(p: seq<string>, q: seq<string>)
    ensures forall y :: y in p ==> IndexOf(p + q, y) == IndexOf(p, y)
    decreases |p|
  {
    if p != [] {
      IndexOfKept(p[1..], q);
      assert (p + q)[1..] == p[1..] + q;
    }
  }

  /** A new element appended at the end is first found there. */
  lemma IndexOfAppended(p: seq<string>, x: string)
    requires x !in p
    ensures IndexOf(p + [x], x) == Some(|p|)
  {
    assert (p + [x])[..|p|] == p;
  }

  /** `s` with every occurrence of `x` removed (lodash `pull`). */
  function Without(s: seq<string>, x: string): (r: seq<string>)
    ensures x !in r
    ensures forall y :: y != x ==> (y in r <==> y in s)
    ensures forall y :: y != x ==> multiset(r)[y] == multiset(s)[y]
  {
    if s == [] then []
    else
      assert s == [s[0]] + s[1..];
      if s[0] == x then Without(s[1..], x) else [s[0]] + Without(s[1..], x)
  }

  /** `Array.prototype.indexOf`: the first index holding `x`. */
  function IndexOf(s: seq<string>, x: string): (r: Option<nat>)
    ensures r.None? <==> x !in s
    ensures r.Some? ==> r.value < |s| && s[r.value] == x && x !in s[..r.value]
  {
    if s == [] then None
    else if s[0] == x then Some(0)
    else
      match IndexOf(s[1..], x)
      case None => None
      case Some(k) =>
        assert s[..k + 1] == [s[0]] + s[1..][..k];
        Some(k + 1)
  }

  /** `Array.prototype.splice(k, 0, x)`: insert `x` at `k`, or at the end
      when `k` is past it. */
  function InsertAt<T>(s: seq<T>, k: nat, x: T): (r: seq<T>)
  {
    if k <= |s| then s[..k] + [x] + s[k..] else s + [x]
  }

  predicate IsDigit(c: char)
  {
    '0' <= c <= '9'
  }

  predicate AllDigits(s: string)
  {
    forall i :: 0 <= i < |s| ==> IsDigit(s[i])
  }

  function DigitChar(d: nat): char
    requires d < 10
  {
    ['0', '1', '2', '3', '4', '5', '6', '7', '8', '9'][d]
  }

  function DigitValue(c: char): nat
    requires IsDigit(c)
  {
    (c as int - '0' as int) as nat
  }

  /** The number written by a string of decimal digits. */
  function DigitsValue(s: string): nat
    requires AllDigits(s)
    decreases |s|
  {
    if s == [] then 0 else 10 * DigitsValue(s[..|s| - 1]) + DigitValue(s[|s| - 1])
  }

  /** The decimal text of a natural number, as template literals print it. */
  function NatText(n: nat): (r: string)
    ensures |r| > 0 && AllDigits(r)
    decreases n
  {
    if n < 10 then [DigitChar(n)] else NatText(n / 10) + [DigitChar(n % 10)]
  }

  /** The decimal text of an integer, with a leading `-` when negative. */
  function IntText(i: int): string
  {
    if i < 0 then "-" + NatText(-i) else NatText(i)
  }

  /** `n` written with at least `width` digits, zero-padded on the left. */
  function Padded(n: nat, width: nat): (r: string)
    ensures AllDigits(r)
    ensures |r| >= width
  {
    var t := NatText(n);
    if |t| >= width then t else seq(width - |t|, _ => '0') + t
  }

  lemma {:induction false} NatTextValue(n: nat)
    ensures DigitsValue(NatText(n)) == n
    decreases n
  {
    if n >= 10 {
      NatTextValue(n / 10);
      var t := NatText(n);
      assert t[..|t| - 1] == NatText(n / 10);
    }
  }

  lemma {:induction false} DigitsValueLeadingZeros(z: nat, t: string)
    requires AllDigits(t)
    ensures AllDigits(seq(z, _ => '0') + t)
    ensures DigitsValue(seq(z, _ => '0') + t) == DigitsValue(t)
    decreases |t|
  {
    var s := seq(z, _ => '0') + t;
    if t == [] {
      assert s == seq(z, _ => '0');
      AllZeros(z);
    } else {
      DigitsValueLeadingZeros(z, t[..|t| - 1]);
      assert s[..|s| - 1] == seq(z, _ => '0') + t[..|t| - 1];
    }
  }

  lemma {:induction false} AllZeros(z: nat)
    ensures DigitsValue(seq(z, _ => '0')) == 0
    decreases z
  {
    if z > 0 {
      AllZeros(z - 1);
      assert seq(z, _ => '0')[..z - 1] == seq(z - 1, _ => '0');
    }
  }

  /** Zero-padded numbers read back to themselves. */
  lemma PaddedValue(n: nat, width: nat)
    ensures DigitsValue(Padded(n, width)) == n
  {
    NatTextValue(n);
    var t := NatText(n);
    if |t| < width {
      DigitsValueLeadingZeros(width - |t|, t);
    }
  }

  /** `n` below `10^width` pads to exactly `width` digits. */
  lemma {:induction false} PaddedWidth(n: nat, width: nat)
    requires 1 <= width && n < Pow10(width)
    ensures |Padded(n, width)| == width
  {
    NatTextLength(n, width);
  }

  lemma DigitRoundTrip(c: char)
    requires IsDigit(c)
    ensures DigitChar(DigitValue(c)) == c
  {
  }

  /** Zero-padding the value of a digit string to the string's own width
      gives the string back: fixed-width numerals round-trip. */
  lemma {:induction false} PaddedDigits(ds: string)
    requires |ds| >= 1 && AllDigits(ds)
    ensures Padded(DigitsValue(ds), |ds|) == ds
    decreases |ds|
  {
    var w := |ds|;
    var c := ds[w - 1];
    var init := ds[..w - 1];
    assert ds == init + [c];
    DigitRoundTrip(c);
    if w > 1 {
      PaddedDigits(init);
      if DigitsValue(init) == 0 {
        PaddedAfterZeros(init, c);
      } else {
        PaddedAfterValue(init, c);
      }
    }
  }

  /** A digit after zeros: the value is that digit, padded back with the
      zeros. */
  lemma PaddedAfterZeros(init: string, c: char)
    requires |init| >= 1 && AllDigits(init) && IsDigit(c)
    requires DigitsValue(init) == 0 && Padded(0, |init|) == init
    ensures AllDigits(init + [c]) && Padded(DigitsValue(init + [c]), |init| + 1) == init + [c]
  {
    var ds := init + [c];
    assert ds[..|ds| - 1] == init;
    assert DigitsValue(ds) == DigitValue(c);
    PaddedZeros(|init|);
    PaddedDigit(c, |init|);
  }

  /** Zero padded to a positive width is that many zeros. */
  lemma PaddedZeros(w: nat)
    requires w >= 1
    ensures Padded(0, w) == seq(w, _ => '0')
  {
    assert NatText(0) == "0";
    if w > 1 {
      assert seq(w - 1, _ => '0') + "0" == seq(w, _ => '0');
    }
  }

  /** A single digit padded to a wider width is zeros then that digit. */
  lemma PaddedDigit(c: char, w: nat)
    requires IsDigit(c) && w >= 1
    ensures Padded(DigitValue(c), w + 1) == seq(w, _ => '0') + [c]
  {
    DigitRoundTrip(c);
    assert NatText(DigitValue(c)) == [c];
  }

  /** A digit after a non-zero value: the value's text grows by that
      digit. */
  lemma PaddedAfterValue(init: string, c: char)
    requires |init| >= 1 && AllDigits(init) && IsDigit(c)
    requires DigitsValue(init) > 0 && Padded(DigitsValue(init), |init|) == init
    ensures AllDigits(init + [c]) && Padded(DigitsValue(init + [c]), |init| + 1) == init + [c]
  {
    var ds := init + [c];
    assert ds[..|ds| - 1] == init;
    assert DigitsValue(ds) == 10 * DigitsValue(init) + DigitValue(c);
    DigitRoundTrip(c);
    NatTextSnoc(DigitsValue(init), DigitValue(c));
    PaddedSnoc(DigitsValue(init), 10 * DigitsValue(init) + DigitValue(c), |init|, c);
  }

  /** Writing one more digit after a non-zero number. */
  lemma NatTextSnoc(n: nat, d: nat)
    requires n > 0 && d < 10
    ensures NatText(10 * n + d) == NatText(n) + [DigitChar(d)]
  {
    assert (10 * n + d) / 10 == n && (10 * n + d) % 10 == d;
  }

  /** Padding a text one character longer to one more place. */
  lemma PaddedSnoc(n: nat, m: nat, w: nat, c: char)
    requires NatText(m) == NatText(n) + [c]
    ensures Padded(m, w + 1) == Padded(n, w) + [c]
  {
    var t := NatText(n);
    if |t| < w {
      assert seq(w + 1 - |t + [c]|, _ => '0') == seq(w - |t|, _ => '0');
      assert seq(w - |t|, _ => '0') + (t + [c]) == (seq(w - |t|, _ => '0') + t) + [c];
    }
  }

  lemma {:induction false} DigitsValueBound(s: string)
    requires AllDigits(s)
    ensures DigitsValue(s) < Pow10(|s|)
    decreases |s|
  {
    if s != [] {
      DigitsValueBound(s[..|s| - 1]);
    }
  }

  function Pow10(k: nat): (r: nat)
    ensures r >= 1
  {
    if k == 0 then 1 else 10 * Pow10(k - 1)
  }

  lemma {:induction false} NatTextLength(n: nat, width: nat)
    requires 1 <= width && n < Pow10(width)
    ensures |NatText(n)| <= width
    decreases n
  {
    if n >= 10 {
      assert Pow10(1) == 10;
      assert width != 1;
      NatTextLength(n / 10, width - 1);
    }
  }

  /** The longest prefix of `s` made of digits. */
  function LeadingDigits(s: string): (r: string)
    ensures AllDigits(r) && |r| <= |s| && r == s[..|r|]
    ensures |r| < |s| ==> !IsDigit(s[|r|])
  {
    if s == [] || !IsDigit(s[0]) then []
    else [s[0]] + LeadingDigits(s[1..])
  }

  /** The whitespace that JavaScript's `\s` and `parseInt` skip. */
  predicate IsSpace(c: char)
  {
    || c == ' ' || c == '\t' || c == '\n' || c == '\r' || c == '\U{000B}' || c == '\U{000C}'
    || c == '\U{00A0}' || c == '\U{1680}' || ('\U{2000}' <= c <= '\U{200A}')
    || c == '\U{2028}' || c == '\U{2029}' || c == '\U{202F}' || c == '\U{205F}'
    || c == '\U{3000}' || c == '\U{FEFF}'
  }

  function SkipSpaces(s: string): (r: string)
    ensures |r| <= |s| && r == s[|s| - |r|..]
    ensures r == [] || !IsSpace(r[0])
  {
    if s != [] && IsSpace(s[0]) then SkipSpaces(s[1..]) else s
  }

  /** `parseInt(s)` in base 10: leading whitespace, an optional sign, then
      the leading digits; `None` stands for NaN. */
  function ParseInt(s: string): (r: Option<int>)
  {
    var t := SkipSpaces(s);
    var neg := t != [] && t[0] == '-';
    var u := if t != [] && (t[0] == '-' || t[0] == '+') then t[1..] else t;
    var ds := LeadingDigits(u);
    if ds == [] then None
    else
      var v: int := DigitsValue(ds);
      Some(if neg then -v else v)
  }

  /** A printed natural number parses back to itself, whatever non-digit
      text follows it. */
  lemma ParseIntNatText(n: nat, rest: string)
    requires rest == [] || !IsDigit(rest[0])
    ensures ParseInt(NatText(n) + rest) == Some(n)
  {
    var t := NatText(n);
    var s := t + rest;
    assert !IsSpace(s[0]) && s[0] != '-' && s[0] != '+' by {
      assert s[0] == t[0];
    }
    assert SkipSpaces(s) == s;
    LeadingDigitsOf(t, rest);
    NatTextValue(n);
  }

  lemma {:induction false} LeadingDigitsOf(t: string, rest: string)
    requires AllDigits(t)
    requires rest == [] || !IsDigit(rest[0])
    ensures LeadingDigits(t + rest) == t
    decreases |t|
  {
    if t != [] {
      LeadingDigitsOf(t[1..], rest);
      assert (t + rest)[1..] == t[1..] + rest;
      assert t == [t[0]] + t[1..];
    }
  }

  /** `String.prototype.split(sep)`: the pieces between separators. */
  function Split(s: string, sep: char): (r: seq<string>)
    ensures |r| > 0
    ensures forall k :: 0 <= k < |r| ==> sep !in r[k]
    decreases |s|
  {
    if s == [] then [""]
    else
      var tail := Split(s[1..], sep);
      if s[0] == sep then [""] + tail else [[s[0]] + tail[0]] + tail[1..]
  }

  /** `s.replace(/\s+$/, '')`: `s` without its trailing whitespace. */
  function TrimEnd(s: string): (r: string)
    ensures |r| <= |s| && r == s[..|r|]
    ensures r == [] || !IsSpace(r[|r| - 1])
    ensures forall k :: |r| <= k < |s| ==> IsSpace(s[k])
    decreases |s|
  {
    if s != [] && IsSpace(s[|s| - 1]) then TrimEnd(s[..|s| - 1]) else s
  }

  /** `s.endsWith(suffix)`. */
  predicate EndsWith(s: string, suffix: string)
  {
    |suffix| <= |s| && s[|s| - |suffix|..] == suffix
  }

  /** `s.replace(/\.md$/, '')`: `s` without a trailing `.md`. */
  function StripMd(s: string): (r: string)
    ensures EndsWith(s, ".md") ==> r + ".md" == s
    ensures !EndsWith(s, ".md") ==> r == s
  {
    if EndsWith(s, ".md") then s[..|s| - 3] else s
  }

  /** `arr.join(sep)`. */
  function Join(parts: seq<string>, sep: string): string
  {
    if parts == [] then ""
    else if |parts| == 1 then parts[0]
    else parts[0] + sep + Join(parts[1..], sep)
  }
}
