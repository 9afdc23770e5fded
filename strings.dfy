/** The string operations the storefront uses: `length`, `toLowerCase`,
    `includes`, `split`, `join` and the decimal rendering of a number with
    `slice(-k)`. */
module Strings {

  // ---------------------------------------------------------------------------
  // length, in UTF-16 code units

  /** How many UTF-16 code units a character takes: two for a character
      beyond U+FFFF (a surrogate pair), one for any other. */
  function CodeUnits(c: char): nat
  {
    if c as int < 0x1_0000 then 1 else 2
  }

  /** `s.length`: the number of UTF-16 code units, not of characters. */
  function Utf16Length(s: string): nat
  {
    if s == [] then 0 else Utf16Length(s[..|s| - 1]) + CodeUnits(s[|s| - 1])
  }

  /** A string is at least as long in code units as in characters and at
      most twice as long, and exactly as long when no character lies beyond
      U+FFFF. */
  lemma {:induction false} Utf16LengthBounds(s: string)
    ensures |s| <= Utf16Length(s) <= 2 * |s|
    ensures Utf16Length(s) == |s| <==> forall i :: 0 <= i < |s| ==> s[i] as int < 0x1_0000
  {
    if s != [] {
      var n := |s| - 1;
      Utf16LengthBounds(s[..n]);
      if Utf16Length(s) == |s| {
        forall i | 0 <= i < |s| ensures s[i] as int < 0x1_0000 {
          if i < n {
            assert s[..n][i] == s[i];
          }
        }
      }
      if forall i :: 0 <= i < |s| ==> s[i] as int < 0x1_0000 {
        assert forall i :: 0 <= i < n ==> s[..n][i] == s[i];
      }
    }
  }

  // ---------------------------------------------------------------------------
  // toLowerCase, restricted to ASCII letters

  function LowerChar(c: char): char
  {
    if 'A' <= c <= 'Z' then (c as int + 32) as char else c
  }

  /** `s.toLowerCase()` for ASCII text: every upper-case letter becomes its
      lower-case form and every other character is kept. */
  function Lower(s: string): (r: string)
    ensures |r| == |s|
    ensures forall i :: 0 <= i < |s| ==> r[i] == LowerChar(s[i])
    ensures forall i :: 0 <= i < |r| ==> !('A' <= r[i] <= 'Z')
  {
    seq(|s|, i requires 0 <= i < |s| => LowerChar(s[i]))
  }

  /** Lowering twice is lowering once. */
  lemma LowerIdempotent(s: string)
    ensures Lower(Lower(s)) == Lower(s)
  {
  }

  // ---------------------------------------------------------------------------
  // includes

  /** `hay.includes(needle)`: needle is a prefix of some suffix of hay. */
  predicate Includes(hay: string, needle: string)
  {
    needle <= hay || (hay != [] && Includes(hay[1..], needle))
  }

  /** `needle` occurs in `hay` starting at position `k`. */
  ghost predicate OccursAt(hay: string, needle: string, k: int)
  {
    0 <= k && k + |needle| <= |hay| && hay[k..k + |needle|] == needle
  }

  /** `Includes` holds exactly when `needle` occurs at some position of `hay`. */
  lemma {:induction false} IncludesAt(hay: string, needle: string)
    ensures Includes(hay, needle) <==> exists k :: OccursAt(hay, needle, k)
  {
    if needle <= hay {
      assert OccursAt(hay, needle, 0);
    } else if hay == [] {
    } else {
      IncludesAt(hay[1..], needle);
      if exists k :: OccursAt(hay, needle, k) {
        var k :| OccursAt(hay, needle, k);
        OccursInTail(hay, needle, k);
      }
      if Includes(hay[1..], needle) {
        var k :| OccursAt(hay[1..], needle, k);
        OccursAfterHead(hay, needle, k);
      }
    }
  }

  /** An occurrence past the first position is an occurrence in the tail. */
  lemma OccursInTail(hay: string, needle: string, k: int)
    requires OccursAt(hay, needle, k) && !(needle <= hay)
    ensures k >= 1 && OccursAt(hay[1..], needle, k - 1)
  {
    assert k != 0;
    assert hay[1..][k - 1..k - 1 + |needle|] == hay[k..k + |needle|];
  }

  /** An occurrence in the tail is an occurrence one position further on. */
  lemma OccursAfterHead(hay: string, needle: string, k: int)
    requires hay != [] && OccursAt(hay[1..], needle, k)
    ensures OccursAt(hay, needle, k + 1)
  {
    assert hay[1..][k..k + |needle|] == hay[k + 1..k + 1 + |needle|];
  }

  /** The empty string is included in every string. */
  lemma IncludesEmpty(hay: string)
    ensures Includes(hay, "")
  {
  }

  // ---------------------------------------------------------------------------
  // split and join

  /** `s.split(sep)` for a one-character separator: the pieces between
      separators, empty pieces included; the empty string gives `[""]`. */
  function Split(s: string, sep: char): (parts: seq<string>)
    ensures |parts| >= 1
    ensures forall i :: 0 <= i < |parts| ==> sep !in parts[i]
  {
    if s == [] then [""]
    else
      var rest := Split(s[1..], sep);
      if s[0] == sep then [""] + rest
      else [[s[0]] + rest[0]] + rest[1..]
  }

  /** A piece without the separator splits to itself. */
  lemma {:induction false} SplitNoSep(a: string, sep: char)
    requires sep !in a
    ensures Split(a, sep) == [a]
  {
    if a != [] {
      SplitNoSep(a[1..], sep);
      assert [a[0]] + a[1..] == a;
    }
  }

  /** A piece followed by the separator splits off as the first part. */
  lemma {:induction false} SplitFirst(a: string, sep: char, s: string)
    requires sep !in a
    ensures Split(a + [sep] + s, sep) == [a] + Split(s, sep)
  {
    if a == [] {
      assert a + [sep] + s == [sep] + s;
      assert ([sep] + s)[1..] == s;
    } else {
      SplitFirst(a[1..], sep, s);
      assert (a + [sep] + s)[1..] == a[1..] + [sep] + s;
      assert [a[0]] + a[1..] == a;
    }
  }

  /** `parts.join(sep)`: the parts with `sep` between neighbours; `[]` gives "". */
  function Join(parts: seq<string>, sep: string): string
  {
    if |parts| == 0 then ""
    else if |parts| == 1 then parts[0]
    else parts[0] + sep + Join(parts[1..], sep)
  }

  /** Separator-free pieces joined by the separator split back into them:
      with `JoinSplit`, split and join are inverse. */
  lemma {:induction false} SplitJoin(parts: seq<string>, sep: char)
    requires parts != []
    requires forall i :: 0 <= i < |parts| ==> sep !in parts[i]
    ensures Split(Join(parts, [sep]), sep) == parts
  {
    if |parts| == 1 {
      SplitNoSep(parts[0], sep);
    } else {
      SplitJoin(parts[1..], sep);
      SplitFirst(parts[0], sep, Join(parts[1..], [sep]));
      assert [parts[0]] + parts[1..] == parts;
    }
  }

  /** Splitting and joining again with the same separator restores the string. */
  lemma {:induction false} JoinSplit(s: string, sep: char)
    ensures Join(Split(s, sep), [sep]) == s
  {
    if s != [] {
      var rest := Split(s[1..], sep);
      JoinSplit(s[1..], sep);
      if s[0] == sep {
        assert Split(s, sep) == [""] + rest;
        assert ([""] + rest)[1..] == rest;
      } else {
        var parts := [[s[0]] + rest[0]] + rest[1..];
        if |rest| == 1 {
        } else {
          assert parts[1..] == rest[1..];
          assert Join(rest, [sep]) == rest[0] + [sep] + Join(rest[1..], [sep]);
        }
      }
    }
  }

  /** Joining `k + 1` parts is joining the first `k` and then the last. */
  lemma {:induction false} JoinSnoc(parts: seq<string>, sep: string)
    requires |parts| >= 2
    ensures Join(parts, sep) == Join(parts[..|parts| - 1], sep) + sep + parts[|parts| - 1]
  {
    if |parts| > 2 {
      JoinSnoc(parts[1..], sep);
      assert parts[1..][..|parts[1..]| - 1] == parts[..|parts| - 1][1..];
    }
  }

  // ---------------------------------------------------------------------------
  // decimal rendering

  function DigitChar(d: nat): char
    requires d < 10
  {
    "0123456789"[d]
  }

  function DigitValue(c: char): nat
  {
    if '0' <= c <= '9' then c as int - '0' as int else 0
  }

  predicate IsDigits(s: string)
  {
    forall i :: 0 <= i < |s| ==> '0' <= s[i] <= '9'
  }

  /** `n.toString()` for a non-negative integer: its decimal digits, without
      leading zeros. */
  function DecimalString(n: nat): (s: string)
    ensures 1 <= |s| && IsDigits(s)
  {
    if n < 10 then [DigitChar(n)] else DecimalString(n / 10) + [DigitChar(n % 10)]
  }

  /** The number a string of decimal digits denotes. */
  function DecimalValue(s: string): nat
  {
    if s == [] then 0 else DecimalValue(s[..|s| - 1]) * 10 + DigitValue(s[|s| - 1])
  }

  function Pow10(k: nat): (p: nat)
    ensures p >= 1
  {
    if k == 0 then 1 else 10 * Pow10(k - 1)
  }

  /** Reading back the decimal rendering gives the number. */
  lemma {:induction false} DecimalRoundTrip(n: nat)
    ensures DecimalValue(DecimalString(n)) == n
  {
    if n >= 10 {
      DecimalRoundTrip(n / 10);
      var s := DecimalString(n);
      assert s[..|s| - 1] == DecimalString(n / 10);
    }
  }

  /** A string of `k` digits denotes a number below `10^k`. */
  lemma {:induction false} DecimalValueBound(s: string)
    requires IsDigits(s)
    ensures DecimalValue(s) < Pow10(|s|)
  {
    if s != [] {
      DecimalValueBound(s[..|s| - 1]);
    }
  }

  lemma MulMonotone(a: nat, b: nat, m: nat)
    requires a <= b
    ensures a * m <= b * m
  {
    assert b * m == a * m + (b - a) * m;
  }

  /** The remainder is determined by any split into a multiple and a smaller part. */
  lemma ModOfSplit(x: nat, q: nat, m: nat, y: nat)
    requires m >= 1 && x == q * m + y && y < m
    ensures x % m == y
  {
    var q', y' := x / m, x % m;
    assert x == q' * m + y';
    if q' < q {
      MulMonotone(q' + 1, q, m);
    } else if q' > q {
      MulMonotone(q + 1, q', m);
    }
  }

  lemma ShiftMod(a: nat, d: nat, m: nat)
    requires d < 10 && m >= 1
    ensures (a % m) * 10 + d == (a * 10 + d) % (m * 10)
  {
    var q, r := a / m, a % m;
    assert a == q * m + r;
    assert r + 1 <= m;
    assert r * 10 + 10 <= m * 10;
    assert a * 10 + d == q * (m * 10) + (r * 10 + d);
    ModOfSplit(a * 10 + d, q, m * 10, r * 10 + d);
  }

  /** The last `k` digits of a digit string denote its value modulo `10^k`. */
  lemma {:induction false} DecimalSuffix(s: string, k: nat)
    requires IsDigits(s) && k <= |s|
    ensures DecimalValue(s[|s| - k..]) == DecimalValue(s) % Pow10(k)
  {
    if k == 0 {
      assert s[|s|..] == [];
    } else {
      var n := |s| - 1;
      var pre := s[..n];
      DecimalSuffix(pre, k - 1);
      var suf := s[|s| - k..];
      assert suf[..|suf| - 1] == pre[|pre| - (k - 1)..];
      assert suf[|suf| - 1] == s[n];
      ShiftMod(DecimalValue(pre), DigitValue(s[n]), Pow10(k - 1));
    }
  }

  /** `s.slice(-k)`: the last `k` characters, or all of `s` when it is shorter. */
  function TakeLast(s: string, k: nat): (r: string)
    ensures |r| == if |s| < k then |s| else k
    ensures r <= s[|s| - |r|..] && s[|s| - |r|..] <= r
  {
    if |s| <= k then s else s[|s| - k..]
  }

  /** The last `k` digits of `n.toString()` denote `n` modulo `10^k`. */
  lemma LastDigitsValue(n: nat, k: nat)
    ensures DecimalValue(TakeLast(DecimalString(n), k)) == n % Pow10(k)
  {
    var s := DecimalString(n);
    DecimalRoundTrip(n);
    if |s| <= k {
      DecimalValueBound(s);
      Pow10Monotone(|s|, k);
      ModOfSplit(n, 0, Pow10(k), n);
    } else {
      DecimalSuffix(s, k);
    }
  }

  lemma {:induction false} Pow10Monotone(i: nat, j: nat)
    requires i <= j
    ensures Pow10(i) <= Pow10(j)
  {
    if i < j {
      Pow10Monotone(i, j - 1);
    }
  }

  /** A suffix of a digit string is a digit string. */
  lemma TakeLastDigits(s: string, k: nat)
    requires IsDigits(s)
    ensures IsDigits(TakeLast(s, k))
  {
    var t := TakeLast(s, k);
    forall i | 0 <= i < |t| ensures '0' <= t[i] <= '9' {
      assert t[i] == s[|s| - |t| + i];
    }
  }

  /** `n.toString()` has at least `k` digits once `n` reaches `10^(k-1)`. */
  lemma DecimalLengthAtLeast(n: nat, k: nat)
    requires 1 <= k && Pow10(k - 1) <= n
    ensures |DecimalString(n)| >= k
  {
    var s := DecimalString(n);
    if |s| < k {
      DecimalRoundTrip(n);
      DecimalValueBound(s);
      Pow10Monotone(|s|, k - 1);
    }
  }

  /** The last `k` characters of `n.toString()` are digits denoting `n`
      modulo `10^k`; there are exactly `k` of them once `n` reaches `10^(k-1)`. */
  lemma LastDigitsFormat(n: nat, k: nat)
    ensures IsDigits(TakeLast(DecimalString(n), k))
    ensures DecimalValue(TakeLast(DecimalString(n), k)) == n % Pow10(k)
    ensures 1 <= k && Pow10(k - 1) <= n ==> |TakeLast(DecimalString(n), k)| == k
  {
    TakeLastDigits(DecimalString(n), k);
    LastDigitsValue(n, k);
    if 1 <= k && Pow10(k - 1) <= n {
      DecimalLengthAtLeast(n, k);
    }
  }
}
