/** String primitives the engine relies on, written as the Python built-ins they
    stand for: `str(n)`, `int(s)`, `t in s`, `s.count(t)`, `s.replace`,
    `s.strip()` and `re.split` on a character class. Digits are ASCII digits. */
module Text {
  import opened Wrappers

  // ---------------------------------------------------------------------------
  // Digits and decimal numbers
  // ---------------------------------------------------------------------------

  predicate IsDigit(c: char) {
    '0' <= c <= '9'
  }

  predicate AllDigits(s: string) {
    forall i | 0 <= i < |s| :: IsDigit(s[i])
  }

  function DigitValue(c: char): nat
    requires IsDigit(c)
  {
    c as int - '0' as int
  }

  function DigitChar(d: nat): (c: char)
    requires d < 10
    ensures IsDigit(c) && DigitValue(c) == d
  {
    ('0' as int + d) as char
  }

  function Pow10(n: nat): (r: nat)
    ensures r >= 1
  {
    if n == 0 then 1 else 10 * Pow10(n - 1)
  }

  /** The value of a digit string read most-significant digit first; leading
      zeros are allowed, as Python's `int("0024") == 24`. */
  function DigitsValue(s: string): nat
    requires AllDigits(s)
  {
    if |s| == 0 then 0 else DigitsValue(s[..|s| - 1]) * 10 + DigitValue(s[|s| - 1])
  }

  /** Python's `str(n)` for a natural number: the shortest decimal spelling. */
  function NatToDigits(n: nat): (r: string)
    ensures 0 < |r| && AllDigits(r) && DigitsValue(r) == n
    ensures r[0] == '0' ==> n == 0
    ensures n < Pow10(|r|)
    ensures |r| > 1 ==> Pow10(|r| - 1) <= n
  {
    if n < 10 then [DigitChar(n)]
    else
      var prefix := NatToDigits(n / 10);
      var r := prefix + [DigitChar(n % 10)];
      assert r[..|r| - 1] == prefix;
      r
  }

  /** Appending one digit shifts the value one decimal place. */
  lemma DigitsValueSnoc(s: string, c: char)
    requires AllDigits(s) && IsDigit(c)
    ensures AllDigits(s + [c])
    ensures DigitsValue(s + [c]) == DigitsValue(s) * 10 + DigitValue(c)
  {
    assert (s + [c])[..|s|] == s;
  }

  /** Reading a concatenation of digit strings: the left part is shifted by the
      length of the right part. */
  lemma {:induction false} DigitsValueAppend(a: string, b: string)
    requires AllDigits(a) && AllDigits(b)
    ensures AllDigits(a + b)
    ensures DigitsValue(a + b) == DigitsValue(a) * Pow10(|b|) + DigitsValue(b)
  {
    if |b| == 0 {
      assert a + b == a;
    } else {
      var b', c := b[..|b| - 1], b[|b| - 1];
      assert b == b' + [c];
      assert a + b == (a + b') + [c];
      DigitsValueAppend(a, b');
      DigitsValueSnoc(a + b', c);
      DigitsValueSnoc(b', c);
      ShiftStep(DigitsValue(a), DigitsValue(b'), DigitValue(c), Pow10(|b'|));
    }
  }

  lemma ShiftStep(x: nat, y: nat, d: nat, p: nat)
    ensures (x * p + y) * 10 + d == x * (10 * p) + (y * 10 + d)
  {
  }

  /** A digit string never reads as more than its width allows. */
  lemma {:induction false} DigitsValueBound(s: string)
    requires AllDigits(s)
    ensures DigitsValue(s) < Pow10(|s|)
  {
    if |s| > 0 {
      DigitsValueBound(s[..|s| - 1]);
    }
  }

  /** Python's `int(s)` on a string of ASCII digits; anything else raises,
      which is `None` here. */
  function ParseNat(s: string): (r: Option<nat>)
    ensures r.Some? <==> 0 < |s| && AllDigits(s)
  {
    if 0 < |s| && AllDigits(s) then Some(DigitsValue(s)) else None
  }

  /** `int(str(n)) == n`. */
  lemma ParseNatOfDigits(n: nat)
    ensures ParseNat(NatToDigits(n)) == Some(n)
  {
  }

  // ---------------------------------------------------------------------------
  // Substrings
  // ---------------------------------------------------------------------------

  predicate OccursAt(s: string, t: string, i: int) {
    0 <= i && i + |t| <= |s| && s[i..i + |t|] == t
  }

  /** Python's `t in s`. */
  predicate Contains(s: string, t: string)
    decreases |s|
  {
    |t| <= |s| && (s[..|t|] == t || Contains(s[1..], t))
  }

  /** `t in s` holds exactly when `t` occurs at some offset of `s`. */
  lemma {:induction false} ContainsIffOccurs(s: string, t: string)
    ensures Contains(s, t) <==> exists i :: OccursAt(s, t, i)
    decreases |s|
  {
    if |t| <= |s| {
      if s[..|t|] == t {
        assert OccursAt(s, t, 0);
      } else {
        ContainsIffOccurs(s[1..], t);
        if Contains(s[1..], t) {
          var i :| OccursAt(s[1..], t, i);
          assert s[i + 1..i + 1 + |t|] == s[1..][i..i + |t|];
          assert OccursAt(s, t, i + 1);
        }
        if i :| OccursAt(s, t, i) {
          assert i != 0;
          assert s[1..][i - 1..i - 1 + |t|] == s[i..i + |t|];
          assert OccursAt(s[1..], t, i - 1);
        }
      }
    }
  }

  /** If some character of `t` is missing from `s`, then `t` is not in `s`. */
  lemma {:induction false} MissingCharNotContained(s: string, t: string, k: nat)
    requires k < |t|
    requires forall i | 0 <= i < |s| :: s[i] != t[k]
    ensures !Contains(s, t)
    decreases |s|
  {
    if |t| <= |s| {
      assert s[..|t|][k] == s[k];
      MissingCharNotContained(s[1..], t, k);
    }
  }

  /** Python's `s.count(t)` for a non-empty `t`: non-overlapping occurrences
      found scanning left to right. */
  function Count(s: string, t: string): nat
    requires |t| > 0
    decreases |s|
  {
    if |s| < |t| then 0
    else if s[..|t|] == t then 1 + Count(s[|t|..], t)
    else Count(s[1..], t)
  }

  /** `s.count(t) == 0` exactly when `t not in s`. */
  lemma {:induction false} CountZeroIffAbsent(s: string, t: string)
    requires |t| > 0
    ensures Count(s, t) == 0 <==> !Contains(s, t)
    decreases |s|
  {
    if |s| >= |t| && s[..|t|] != t {
      CountZeroIffAbsent(s[1..], t);
    }
  }

  /** Non-overlapping occurrences cannot cover more than the whole string. */
  lemma {:induction false} CountBound(s: string, t: string)
    requires |t| > 0
    ensures Count(s, t) * |t| <= |s|
    decreases |s|
  {
    if |s| >= |t| {
      if s[..|t|] == t {
        CountBound(s[|t|..], t);
      } else {
        CountBound(s[1..], t);
      }
    }
  }

  // ---------------------------------------------------------------------------
  // Character replacement
  // ---------------------------------------------------------------------------

  /** Python's `s.replace(c, '')` for a one-character `c`. */
  function RemoveAll(s: string, c: char): (r: string)
    ensures forall i | 0 <= i < |r| :: r[i] != c
    ensures |r| <= |s|
    ensures c !in s ==> r == s
  {
    if |s| == 0 then []
    else if s[0] == c then RemoveAll(s[1..], c)
    else [s[0]] + RemoveAll(s[1..], c)
  }

  lemma {:induction false} RemoveAllAppend(a: string, b: string, c: char)
    ensures RemoveAll(a + b, c) == RemoveAll(a, c) + RemoveAll(b, c)
  {
    if |a| == 0 {
      assert a + b == b;
    } else {
      assert (a + b)[1..] == a[1..] + b;
      RemoveAllAppend(a[1..], b, c);
    }
  }

  lemma RemoveAllDigitsNoOp(s: string, c: char)
    requires AllDigits(s) && !IsDigit(c)
    ensures RemoveAll(s, c) == s
  {
    assert c !in s;
  }

  /** Python's `s.replace(c, d)` for one-character `c` and `d`. */
  function ReplaceAll(s: string, c: char, d: char): (r: string)
    ensures |r| == |s|
    ensures forall i | 0 <= i < |s| :: r[i] == (if s[i] == c then d else s[i])
  {
    seq(|s|, i requires 0 <= i < |s| => if s[i] == c then d else s[i])
  }

  // ---------------------------------------------------------------------------
  // Whitespace
  // ---------------------------------------------------------------------------

  /** The characters Python's `str.isspace()` and the regex class `\s` accept. */
  predicate IsSpace(c: char) {
    || c == ' '
    || ('\t' <= c <= '\r')
    || ('\U{1C}' <= c <= '\U{1F}')
    || c == '\U{85}' || c == '\U{A0}' || c == '\U{1680}'
    || ('\U{2000}' <= c <= '\U{200A}')
    || c == '\U{2028}' || c == '\U{2029}' || c == '\U{202F}' || c == '\U{205F}' || c == '\U{3000}'
  }

  function StripLeft(s: string): (r: string)
    ensures |r| <= |s| && r == s[|s| - |r|..]
    ensures |r| > 0 ==> !IsSpace(r[0])
    ensures forall i | 0 <= i < |s| - |r| :: IsSpace(s[i])
  {
    if |s| > 0 && IsSpace(s[0]) then StripLeft(s[1..]) else s
  }

  function StripRight(s: string): (r: string)
    ensures |r| <= |s| && r == s[..|r|]
    ensures |r| > 0 ==> !IsSpace(r[|r| - 1])
    ensures forall i | |r| <= i < |s| :: IsSpace(s[i])
  {
    if |s| > 0 && IsSpace(s[|s| - 1]) then StripRight(s[..|s| - 1]) else s
  }

  /** Python's `s.strip()`: the longest infix of `s` with no whitespace at
      either end. */
  function Strip(s: string): (r: string)
    ensures |r| <= |s|
    ensures |r| > 0 ==> !IsSpace(r[0]) && !IsSpace(r[|r| - 1])
    ensures exists k :: OccursAt(s, r, k)
  {
    var l := StripLeft(s);
    var r := StripRight(l);
    assert OccursAt(s, r, |s| - |l|);
    r
  }

  // ---------------------------------------------------------------------------
  // Splitting on runs of delimiter characters
  // ---------------------------------------------------------------------------

  function SkipWhile(s: string, p: char -> bool): (r: string)
    ensures |r| <= |s| && r == s[|s| - |r|..]
    ensures |r| > 0 ==> !p(r[0])
  {
    if |s| > 0 && p(s[0]) then SkipWhile(s[1..], p) else s
  }

  /** The characters of `s` that are not delimiters, in order. */
  function Keep(s: string, p: char -> bool): string {
    if |s| == 0 then [] else (if p(s[0]) then [] else [s[0]]) + Keep(s[1..], p)
  }

  lemma {:induction false} KeepAppend(a: string, b: string, p: char -> bool)
    ensures Keep(a + b, p) == Keep(a, p) + Keep(b, p)
    decreases |a|
  {
    if |a| == 0 {
      assert a + b == b;
    } else {
      var t, c := a[1..], if p(a[0]) then [] else [a[0]];
      assert a == [a[0]] + t;
      assert a + b == [a[0]] + (t + b);
      KeepCons(a[0], t + b, p);
      KeepCons(a[0], t, p);
      KeepAppend(t, b, p);
      calc {
        Keep(a + b, p);
        c + Keep(t + b, p);
        c + (Keep(t, p) + Keep(b, p));
        (c + Keep(t, p)) + Keep(b, p);
        Keep(a, p) + Keep(b, p);
      }
    }
  }

  lemma KeepCons(x: char, s: string, p: char -> bool)
    ensures Keep([x] + s, p) == (if p(x) then [] else [x]) + Keep(s, p)
  {
    assert ([x] + s)[1..] == s;
  }

  lemma {:induction false} KeepNone(s: string, p: char -> bool)
    requires forall i | 0 <= i < |s| :: p(s[i])
    ensures Keep(s, p) == []
    decreases |s|
  {
    if |s| > 0 {
      KeepNone(s[1..], p);
    }
  }

  /** Stripping removes whitespace only: the other characters are kept, in
      order. */
  lemma StripKeepsText(s: string)
    ensures Keep(Strip(s), IsSpace) == Keep(s, IsSpace)
  {
    StripLeftKeepsText(s);
    StripRightKeepsText(StripLeft(s));
  }

  lemma StripLeftKeepsText(s: string)
    ensures Keep(StripLeft(s), IsSpace) == Keep(s, IsSpace)
  {
    var l := StripLeft(s);
    var d := s[..|s| - |l|];
    assert s == d + l;
    KeepAppend(d, l, IsSpace);
    KeepNone(d, IsSpace);
  }

  lemma StripRightKeepsText(s: string)
    ensures Keep(StripRight(s), IsSpace) == Keep(s, IsSpace)
  {
    var r := StripRight(s);
    var d := s[|r|..];
    assert s == r + d;
    KeepAppend(r, d, IsSpace);
    KeepNone(d, IsSpace);
  }

  function Flatten(parts: seq<string>): string {
    if |parts| == 0 then [] else parts[0] + Flatten(parts[1..])
  }

  /** Python's `re.split('[...]+', s)` for the delimiter class `p`: the pieces
      between maximal runs of delimiters, including the empty piece before a
      leading run and after a trailing one. */
  function SplitRuns(s: string, p: char -> bool): (r: seq<string>)
    ensures |r| >= 1
    ensures forall k, i | 0 <= k < |r| && 0 <= i < |r[k]| :: !p(r[k][i])
    decreases |s|
  {
    if |s| == 0 then [""]
    else if p(s[0]) then [""] + SplitRuns(SkipWhile(s, p), p)
    else
      var rest := SplitRuns(s[1..], p);
      [[s[0]] + rest[0]] + rest[1..]
  }

  /** Dropping delimiter characters is all the split does: gluing the pieces
      back together gives `s` without its delimiters. */
  lemma {:induction false} SplitRunsKeepsText(s: string, p: char -> bool)
    ensures Flatten(SplitRuns(s, p)) == Keep(s, p)
    decreases |s|
  {
    if |s| == 0 {
    } else if p(s[0]) {
      SkipWhileDropsOnlyDelims(s, p);
      SplitRunsKeepsText(SkipWhile(s, p), p);
      assert Flatten([""] + SplitRuns(SkipWhile(s, p), p)) == Flatten(SplitRuns(SkipWhile(s, p), p));
    } else {
      var rest := SplitRuns(s[1..], p);
      SplitRunsKeepsText(s[1..], p);
      assert rest == [rest[0]] + rest[1..];
      assert Flatten(rest) == rest[0] + Flatten(rest[1..]);
      var r := [[s[0]] + rest[0]] + rest[1..];
      assert r[1..] == rest[1..];
      calc {
        Flatten(r);
        ([s[0]] + rest[0]) + Flatten(rest[1..]);
        [s[0]] + (rest[0] + Flatten(rest[1..]));
        [s[0]] + Keep(s[1..], p);
      }
    }
  }

  lemma {:induction false} SkipWhileDropsOnlyDelims(s: string, p: char -> bool)
    ensures Keep(s, p) == Keep(SkipWhile(s, p), p)
    decreases |s|
  {
    if |s| > 0 && p(s[0]) {
      SkipWhileDropsOnlyDelims(s[1..], p);
    }
  }
}
