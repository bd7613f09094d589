/** The few Python `str` operations the package relies on, on `seq<char>`. */
module Strings {

  /** `s.startswith(prefix)` */
  predicate StartsWith(s: string, prefix: string) {
    |prefix| <= |s| && s[..|prefix|] == prefix
  }

  /** `s.endswith(suffix)` */
  predicate EndsWith(s: string, suffix: string) {
    |suffix| <= |s| && s[|s| - |suffix|..] == suffix
  }

  /** A suffix of a suffix is a suffix. */
  lemma EndsWithTransitive(s: string, mid: string, suffix: string)
    requires EndsWith(s, mid) && EndsWith(mid, suffix)
    ensures EndsWith(s, suffix)
  {
    assert s[|s| - |suffix|..] == s[|s| - |mid|..][|mid| - |suffix|..];
  }

  /** `sub` occurs in `s` starting at index `i`. */
  predicate OccursAt(s: string, sub: string, i: int) {
    0 <= i && i + |sub| <= |s| && s[i..i + |sub|] == sub
  }

  /** `sub in s`, scanning from the left. */
  function Contains(s: string, sub: string): bool
    decreases |s|
  {
    if StartsWith(s, sub) then true
    else if |s| == 0 then false
    else Contains(s[1..], sub)
  }

  /** `Contains` is substring membership: some position of `s` starts a copy of `sub`. */
  lemma {:induction false} ContainsIsOccurrence(s: string, sub: string)
    ensures Contains(s, sub) <==> exists i :: OccursAt(s, sub, i)
    decreases |s|
  {
    if StartsWith(s, sub) {
      assert OccursAt(s, sub, 0);
    } else if |s| == 0 {
      assert forall i :: !OccursAt(s, sub, i);
    } else {
      ContainsIsOccurrence(s[1..], sub);
      forall i | OccursAt(s, sub, i)
        ensures OccursAt(s[1..], sub, i - 1)
      {
        assert i != 0;
        assert s[1..][i - 1..i - 1 + |sub|] == s[i..i + |sub|];
      }
      forall j | OccursAt(s[1..], sub, j)
        ensures OccursAt(s, sub, j + 1)
      {
        assert s[1..][j..j + |sub|] == s[j + 1..j + 1 + |sub|];
      }
    }
  }

  /** `s.replace(from, to)` for one-character arguments, as in `title.replace(" ", "-")`. */
  function ReplaceChar(s: string, from: char, to: char): (r: string)
    ensures |r| == |s|
    ensures forall i :: 0 <= i < |s| ==> r[i] == (if s[i] == from then to else s[i])
    ensures from != to ==> from !in r
  {
    if s == [] then []
    else [if s[0] == from then to else s[0]] + ReplaceChar(s[1..], from, to)
  }

  /**
   * `s.replace(pat, "")`: every occurrence of `pat` found scanning left to
   * right, without overlap, is deleted.
   */
  function RemoveAll(s: string, pat: string): (r: string)
    requires |pat| > 0
    ensures |r| <= |s|
    ensures forall c :: c in r ==> c in s
    decreases |s|
  {
    if |s| == 0 then []
    else if StartsWith(s, pat) then RemoveAll(s[|pat|..], pat)
    else [s[0]] + RemoveAll(s[1..], pat)
  }

  /** A string that does not contain `pat` is left unchanged by removing `pat`. */
  lemma {:induction false} RemoveAllAbsent(s: string, pat: string)
    requires |pat| > 0 && !Contains(s, pat)
    ensures RemoveAll(s, pat) == s
    decreases |s|
  {
    if |s| > 0 {
      assert !StartsWith(s, pat);
      RemoveAllAbsent(s[1..], pat);
      assert s == [s[0]] + s[1..];
    }
  }

  /**
   * `(stem + ".tif").replace(".tif", "")` gives back `stem` when `stem`
   * itself holds no ".tif": the suffix cannot straddle the end of `stem`
   * because ".tif" has no proper prefix that is also a suffix.
   */
  lemma {:induction false} RemoveTifSuffix(stem: string)
    requires !Contains(stem, ".tif")
    ensures RemoveAll(stem + ".tif", ".tif") == stem
    decreases |stem|
  {
    var t := ".tif";
    var s := stem + t;
    if |stem| == 0 {
      assert s == t;
      assert s[|t|..] == [];
    } else {
      if 1 <= |stem| <= 3 {
        assert s[|stem|] == '.';
        assert t[|stem|] != '.';
        assert !StartsWith(s, t);
      } else {
        assert s[..|t|] == stem[..|t|];
        assert !StartsWith(stem, t);
      }
      assert !Contains(stem[1..], t);
      RemoveTifSuffix(stem[1..]);
      assert s[1..] == stem[1..] + t;
      assert stem == [stem[0]] + stem[1..];
    }
  }

  /**
   * `s.split(sep)[0]`: everything before the first `sep`, or all of `s`.
   */
  function FirstToken(s: string, sep: char): (t: string)
    ensures |t| <= |s| && s[..|t|] == t
    ensures sep !in t
    ensures |t| == |s| || s[|t|] == sep
  {
    if s == [] || s[0] == sep then []
    else [s[0]] + FirstToken(s[1..], sep)
  }

  /** The first token of `t + [sep] + rest` is `t` when `t` holds no `sep`. */
  lemma {:induction false} FirstTokenBeforeSeparator(t: string, sep: char, rest: string)
    requires sep !in t
    ensures FirstToken(t + [sep] + rest, sep) == t
    decreases |t|
  {
    var s := t + [sep] + rest;
    if t != [] {
      FirstTokenBeforeSeparator(t[1..], sep, rest);
      assert s[1..] == t[1..] + [sep] + rest;
      assert t == [t[0]] + t[1..];
    } else {
      assert s[0] == sep;
    }
  }

  /**
   * `s.split(sep).pop()` and `os.path.basename` for `sep == '/'`: everything
   * after the last `sep`, or all of `s`.
   */
  function LastSegment(s: string, sep: char): (t: string)
    ensures |t| <= |s| && s[|s| - |t|..] == t
    ensures sep !in t
    ensures |t| == |s| || s[|s| - |t| - 1] == sep
  {
    if s == [] || s[|s| - 1] == sep then []
    else LastSegment(s[..|s| - 1], sep) + [s[|s| - 1]]
  }

  /** Appending one character to `s`: a separator starts a new, empty segment; anything else extends the last one. */
  lemma LastSegmentSnoc(s: string, sep: char, c: char)
    ensures LastSegment(s + [c], sep) == if c == sep then [] else LastSegment(s, sep) + [c]
  {
    var x := s + [c];
    assert x[|x| - 1] == c;
    assert x[..|x| - 1] == s;
  }

  /** The last segment of `pre + [sep] + t` is `t`, whatever `pre` is, when `t` holds no `sep`. */
  lemma {:induction false} LastSegmentAfterSeparator(pre: string, sep: char, t: string)
    requires sep !in t
    ensures LastSegment(pre + [sep] + t, sep) == t
    decreases |t|
  {
    if t == [] {
      LastSegmentSnoc(pre, sep, sep);
      assert pre + [sep] + t == pre + [sep];
    } else {
      var init := t[..|t| - 1];
      var c := t[|t| - 1];
      LastSegmentAfterSeparator(pre, sep, init);
      LastSegmentSnoc(pre + [sep] + init, sep, c);
      assert pre + [sep] + t == (pre + [sep] + init) + [c];
      assert t == init + [c];
    }
  }

  /** A string without `sep` is its own last segment. */
  lemma {:induction false} LastSegmentWhole(t: string, sep: char)
    requires sep !in t
    ensures LastSegment(t, sep) == t
    decreases |t|
  {
    if t != [] {
      var init := t[..|t| - 1];
      var c := t[|t| - 1];
      assert c != sep;
      assert sep !in init;
      LastSegmentWhole(init, sep);
      LastSegmentSnoc(init, sep, c);
      assert t == init + [c];
    }
  }

  predicate IsDigit(c: char) { '0' <= c <= '9' }

  predicate AllDigits(s: string) { forall i :: 0 <= i < |s| ==> IsDigit(s[i]) }

  /** The value of a decimal numeral. */
  function DigitsValue(s: string): nat
    requires AllDigits(s)
  {
    if s == [] then 0
    else DigitsValue(s[..|s| - 1]) * 10 + (s[|s| - 1] as int - '0' as int)
  }

  function DigitChar(d: nat): (c: char)
    requires d < 10
    ensures IsDigit(c) && c as int - '0' as int == d
  {
    ('0' as int + d) as char
  }

  /** `str(n)` for a non-negative integer: decimal, no leading zero. */
  function NatToString(n: nat): (s: string)
    ensures |s| > 0 && AllDigits(s)
    ensures s[0] == '0' ==> n == 0
  {
    if n < 10 then [DigitChar(n)]
    else NatToString(n / 10) + [DigitChar(n % 10)]
  }

  /** `str(i)` for any integer. */
  function IntToString(i: int): (s: string)
    ensures |s| > 0
    ensures i >= 0 ==> s == NatToString(i)
    ensures i < 0 ==> s[0] == '-' && s[1..] == NatToString(-i)
  {
    if i < 0 then "-" + NatToString(-i) else NatToString(i)
  }

  /** Reading back the numeral `str(n)` gives `n`. */
  lemma {:induction false} NatToStringRoundTrip(n: nat)
    ensures DigitsValue(NatToString(n)) == n
  {
    if n >= 10 {
      NatToStringRoundTrip(n / 10);
      var s := NatToString(n);
      assert s[..|s| - 1] == NatToString(n / 10);
    }
  }

  /** `str(n)` has exactly four characters for the four-digit numbers. */
  lemma {:induction false} NatToStringLength(n: nat)
    ensures |NatToString(n)| == 4 <==> 1000 <= n <= 9999
  {
    if n >= 10 {
      NatToStringLength(n / 10);
      if n >= 100 {
        NatToStringLength(n / 100);
      }
      if n >= 1000 {
        NatToStringLength(n / 1000);
      }
      if n >= 10000 {
        NatToStringLength(n / 10000);
      }
    }
  }
}
