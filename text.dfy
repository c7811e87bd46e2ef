/** String operations the Python code relies on: `str.replace`, substring
    tests, joining, and decimal rendering of integers; and the optional
    value the other modules share. */
module Text {

  /** A value that may be absent: a parse that fails, a directory that
      cannot be listed. */
  datatype Option<T> = None | Some(value: T)

  /** Python's `s.replace(pat, rep)` for a non-empty pattern: the string is
      scanned left to right; an occurrence starting at the scan position is
      replaced and scanning resumes just after it, so occurrences never
      overlap and the replacement text is never rescanned. */
  function Replace(s: string, pat: string, rep: string): string
    requires pat != []
    decreases |s|
  {
    if s == [] then []
    else if pat <= s then rep + Replace(s[|pat|..], pat, rep)
    else [s[0]] + Replace(s[1..], pat, rep)
  }

  /** Python's `pat in s`. */
  predicate Contains(s: string, pat: string)
    decreases |s|
  {
    pat <= s || (s != [] && Contains(s[1..], pat))
  }

  /** `sep.join(parts)`. */
  function Join(parts: seq<string>, sep: string): string
  {
    if |parts| == 0 then ""
    else if |parts| == 1 then parts[0]
    else parts[0] + sep + Join(parts[1..], sep)
  }

  predicate IsDigitChar(c: char)
  {
    '0' <= c <= '9'
  }

  /** Python's `s.isdigit()` on ASCII text: non-empty and all decimal digits. */
  predicate IsDigits(s: string)
  {
    |s| > 0 && forall i :: 0 <= i < |s| ==> IsDigitChar(s[i])
  }

  function DigitChar(d: nat): (c: char)
    requires d < 10
    ensures IsDigitChar(c)
  {
    ('0' as int + d) as char
  }

  /** Decimal digits of a natural number, without leading zeros. */
  function NatDigits(n: nat): (r: string)
    ensures IsDigits(r)
    ensures r[0] == '0' ==> n == 0
    decreases n
  {
    if n < 10 then [DigitChar(n)] else NatDigits(n / 10) + [DigitChar(n % 10)]
  }

  /** Python's `str(i)` for an integer. */
  function Decimal(i: int): string
  {
    if i < 0 then "-" + NatDigits(-i) else NatDigits(i)
  }

  /** The value of a string of decimal digits; the inverse of NatDigits. */
  function ParseNat(s: string): nat
    requires forall k :: 0 <= k < |s| ==> IsDigitChar(s[k])
    decreases |s|
  {
    if s == [] then 0
    else
      assert IsDigitChar(s[|s| - 1]);
      10 * ParseNat(s[..|s| - 1]) + (s[|s| - 1] as int - '0' as int)
  }

  lemma {:induction false} ParseNatDigits(n: nat)
    ensures ParseNat(NatDigits(n)) == n
    decreases n
  {
    if n >= 10 {
      var r := NatDigits(n);
      assert r[..|r| - 1] == NatDigits(n / 10);
      ParseNatDigits(n / 10);
    }
  }

  /** A string of digits only never holds the given non-digit character. */
  lemma DigitsLack(s: string, c: char)
    requires IsDigits(s) && !IsDigitChar(c)
    ensures c !in s
  {
  }

  /** Decimal renderings use only digits and a leading minus sign. */
  lemma DecimalChars(i: int, c: char)
    requires !IsDigitChar(c) && c != '-'
    ensures c !in Decimal(i)
  {
    if i < 0 {
      DigitsLack(NatDigits(-i), c);
    } else {
      DigitsLack(NatDigits(i), c);
    }
  }

  /** A text that does not contain the pattern is left unchanged. */
  lemma {:induction false} ReplaceAbsent(s: string, pat: string, rep: string)
    requires pat != [] && !Contains(s, pat)
    ensures Replace(s, pat, rep) == s
    decreases |s|
  {
    if s != [] {
      ReplaceAbsent(s[1..], pat, rep);
      assert [s[0]] + s[1..] == s;
    }
  }

  /** A prefix without the pattern's first character is copied as is. */
  lemma {:induction false} ReplaceSkip(t: string, u: string, pat: string, rep: string)
    requires pat != [] && pat[0] !in t
    ensures Replace(t + u, pat, rep) == t + Replace(u, pat, rep)
    decreases |t|
  {
    if t != [] {
      assert (t + u)[0] == t[0];
      assert !(pat <= t + u);
      assert (t + u)[1..] == t[1..] + u;
      ReplaceSkip(t[1..], u, pat, rep);
      assert [t[0]] + t[1..] == t;
    } else {
      assert t + u == u;
    }
  }

  /** An occurrence at the scan position is replaced. */
  lemma ReplaceHead(u: string, pat: string, rep: string)
    requires pat != []
    ensures Replace(pat + u, pat, rep) == rep + Replace(u, pat, rep)
  {
    assert pat <= pat + u;
    assert (pat + u)[|pat|..] == u;
  }

  /** Replacing a single character works piece by piece. */
  lemma {:induction false} ReplaceCharConcat(a: string, b: string, c: char, rep: string)
    ensures Replace(a + b, [c], rep) == Replace(a, [c], rep) + Replace(b, [c], rep)
    decreases |a|
  {
    if a == [] {
      assert a + b == b;
    } else {
      assert (a + b)[0] == a[0];
      assert ([c] <= a + b) == ([c] <= a);
      assert (a + b)[1..] == a[1..] + b;
      ReplaceCharConcat(a[1..], b, c, rep);
    }
  }

  /** Replacing a single character distributes over a join. */
  lemma {:induction false} ReplaceCharJoin(parts: seq<string>, sep: string, c: char, rep: string)
    requires c !in sep
    ensures Replace(Join(parts, sep), [c], rep)
         == Join(seq(|parts|, k requires 0 <= k < |parts| => Replace(parts[k], [c], rep)), sep)
    decreases |parts|
  {
    var f := seq(|parts|, k requires 0 <= k < |parts| => Replace(parts[k], [c], rep));
    if |parts| >= 2 {
      var tail := parts[1..];
      ReplaceCharJoin(tail, sep, c, rep);
      assert f[1..] == seq(|tail|, k requires 0 <= k < |tail| => Replace(tail[k], [c], rep));
      ReplaceCharConcat(parts[0], sep + Join(tail, sep), c, rep);
      ReplaceCharConcat(sep, Join(tail, sep), c, rep);
      ReplaceSkip(sep, [], [c], rep);
      assert sep + [] == sep;
      assert parts[0] + sep + Join(tail, sep) == parts[0] + (sep + Join(tail, sep));
    }
  }

  /** A character found neither in the parts nor in the separator is not in
      their join. */
  lemma {:induction false} JoinLacks(parts: seq<string>, sep: string, c: char)
    requires c !in sep && forall k :: 0 <= k < |parts| ==> c !in parts[k]
    ensures c !in Join(parts, sep)
    decreases |parts|
  {
    if |parts| > 1 {
      JoinLacks(parts[1..], sep, c);
    }
  }

  /** A prefix that cannot start the pattern is skipped by `in`. */
  lemma {:induction false} ContainsSkip(t: string, u: string, pat: string)
    requires pat != [] && pat[0] !in t
    ensures Contains(t + u, pat) <==> Contains(u, pat)
    decreases |t|
  {
    if t != [] {
      assert (t + u)[0] == t[0];
      assert !(pat <= t + u);
      assert (t + u)[1..] == t[1..] + u;
      ContainsSkip(t[1..], u, pat);
    } else {
      assert t + u == u;
    }
  }

  /** An occurrence cannot straddle a character the pattern does not use:
      `pat in a + b` splits into `pat in a` or `pat in b`. */
  lemma {:induction false} ContainsSplit(a: string, b: string, pat: string)
    requires pat != [] && b != [] && b[0] !in pat
    ensures Contains(a + b, pat) <==> Contains(a, pat) || Contains(b, pat)
    decreases |a|
  {
    if a == [] {
      assert a + b == b;
    } else {
      assert (a + b)[1..] == a[1..] + b;
      ContainsSplit(a[1..], b, pat);
      if pat <= a + b {
        assert (a + b)[|a|] == b[0];
        assert pat <= a;
      }
      if pat <= a {
        assert pat <= a + b;
      }
    }
  }
}
