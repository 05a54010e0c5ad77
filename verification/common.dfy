/** Value types and string helpers shared by the client, the PR-sync script and
    the terminal UI models. Strings are sequences of characters; every place
    where the program treats a byte and a character alike (URLs, titles typed
    on the keyboard) is modelled with one character per byte. */
module Common {

  datatype Option<+T> = None | Some(value: T)

  /** The outcome of a call that yields a value or fails with a message. */
  datatype Result<+T> = Ok(value: T) | Err(error: string)

  /** The outcome of Go code that either returns or panics (a slice bound out of range). */
  datatype Outcome<+T> = Returns(value: T) | Panics

  function Min(a: int, b: int): int { if a < b then a else b }

  function Max(a: int, b: int): int { if a < b then b else a }

  // ------------------------------------------------------------------
  // Multiples and remainders
  // ------------------------------------------------------------------

  lemma DivBounds(i: int, size: int)
    requires size > 0
    ensures (i / size) * size <= i < (i / size) * size + size
  {
  }

  lemma {:induction false} MulAtLeast(k: int, size: int)
    requires k >= 1 && size > 0
    ensures k * size >= size
    decreases k
  {
    if k > 1 {
      MulAtLeast(k - 1, size);
      assert k * size == (k - 1) * size + size;
    }
  }

  /** Multiples of `size` are `size` apart. */
  lemma MulLess(a: int, b: int, size: int)
    requires size > 0 && a < b
    ensures a * size + size <= b * size
  {
    MulAtLeast(b - a, size);
    assert b * size == a * size + (b - a) * size;
  }

  lemma MulMono(a: int, b: int, size: int)
    requires size > 0 && a <= b
    ensures a * size <= b * size
  {
    if a < b { MulLess(a, b, size); }
  }

  /** The quotient and remainder of Euclidean division are the only ones. */
  lemma DivModUnique(x: int, n: int, q: int, r: int)
    requires n > 0 && x == q * n + r && 0 <= r < n
    ensures x / n == q && x % n == r
  {
    var d := x / n;
    DivBounds(x, n);
    if d < q { MulLess(d, q, n); }
    else if d > q { MulLess(q, d, n); }
  }

  /** Stepping once round a cycle of `n` from a remainder is the remainder of the next number. */
  lemma ModSucc(a: int, n: int)
    requires n > 0
    ensures ((a % n) + 1) % n == (a + 1) % n
  {
    var q, r := a / n, a % n;
    assert a == q * n + r;
    if r + 1 < n {
      DivModUnique(r + 1, n, 0, r + 1);
      DivModUnique(a + 1, n, q, r + 1);
    } else {
      DivModUnique(r + 1, n, 1, 0);
      assert (q + 1) * n == q * n + n;
      DivModUnique(a + 1, n, q + 1, 0);
    }
  }

  // ------------------------------------------------------------------
  // Characters
  // ------------------------------------------------------------------

  predicate IsDigit(c: char) { '0' <= c <= '9' }

  predicate AllDigits(s: string) { forall i :: 0 <= i < |s| ==> IsDigit(s[i]) }

  function DigitValue(c: char): nat
    requires IsDigit(c)
  {
    (c as int) - ('0' as int)
  }

  function DigitChar(d: nat): (c: char)
    requires d < 10
    ensures IsDigit(c) && DigitValue(c) == d
  {
    (('0' as int) + d) as char
  }

  /** Whitespace as Go's unicode.IsSpace (and fmt's scanner) reports it: the
      ASCII controls \t \n \v \f \r, the blank, U+0085, U+00A0 and the other
      Unicode White_Space characters. */
  predicate IsGoSpace(c: char)
  {
    c == ' ' || ('\t' <= c <= '\r') || c == '\U{0085}' || c == '\U{00A0}'
    || c == '\U{1680}' || ('\U{2000}' <= c <= '\U{200A}') || c == '\U{2028}' || c == '\U{2029}'
    || c == '\U{202F}' || c == '\U{205F}' || c == '\U{3000}'
  }

  /** Whitespace as Python's str.isspace, str.strip and the re module's \s
      report it: Go's set plus the separators U+001C..U+001F. */
  predicate IsPySpace(c: char)
  {
    IsGoSpace(c) || ('\U{001C}' <= c <= '\U{001F}')
  }

  function LowerChar(c: char): char
  {
    if 'A' <= c <= 'Z' then ((c as int) + 32) as char else c
  }

  /** ASCII lower-casing (the model does not fold non-ASCII letters). */
  function Lower(s: string): (r: string)
    ensures |r| == |s|
    ensures forall i :: 0 <= i < |s| ==> r[i] == LowerChar(s[i])
  {
    if |s| == 0 then "" else [LowerChar(s[0])] + Lower(s[1..])
  }

  // ------------------------------------------------------------------
  // Trimming
  // ------------------------------------------------------------------

  /** Index of the first position at or after `i` where `p` fails. */
  function SkipWhile(s: string, i: nat, p: char -> bool): (j: nat)
    requires i <= |s|
    ensures i <= j <= |s|
    ensures forall k :: i <= k < j ==> p(s[k])
    ensures j < |s| ==> !p(s[j])
    decreases |s| - i
  {
    if i < |s| && p(s[i]) then SkipWhile(s, i + 1, p) else i
  }

  /** A run of `p` from `i` to `j`, stopped at `j`, is what `SkipWhile` skips. */
  lemma {:induction false} SkipRun(s: string, i: nat, j: nat, p: char -> bool)
    requires i <= j <= |s|
    requires forall k :: i <= k < j ==> p(s[k])
    requires j == |s| || !p(s[j])
    ensures SkipWhile(s, i, p) == j
    decreases j - i
  {
    if i < j {
      SkipRun(s, i + 1, j, p);
    }
  }

  /** Index just past the last position before `j` where `p` fails. */
  function SkipBackWhile(s: string, j: nat, p: char -> bool): (i: nat)
    requires j <= |s|
    ensures i <= j
    ensures forall k :: i <= k < j ==> p(s[k])
    ensures i > 0 ==> !p(s[i - 1])
  {
    if j > 0 && p(s[j - 1]) then SkipBackWhile(s, j - 1, p) else j
  }

  function TrimLeft(s: string, isSpace: char -> bool): string
  {
    s[SkipWhile(s, 0, isSpace)..]
  }

  function TrimRight(s: string, isSpace: char -> bool): string
  {
    s[..SkipBackWhile(s, |s|, isSpace)]
  }

  /** Removes leading and trailing whitespace (Go strings.TrimSpace, Python str.strip). */
  function Trim(s: string, isSpace: char -> bool): (r: string)
    ensures |r| <= |s|
    ensures IsTrimmed(r, isSpace)
    ensures forall i :: 0 <= i < |s| && !isSpace(s[i]) ==> |r| > 0
    ensures forall c :: c in r ==> c in s
  {
    var a := SkipWhile(s, 0, isSpace);
    var l := s[a..];
    var b := SkipBackWhile(l, |l|, isSpace);
    assert forall i :: 0 <= i < |s| && !isSpace(s[i]) ==> a <= i && b > i - a;
    assert forall k :: 0 <= k < b ==> l[..b][k] == s[a + k];
    l[..b]
  }

  predicate IsTrimmed(s: string, isSpace: char -> bool)
  {
    |s| == 0 || (!isSpace(s[0]) && !isSpace(s[|s| - 1]))
  }

  lemma TrimOfTrimmed(s: string, isSpace: char -> bool)
    requires IsTrimmed(s, isSpace)
    ensures Trim(s, isSpace) == s
  {
  }

  lemma {:induction false} TrimLeftSpaces(w: string, s: string, isSpace: char -> bool)
    requires forall i :: 0 <= i < |w| ==> isSpace(w[i])
    ensures TrimLeft(w + s, isSpace) == TrimLeft(s, isSpace)
    decreases |w|
  {
    if |w| > 0 {
      assert (w + s)[1..] == w[1..] + s;
      TrimLeftSpaces(w[1..], s, isSpace);
    } else {
      assert w + s == s;
    }
  }

  /** Padding a trimmed string with whitespace on both sides and trimming
      again gives it back. */
  lemma TrimPadded(w1: string, s: string, w2: string, isSpace: char -> bool)
    requires forall i :: 0 <= i < |w1| ==> isSpace(w1[i])
    requires forall i :: 0 <= i < |w2| ==> isSpace(w2[i])
    requires |s| > 0 && IsTrimmed(s, isSpace)
    ensures Trim(w1 + s + w2, isSpace) == s
  {
    var t := w1 + s + w2;
    var a := SkipWhile(t, 0, isSpace);
    assert t[|w1|] == s[0];
    assert a == |w1|;
    var l := t[a..];
    assert l == s + w2;
    var b := SkipBackWhile(l, |l|, isSpace);
    assert l[|s| - 1] == s[|s| - 1];
    assert b == |s|;
    assert l[..b] == s;
  }

  // ------------------------------------------------------------------
  // Searching
  // ------------------------------------------------------------------

  predicate OccursAt(s: string, sub: string, i: int)
  {
    0 <= i && i + |sub| <= |s| && s[i..i + |sub|] == sub
  }

  /** Substring test (Go strings.Contains, Python `in`). */
  predicate Contains(s: string, sub: string)
  {
    exists i :: 0 <= i <= |s| - |sub| && OccursAt(s, sub, i)
  }

  function IndexOf(s: string, c: char): (r: Option<nat>)
    ensures r.Some? ==> r.value < |s| && s[r.value] == c && c !in s[..r.value]
    ensures r.None? <==> c !in s
  {
    if |s| == 0 then None
    else if s[0] == c then Some(0)
    else match IndexOf(s[1..], c)
      case None => None
      case Some(i) => assert s[1..][..i] == s[1..i + 1]; Some(i + 1)
  }

  /** The first occurrence is the one with no occurrence before it. */
  lemma {:induction false} IndexOfFirst(s: string, c: char, i: nat)
    requires i < |s| && s[i] == c && c !in s[..i]
    ensures IndexOf(s, c) == Some(i)
    decreases i
  {
    if i > 0 {
      assert s[0] == s[..i][0];
      assert s[1..][..i - 1] == s[1..i];
      IndexOfFirst(s[1..], c, i - 1);
    }
  }

  function LastIndexOf(s: string, c: char): (r: Option<nat>)
    ensures r.Some? ==> r.value < |s| && s[r.value] == c && c !in s[r.value + 1..]
    ensures r.None? <==> c !in s
  {
    if |s| == 0 then None
    else if s[|s| - 1] == c then Some(|s| - 1)
    else
      var r := LastIndexOf(s[..|s| - 1], c);
      assert r.Some? ==> s[r.value + 1..] == s[..|s| - 1][r.value + 1..] + [s[|s| - 1]];
      r
  }

  /** The last occurrence is the one with no further occurrence after it. */
  lemma {:induction false} LastIndexAt(s: string, c: char, i: nat)
    requires i < |s| && s[i] == c && c !in s[i + 1..]
    ensures LastIndexOf(s, c) == Some(i)
    decreases |s|
  {
    if i < |s| - 1 {
      assert s[|s| - 1] == s[i + 1..][|s| - 2 - i];
      var t := s[..|s| - 1];
      assert t[i + 1..] == s[i + 1..|s| - 1];
      LastIndexAt(t, c, i);
    }
  }

  /** Replaces every non-overlapping occurrence of `pat`, scanning left to
      right (Go strings.ReplaceAll). */
  function ReplaceAll(s: string, pat: string, rep: string): (r: string)
    requires |pat| > 0
    ensures !Contains(s, pat) ==> r == s
    ensures |rep| <= |pat| ==> |r| <= |s|
    decreases |s|
  {
    if |s| < |pat| then s
    else if s[..|pat|] == pat then
      assert OccursAt(s, pat, 0);
      rep + ReplaceAll(s[|pat|..], pat, rep)
    else
      var rest := ReplaceAll(s[1..], pat, rep);
      assert Contains(s[1..], pat) ==> Contains(s, pat) by {
        if Contains(s[1..], pat) {
          var i :| 0 <= i <= |s[1..]| - |pat| && OccursAt(s[1..], pat, i);
          assert s[i + 1..i + 1 + |pat|] == s[1..][i..i + |pat|];
          assert OccursAt(s, pat, i + 1);
        }
      }
      [s[0]] + rest
  }

  // ------------------------------------------------------------------
  // Split and join
  // ------------------------------------------------------------------

  /** Splits on every occurrence of `sep` (Python str.split(sep), Go strings.Split). */
  function Split(s: string, sep: char): (parts: seq<string>)
    ensures |parts| >= 1
    ensures forall i :: 0 <= i < |parts| ==> sep !in parts[i]
    decreases |s|
  {
    match IndexOf(s, sep)
    case None => [s]
    case Some(i) => [s[..i]] + Split(s[i + 1..], sep)
  }

  function Join(parts: seq<string>, sep: string): string
  {
    if |parts| == 0 then ""
    else if |parts| == 1 then parts[0]
    else parts[0] + sep + Join(parts[1..], sep)
  }

  /** Joining pieces that do not contain the separator and splitting again
      gives the pieces back. */
  lemma {:induction false} SplitJoin(parts: seq<string>, sep: char)
    requires |parts| >= 1
    requires forall i :: 0 <= i < |parts| ==> sep !in parts[i]
    ensures Split(Join(parts, [sep]), sep) == parts
    decreases |parts|
  {
    if |parts| == 1 {
      assert Join(parts, [sep]) == parts[0];
    } else {
      SplitAt(parts[0], sep, Join(parts[1..], [sep]));
      SplitJoin(parts[1..], sep);
      assert [parts[0]] + parts[1..] == parts;
    }
  }

  /** A first piece without the separator is split off whole. */
  lemma SplitAt(a: string, sep: char, rest: string)
    requires sep !in a
    ensures Split(a + [sep] + rest, sep) == [a] + Split(rest, sep)
  {
    var s := a + [sep] + rest;
    assert s[..|a|] == a;
    IndexOfFirst(s, sep, |a|);
    assert s[|a| + 1..] == rest;
  }

  /** Splitting and joining again gives the original string. */
  lemma {:induction false} JoinSplit(s: string, sep: char)
    ensures Join(Split(s, sep), [sep]) == s
    decreases |s|
  {
    match IndexOf(s, sep)
    case None =>
    case Some(i) =>
      var tail := Split(s[i + 1..], sep);
      JoinSplit(s[i + 1..], sep);
      assert Split(s, sep) == [s[..i]] + tail;
      assert ([s[..i]] + tail)[1..] == tail;
      assert s == s[..i] + [sep] + s[i + 1..];
  }

  // ------------------------------------------------------------------
  // Decimal numbers
  // ------------------------------------------------------------------

  /** Decimal digits of `n` without leading zeros (Go %d, Python str()). */
  function NatToDigits(n: nat): (r: string)
    ensures |r| >= 1 && AllDigits(r)
    ensures |r| > 1 ==> r[0] != '0'
  {
    if n < 10 then [DigitChar(n)] else NatToDigits(n / 10) + [DigitChar(n % 10)]
  }

  /** The number a run of decimal digits denotes (leading zeros allowed). */
  function DigitsValue(s: string): nat
    requires AllDigits(s)
  {
    if |s| == 0 then 0 else DigitsValue(s[..|s| - 1]) * 10 + DigitValue(s[|s| - 1])
  }

  lemma {:induction false} DigitsRoundTrip(n: nat)
    ensures DigitsValue(NatToDigits(n)) == n
  {
    if n >= 10 {
      var d := NatToDigits(n);
      DigitsRoundTrip(n / 10);
      assert d[..|d| - 1] == NatToDigits(n / 10);
    }
  }

  function Pow10(k: nat): (r: nat)
    ensures r >= 1
  {
    if k == 0 then 1 else 10 * Pow10(k - 1)
  }

  lemma Pow10Ten()
    ensures Pow10(10) == 10_000_000_000
  {
    assert Pow10(2) == 100;
    assert Pow10(4) == 10_000;
    assert Pow10(6) == 1_000_000;
    assert Pow10(8) == 100_000_000;
  }

  lemma {:induction false} DigitsLength(n: nat, k: nat)
    requires n < Pow10(k)
    ensures |NatToDigits(n)| <= Max(k, 1)
  {
    if n >= 10 {
      assert k >= 2;
      DigitsLength(n / 10, k - 1);
    }
  }

  /** Go's %d formatting of a signed integer. */
  function IntToString(n: int): (r: string)
    ensures |r| >= 1
    ensures n >= 0 ==> r == NatToDigits(n)
    ensures n < 0 ==> r[0] == '-' && r[1..] == NatToDigits(-n)
  {
    if n < 0 then "-" + NatToDigits(-n) else NatToDigits(n)
  }

  const MinInt64: int := -0x8000_0000_0000_0000
  const MaxInt64: int := 0x7FFF_FFFF_FFFF_FFFF

  /** Index just past the run of decimal digits that starts at `j`. */
  function DigitRunEnd(s: string, j: nat): (k: nat)
    requires j <= |s|
    ensures j <= k <= |s|
    ensures AllDigits(s[j..k])
    ensures k < |s| ==> !IsDigit(s[k])
    decreases |s| - j
  {
    if j < |s| && IsDigit(s[j]) then
      var k := DigitRunEnd(s, j + 1);
      assert s[j..k] == [s[j]] + s[j + 1..k];
      k
    else j
  }

  /** A maximal digit run from `j` to `k` is what `DigitRunEnd` finds. */
  lemma {:induction false} DigitRunOf(s: string, j: nat, k: nat)
    requires j <= k <= |s| && AllDigits(s[j..k])
    requires k == |s| || !IsDigit(s[k])
    ensures DigitRunEnd(s, j) == k
    decreases k - j
  {
    if j < k {
      assert s[j..k][0] == s[j];
      assert s[j + 1..k] == s[j..k][1..];
      DigitRunOf(s, j + 1, k);
    }
  }

  /** Whitespace that Go's fmt scanner skips before a number in Sscanf; a
      newline is not skipped there (it ends the scan with an error, exactly as
      a non-digit does). */
  predicate IsScanSpace(c: char) { IsGoSpace(c) && c != '\n' }

  /** fmt.Sscanf(s, "%d", &x): skips blanks, reads an optional sign and the
      longest run of decimal digits, and parses it in base 10. It fails
      (leaving x unassigned) when there is no digit or the value does not
      fit a 64-bit int. Text after the digits, an underscore included, is
      ignored. */
  function ScanInt(s: string): (r: Option<int>)
    ensures r.Some? ==> MinInt64 <= r.value <= MaxInt64
  {
    var i := SkipWhile(s, 0, IsScanSpace);
    var neg := i < |s| && s[i] == '-';
    var j := if i < |s| && (s[i] == '+' || s[i] == '-') then i + 1 else i;
    var k := DigitRunEnd(s, j);
    if k == j then None
    else
      var v := DigitsValue(s[j..k]);
      var x: int := if neg then -(v as int) else v;
      if MinInt64 <= x <= MaxInt64 then Some(x) else None
  }

  /** A string that starts with neither a blank, a sign nor a digit scans to nothing. */
  lemma ScanIntNoNumber(s: string)
    requires |s| > 0 && !IsScanSpace(s[0]) && s[0] != '+' && s[0] != '-' && !IsDigit(s[0])
    ensures ScanInt(s) == None
  {
  }

  lemma ScanIntDigits(n: nat)
    requires n <= MaxInt64
    ensures ScanInt(NatToDigits(n)) == Some(n)
  {
    var d := NatToDigits(n);
    assert SkipWhile(d, 0, IsScanSpace) == 0;
    DigitRunOf(d, 0, |d|);
    assert d[0..|d|] == d;
    DigitsRoundTrip(n);
  }

  /** `%d` reads decimal digits only: an underscore ends the number, and
      one before any digit leaves nothing to read. */
  lemma ScanIntUnderscore()
    ensures ScanInt("12_4") == Some(12) && ScanInt("_7") == None
  {
    DigitRunOf("12_4", 0, 2);
    assert "12_4"[0..2] == "12";
    assert DigitsValue("12") == 12;
  }

  /** strconv.Atoi: an optional sign followed by one or more decimal digits and
      nothing else, within the 64-bit range. */
  function Atoi(s: string): (r: Option<int>)
    ensures r.Some? ==> |s| > 0 && MinInt64 <= r.value <= MaxInt64
    ensures r.Some? && AllDigits(s) ==> r.value == DigitsValue(s)
  {
    var j := if |s| > 0 && (s[0] == '+' || s[0] == '-') then 1 else 0;
    var body := s[j..];
    if |body| == 0 || !AllDigits(body) then None
    else
      var v := DigitsValue(body);
      var x: int := if j == 1 && s[0] == '-' then -(v as int) else v;
      if MinInt64 <= x <= MaxInt64 then Some(x) else None
  }

  lemma AtoiDigits(n: nat)
    requires n <= MaxInt64
    ensures Atoi(NatToDigits(n)) == Some(n)
  {
    DigitsRoundTrip(n);
    assert NatToDigits(n)[0..] == NatToDigits(n);
  }

  // ------------------------------------------------------------------
  // Leftmost search
  // ------------------------------------------------------------------

  /** The least position in [i, n) at which `f` succeeds: the way a regular
      expression search reports its leftmost match. */
  function FirstMatch<T>(f: nat -> Option<T>, i: nat, n: nat): (r: Option<nat>)
    ensures r.Some? ==> i <= r.value < n && f(r.value).Some?
    ensures r.Some? ==> forall j :: i <= j < r.value ==> f(j).None?
    ensures r.None? ==> forall j :: i <= j < n ==> f(j).None?
    decreases n - i
  {
    if i >= n then None
    else if f(i).Some? then Some(i)
    else FirstMatch(f, i + 1, n)
  }

  /** A search that fails before `k` and succeeds at `k` reports `k`. */
  lemma FirstMatchAt<T>(f: nat -> Option<T>, i: nat, n: nat, k: nat)
    requires i <= k < n && f(k).Some?
    requires forall j: nat :: i <= j < k ==> f(j).None?
    ensures FirstMatch(f, i, n) == Some(k)
  {
  }

  /** The first success of `f` from `i` up to `n`. */
  function LeftmostFrom<T>(f: nat -> Option<T>, i: nat, n: nat): Option<T>
    decreases n - i, 1
  {
    if i >= n then None else LeftmostTry(f, i, n)
  }

  /** Tries position `i < n`, then moves on. */
  function LeftmostTry<T>(f: nat -> Option<T>, i: nat, n: nat): Option<T>
    requires i < n
    decreases n - i, 0
  {
    if f(i).Some? then f(i) else LeftmostFrom(f, i + 1, n)
  }

  /** The result of the first success of `f` below `n`: how a leftmost
      regular-expression search reports its match. */
  function Leftmost<T>(f: nat -> Option<T>, n: nat): Option<T>
  {
    LeftmostFrom(f, 0, n)
  }

  lemma {:induction false} LeftmostFromAt<T>(f: nat -> Option<T>, i: nat, n: nat, k: nat)
    requires i <= k < n && f(k).Some?
    requires forall j: nat :: i <= j < k ==> f(j).None?
    ensures LeftmostFrom(f, i, n) == f(k)
    decreases k - i
  {
    if i < k {
      LeftmostFromAt(f, i + 1, n, k);
    }
  }

  lemma {:induction false} LeftmostFromNone<T>(f: nat -> Option<T>, i: nat, n: nat)
    requires forall j: nat :: i <= j < n ==> f(j).None?
    ensures LeftmostFrom(f, i, n).None?
    decreases n - i
  {
    if i < n {
      LeftmostFromNone(f, i + 1, n);
    }
  }

  /** Whatever the search reports is the result of `f` somewhere before `n`. */
  lemma {:induction false} LeftmostFromSome<T>(f: nat -> Option<T>, i: nat, n: nat)
    ensures LeftmostFrom(f, i, n).Some? ==> exists j: nat :: i <= j < n && LeftmostFrom(f, i, n) == f(j)
    decreases n - i
  {
    if i < n {
      assert LeftmostFrom(f, i, n) == LeftmostTry(f, i, n);
      if f(i).None? {
        LeftmostFromSome(f, i + 1, n);
      }
    }
  }

  lemma LeftmostSome<T>(f: nat -> Option<T>, n: nat)
    ensures Leftmost(f, n).Some? ==> exists j: nat :: j < n && Leftmost(f, n) == f(j)
  {
    LeftmostFromSome(f, 0, n);
  }

  /** A search that fails before `k` and succeeds at `k` reports `f(k)`. */
  lemma LeftmostAt<T>(f: nat -> Option<T>, n: nat, k: nat)
    requires k < n && f(k).Some?
    requires forall j: nat :: j < k ==> f(j).None?
    ensures Leftmost(f, n) == f(k)
  {
    LeftmostFromAt(f, 0, n, k);
  }

  /** A search that never succeeds below `n` reports nothing. */
  lemma LeftmostNone<T>(f: nat -> Option<T>, n: nat)
    requires forall j: nat :: j < n ==> f(j).None?
    ensures Leftmost(f, n).None?
  {
    LeftmostFromNone(f, 0, n);
  }

  /** The index of the first element satisfying `p`. */
  function FirstIndex<T>(s: seq<T>, p: T -> bool): (r: Option<nat>)
    ensures r.Some? ==> r.value < |s| && p(s[r.value])
    ensures r.Some? ==> forall j :: 0 <= j < r.value ==> !p(s[j])
    ensures r.None? <==> forall j :: 0 <= j < |s| ==> !p(s[j])
  {
    if |s| == 0 then None
    else if p(s[0]) then Some(0)
    else match FirstIndex(s[1..], p)
      case None => assert forall j :: 1 <= j < |s| ==> s[j] == s[1..][j - 1]; None
      case Some(i) => Some(i + 1)
  }
}
