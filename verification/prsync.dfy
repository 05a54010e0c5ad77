/** The pull-request synchroniser's readers: the `ADO ...:` directives of a
    pull-request description, modelled at character level as the script's
    regular expressions match them. The plans built from them are in module
    `PrSyncPlan`. */
module PrSync {
  import opened Common
  import opened Client

  // ------------------------------------------------------------------
  // Directive matching: the prefix `ADO\s*<Word>\s*:` under re.IGNORECASE
  // ------------------------------------------------------------------

  /** Case-insensitive match of `c` against the lower-case ASCII letter `l`
      under Python's re.IGNORECASE: simple lower-case mapping, plus the extra
      equivalences the re module adds for i (dotless i) and s (long s). */
  predicate FoldsTo(c: char, l: char)
  {
    LowerChar(c) == l
    || (l == 'i' && (c == '\U{0130}' || c == '\U{0131}'))
    || (l == 'k' && c == '\U{212A}')
    || (l == 's' && c == '\U{017F}')
  }

  /** The lower-case word `w` occurs case-insensitively at `i`. */
  predicate WordAt(s: string, i: nat, w: string)
  {
    i + |w| <= |s| && forall k :: 0 <= k < |w| ==> FoldsTo(s[i + k], w[k])
  }

  /** No directive can start in `s`: no character folds to the `a` of `ADO`. */
  predicate NoDirectiveStart(s: string)
  {
    forall k :: 0 <= k < |s| ==> !FoldsTo(s[k], 'a')
  }

  /** A word of lower-case ASCII letters, as the directive names are. */
  predicate LowerWord(w: string)
  {
    |w| > 0 && forall k :: 0 <= k < |w| ==> 'a' <= w[k] <= 'z'
  }

  /** The names of the list directives. */
  lemma ListWordsLower()
    ensures LowerWord("children") && LowerWord("links")
  {
  }

  /** The position just after `ADO\s*<word>\s*:` when that prefix matches at `i`. */
  function DirectiveEnd(s: string, i: nat, word: string): (r: Option<nat>)
    requires i <= |s|
    ensures r.Some? ==> WordAt(s, i, "ado") && i + 4 + |word| <= r.value <= |s| && s[r.value - 1] == ':'
  {
    if !WordAt(s, i, "ado") then None
    else
      var j := SkipWhile(s, i + 3, IsPySpace);
      if !WordAt(s, j, word) then None
      else
        var k := SkipWhile(s, j + |word|, IsPySpace);
        if k < |s| && s[k] == ':' then Some(k + 1) else None
  }

  /** No directive starts inside a prefix without a character folding to `a`. */
  lemma NoDirectiveBefore(s: string, n: nat)
    requires n <= |s| && NoDirectiveStart(s[..n])
    ensures forall j: nat, word: string :: j < n ==> DirectiveEnd(s, j, word).None?
  {
    forall j: nat, word: string | j < n
      ensures DirectiveEnd(s, j, word).None?
    {
      assert s[..n][j] == s[j];
      assert "ado"[0] == 'a';
    }
  }

  /** A letter that folds to a lower-case ASCII letter is no blank, colon,
      digit, bullet or newline. */
  lemma FoldedLetter(c: char, l: char)
    requires 'a' <= l <= 'z' && FoldsTo(c, l)
    ensures !IsPySpace(c) && c != ':' && !IsDigit(c)
  {
  }

  /** `ADO <Word>:` written at `p` is a directive ending after the colon. */
  lemma DirectiveAt(s: string, p: nat, word: string)
    requires LowerWord(word) && p + 5 + |word| <= |s|
    requires WordAt(s, p, "ado") && IsPySpace(s[p + 3]) && WordAt(s, p + 4, word) && s[p + 4 + |word|] == ':'
    ensures DirectiveEnd(s, p, word) == Some(p + 5 + |word|)
  {
    var n := |word|;
    assert FoldsTo(s[p + 4], word[0]);
    FoldedLetter(s[p + 4], word[0]);
    SkipRun(s, p + 3, p + 4, IsPySpace);
    SkipRun(s, p + 4 + n, p + 4 + n, IsPySpace);
  }

  predicate IsNewline(c: char) { c == '\n' }

  predicate NotNewline(c: char) { c != '\n' }

  /** Where `\s*` followed by `.` starts under backtracking: the greedy
      whitespace run from `p`, given back one character at a time until a
      non-newline character follows. None when only newlines remain. */
  function ValueStart(s: string, p: nat): (q: Option<nat>)
    requires p <= |s|
    ensures q.Some? ==> p <= q.value < |s| && s[q.value] != '\n'
  {
    var e := SkipWhile(s, p, IsPySpace);
    if e < |s| then Some(e)
    else
      var b := SkipBackWhile(s, e, IsNewline);
      if b > p then Some(b - 1) else None
  }

  /** The backtracking in `ValueStart`: the value starts after blanks only,
      at the last place where a non-newline follows; it fails exactly when
      only newlines remain. */
  lemma ValueStartSpec(s: string, p: nat)
    requires p <= |s|
    ensures ValueStart(s, p).Some? ==> forall k :: p <= k < ValueStart(s, p).value ==> IsPySpace(s[k])
    ensures ValueStart(s, p).Some? ==>
      forall k :: ValueStart(s, p).value < k < |s| && (forall m :: p <= m < k ==> IsPySpace(s[m])) ==> s[k] == '\n'
    ensures ValueStart(s, p).None? <==> forall k :: p <= k < |s| ==> s[k] == '\n'
  {
    var e := SkipWhile(s, p, IsPySpace);
    if e == |s| {
      var b := SkipBackWhile(s, e, IsNewline);
      if b <= p {
        assert forall k :: p <= k < |s| ==> s[k] == '\n';
      }
    }
  }

  /** The end of the line containing position `q`: the next newline or the end. */
  function LineEnd(s: string, q: nat): (t: nat)
    requires q <= |s|
    ensures q <= t <= |s| && '\n' !in s[q..t]
    ensures t < |s| ==> s[t] == '\n'
  {
    SkipWhile(s, q, NotNewline)
  }

  /** A line of `n` characters followed by a newline or the end. */
  lemma LineOf(s: string, q: nat, n: nat)
    requires q + n <= |s| && '\n' !in s[q..q + n]
    requires q + n == |s| || s[q + n] == '\n'
    ensures LineEnd(s, q) == q + n
  {
    assert forall k :: q <= k < q + n ==> s[q..q + n][k - q] == s[k];
    SkipRun(s, q, q + n, NotNewline);
  }

  /** One blank and then a non-blank: the value starts after the blank. */
  lemma ValueAfterBlank(s: string, q: nat)
    requires q + 1 < |s| && IsPySpace(s[q]) && !IsPySpace(s[q + 1])
    ensures ValueStart(s, q) == Some(q + 1)
  {
    SkipRun(s, q, q + 1, IsPySpace);
  }

  // ------------------------------------------------------------------
  // Card number: ADO\s*Card\s*:\s*(\d+)
  // ------------------------------------------------------------------

  /** The card number a match at `i` captures. */
  function CardAt(s: string, i: nat): Option<nat>
  {
    if i > |s| then None
    else match DirectiveEnd(s, i, "card")
      case None => None
      case Some(p) =>
        var m := SkipWhile(s, p, IsPySpace);
        var e := DigitRunEnd(s, m);
        if e == m then None else Some(DigitsValue(s[m..e]))
  }

  /** A card match at each position of `s`. */
  function CardMatcher(s: string): nat -> Option<nat>
  {
    (i: nat) => CardAt(s, i)
  }

  /** `extract_ado_card_number`: the number of the leftmost match, if any. */
  function ExtractCard(s: string): Option<nat>
  {
    Leftmost(CardMatcher(s), |s| + 1)
  }

  /** The leftmost card match decides the card number. */
  lemma ExtractCardAt(s: string, p: nat)
    requires p <= |s| && CardAt(s, p).Some?
    requires forall j: nat :: j < p ==> CardAt(s, j).None?
    ensures ExtractCard(s) == CardAt(s, p)
  {
    LeftmostAt(CardMatcher(s), |s| + 1, p);
  }

  /** `ADO Card: ` written at `p`, then a run of digits ending at `e`, is a
      match capturing that run. */
  lemma CardAtParts(s: string, p: nat, e: nat)
    requires p + 10 < e <= |s|
    requires WordAt(s, p, "ado") && s[p + 3] == ' ' && WordAt(s, p + 4, "card") && s[p + 8] == ':' && s[p + 9] == ' '
    requires AllDigits(s[p + 10..e]) && (e == |s| || !IsDigit(s[e]))
    ensures CardAt(s, p) == Some(DigitsValue(s[p + 10..e]))
  {
    DirectiveAt(s, p, "card");
    assert s[p + 10..e][0] == s[p + 10];
    SkipRun(s, p + 9, p + 10, IsPySpace);
    DigitRunOf(s, p + 10, e);
  }

  /** The literal `ADO Card: ` at `p`, read character by character. */
  lemma CardHeader(s: string, p: nat)
    requires p + 10 <= |s| && s[p..p + 10] == "ADO Card: "
    ensures WordAt(s, p, "ado") && s[p + 3] == ' ' && WordAt(s, p + 4, "card") && s[p + 8] == ':' && s[p + 9] == ' '
  {
    var t := s[p..p + 10];
    assert forall k :: 0 <= k < 10 ==> s[p + k] == t[k];
    assert t[0] == 'A' && t[1] == 'D' && t[2] == 'O' && t[3] == ' ' && t[4] == 'C';
    assert t[5] == 'a' && t[6] == 'r' && t[7] == 'd' && t[8] == ':' && t[9] == ' ';
  }

  /** A description that writes `ADO Card: <n>` yields n, whatever follows
      the digits, provided nothing before it starts a directive. */
  lemma CardRoundTrip(prefix: string, n: nat, rest: string)
    requires NoDirectiveStart(prefix)
    requires |rest| == 0 || !IsDigit(rest[0])
    ensures ExtractCard(prefix + "ADO Card: " + NatToDigits(n) + rest) == Some(n)
  {
    var d := NatToDigits(n);
    var s := prefix + "ADO Card: " + d + rest;
    var p := |prefix|;
    var e := p + 10 + |d|;
    assert s[..p] == prefix;
    assert CardAt(s, p) == Some(n) by {
      assert s[p..p + 10] == "ADO Card: ";
      CardHeader(s, p);
      assert s[p + 10..e] == d;
      assert e < |s| ==> s[e] == rest[0];
      CardAtParts(s, p, e);
      DigitsRoundTrip(n);
    }
    NoDirectiveBefore(s, p);
    ExtractCardAt(s, p);
  }

  /** A description without any character that folds to `a` has no card. */
  lemma CardAbsent(s: string)
    requires NoDirectiveStart(s)
    ensures ExtractCard(s) == None
  {
    assert s[..|s|] == s;
    NoDirectiveBefore(s, |s|);
    assert DirectiveEnd(s, |s|, "card").None?;
    LeftmostNone(CardMatcher(s), |s| + 1);
  }

  // ------------------------------------------------------------------
  // Comma-separated pieces
  // ------------------------------------------------------------------

  /** A piece that survives cleaning: non-empty and already stripped. */
  predicate Clean(t: string)
  {
    |t| > 0 && IsTrimmed(t, IsPySpace)
  }

  /** `[p.strip() for p in parts if p.strip()]`. */
  function CleanPieces(parts: seq<string>): (r: seq<string>)
    ensures |r| <= |parts|
    ensures forall k :: 0 <= k < |r| ==> Clean(r[k])
    ensures forall c :: NoneContain(parts, c) ==> NoneContain(r, c)
  {
    if |parts| == 0 then []
    else
      var t := Trim(parts[0], IsPySpace);
      var rest := CleanPieces(parts[1..]);
      assert forall c :: NoneContain(parts, c) ==> NoneContain(parts[1..], c) && c !in t;
      if |t| > 0 then [t] + rest else rest
  }

  /** No string of `ts` contains `c`. */
  predicate NoneContain(ts: seq<string>, c: char)
  {
    forall k :: 0 <= k < |ts| ==> c !in ts[k]
  }

  /** Cleaning clean pieces changes nothing. */
  lemma {:induction false} CleanPiecesOfClean(parts: seq<string>)
    requires forall k :: 0 <= k < |parts| ==> Clean(parts[k])
    ensures CleanPieces(parts) == parts
  {
    if |parts| > 0 {
      TrimOfTrimmed(parts[0], IsPySpace);
      CleanPiecesOfClean(parts[1..]);
    }
  }

  /** Cleaning is idempotent. */
  lemma CleanPiecesIdempotent(parts: seq<string>)
    ensures CleanPieces(CleanPieces(parts)) == CleanPieces(parts)
  {
    CleanPiecesOfClean(CleanPieces(parts));
  }

  /** The pieces every one but the first gets a blank in front of. */
  function Padded(ts: seq<string>): (r: seq<string>)
    requires |ts| >= 1
    ensures |r| == |ts| && r[0] == ts[0]
    ensures forall k :: 1 <= k < |ts| ==> r[k] == " " + ts[k]
  {
    [ts[0]] + seq(|ts| - 1, k requires 0 <= k < |ts| - 1 => " " + ts[k + 1])
  }

  /** Joining with `<sep> ` is joining the padded pieces with `<sep>`. */
  lemma {:induction false} JoinPadded(ts: seq<string>, sep: char)
    requires |ts| >= 1
    ensures Join(ts, [sep, ' ']) == Join(Padded(ts), [sep])
    decreases |ts|
  {
    if |ts| > 1 {
      JoinPadded(ts[1..], sep);
      var tail := Padded(ts)[1..];
      assert tail[0] == " " + ts[1];
      assert tail[1..] == Padded(ts[1..])[1..];
      if |tail| == 1 {
        assert Join(tail, [sep]) == " " + Join(Padded(ts[1..]), [sep]);
      } else {
        assert Join(tail, [sep]) == tail[0] + [sep] + Join(tail[1..], [sep]);
        assert Join(Padded(ts[1..]), [sep]) == ts[1] + [sep] + Join(Padded(ts[1..])[1..], [sep]);
      }
      assert Join(Padded(ts), [sep]) == ts[0] + [sep] + Join(tail, [sep]);
    }
  }

  /** Splitting a `<sep> `-join on `<sep>` gives the padded pieces. */
  lemma PaddedSplit(ts: seq<string>, sep: char)
    requires |ts| >= 1 && sep != ' '
    requires forall k :: 0 <= k < |ts| ==> sep !in ts[k]
    ensures Split(Join(ts, [sep, ' ']), sep) == Padded(ts)
  {
    var pad := Padded(ts);
    JoinPadded(ts, sep);
    forall k | 0 <= k < |pad|
      ensures sep !in pad[k]
    {
      if k > 0 {
        assert pad[k] == [' '] + ts[k];
      }
    }
    SplitJoin(pad, sep);
  }

  /** Cleaning the padded pieces of clean pieces gives the pieces. */
  lemma PaddedClean(ts: seq<string>)
    requires |ts| >= 1
    requires forall k :: 0 <= k < |ts| ==> Clean(ts[k])
    ensures CleanPieces(Padded(ts)) == ts
  {
    var pad := Padded(ts);
    forall k | 0 <= k < |pad|
      ensures Trim(pad[k], IsPySpace) == ts[k]
    {
      if k == 0 {
        TrimOfTrimmed(ts[0], IsPySpace);
      } else {
        TrimPadded(" ", ts[k], "", IsPySpace);
        assert " " + ts[k] + "" == pad[k];
      }
    }
    CleanPiecesTrimmed(pad, ts);
  }

  /** Clean pieces written as `a<sep> b<sep> c` are read back by splitting on
      `<sep>` and cleaning: the round trip of both the `ADO Tags:` line and
      the `; `-separated tags field. */
  lemma SpacedJoinRoundTrip(ts: seq<string>, sep: char)
    requires |ts| >= 1 && sep != ' '
    requires forall k :: 0 <= k < |ts| ==> Clean(ts[k]) && sep !in ts[k]
    ensures CleanPieces(Split(Join(ts, [sep, ' ']), sep)) == ts
  {
    PaddedSplit(ts, sep);
    PaddedClean(ts);
  }

  /** Cleaning pieces that trim to the clean `ts` gives `ts`. */
  lemma {:induction false} CleanPiecesTrimmed(pad: seq<string>, ts: seq<string>)
    requires |pad| == |ts|
    requires forall k :: 0 <= k < |ts| ==> Clean(ts[k]) && Trim(pad[k], IsPySpace) == ts[k]
    ensures CleanPieces(pad) == ts
  {
    if |pad| > 0 {
      CleanPiecesTrimmed(pad[1..], ts[1..]);
      assert [ts[0]] + ts[1..] == ts;
    }
  }

  /** A character occurring in neither the pieces nor the separator does not occur in the join. */
  lemma {:induction false} JoinAvoids(parts: seq<string>, sep: string, c: char)
    requires c !in sep && forall k :: 0 <= k < |parts| ==> c !in parts[k]
    ensures c !in Join(parts, sep)
  {
    if |parts| > 1 {
      JoinAvoids(parts[1..], sep, c);
    }
  }

  /** A join starts with the first piece. */
  lemma JoinStarts(parts: seq<string>, sep: string)
    requires |parts| >= 1
    ensures parts[0] <= Join(parts, sep)
  {
  }

  // ------------------------------------------------------------------
  // Tags: ADO\s*Tags\s*:\s*(.+?)(?:\n|$)
  // ------------------------------------------------------------------

  /** The line a tags match at `i` captures. */
  function TagsLineAt(s: string, i: nat): (r: Option<string>)
    ensures r.Some? ==> |r.value| > 0 && '\n' !in r.value
  {
    if i > |s| then None
    else match DirectiveEnd(s, i, "tags")
      case None => None
      case Some(p) =>
        match ValueStart(s, p)
        case None => None
        case Some(q) => Some(s[q..LineEnd(s, q)])
  }

  /** A tags match at each position of `s`. */
  function TagsMatcher(s: string): nat -> Option<string>
  {
    (i: nat) => TagsLineAt(s, i)
  }

  /** The line the leftmost tags match captures, if any. */
  function TagsLine(s: string): Option<string>
  {
    Leftmost(TagsMatcher(s), |s| + 1)
  }

  lemma TagsLineLeftmost(s: string, p: nat)
    requires p <= |s| && TagsLineAt(s, p).Some?
    requires forall j: nat :: j < p ==> TagsLineAt(s, j).None?
    ensures TagsLine(s) == TagsLineAt(s, p)
  {
    LeftmostAt(TagsMatcher(s), |s| + 1, p);
  }

  /** `extract_tags`: the comma-separated pieces of the leftmost match's
      line, stripped, empty ones dropped, in order. */
  function ExtractTags(s: string): (r: seq<string>)
    ensures forall k :: 0 <= k < |r| ==> Clean(r[k]) && ',' !in r[k] && '\n' !in r[k]
    ensures TagsLine(s).None? ==> r == []
    ensures TagsLine(s).Some? ==> r == CleanPieces(Split(TagsLine(s).value, ','))
  {
    match TagsLine(s)
    case None => []
    case Some(line) =>
      LeftmostSome(TagsMatcher(s), |s| + 1);
      var parts := Split(line, ',');
      assert forall k :: 0 <= k < |parts| ==> '\n' !in parts[k] by {
        forall k | 0 <= k < |parts|
          ensures '\n' !in parts[k]
        {
          SplitPieceInside(line, ',', k);
        }
      }
      assert NoneContain(parts, '\n') && NoneContain(parts, ',');
      CleanPieces(parts)
  }

  /** Every piece of a split consists of characters of the split string. */
  lemma {:induction false} SplitPieceInside(s: string, sep: char, k: nat)
    requires k < |Split(s, sep)|
    ensures forall c :: c in Split(s, sep)[k] ==> c in s
    decreases |s|
  {
    match IndexOf(s, sep)
    case None =>
    case Some(i) =>
      if k > 0 {
        SplitPieceInside(s[i + 1..], sep, k - 1);
        assert forall c :: c in s[i + 1..] ==> c in s;
      } else {
        assert forall c :: c in s[..i] ==> c in s;
      }
  }

  /** The literal `ADO Tags: ` at `p`, read character by character. */
  lemma TagsHeader(s: string, p: nat)
    requires p + 10 <= |s| && s[p..p + 10] == "ADO Tags: "
    ensures WordAt(s, p, "ado") && s[p + 3] == ' ' && WordAt(s, p + 4, "tags") && s[p + 8] == ':' && s[p + 9] == ' '
  {
    var t := s[p..p + 10];
    assert forall k :: 0 <= k < 10 ==> s[p + k] == t[k];
    assert t[0] == 'A' && t[1] == 'D' && t[2] == 'O' && t[3] == ' ' && t[4] == 'T';
    assert t[5] == 'a' && t[6] == 'g' && t[7] == 's' && t[8] == ':' && t[9] == ' ';
  }

  /** Unfolds a tags match once its directive end and value start are known. */
  lemma TagsLineAtOf(s: string, p: nat, d: nat, q: nat)
    requires p <= d <= |s| && DirectiveEnd(s, p, "tags") == Some(d) && ValueStart(s, d) == Some(q)
    ensures TagsLineAt(s, p) == Some(s[q..LineEnd(s, q)])
  {
  }

  /** `ADO Tags: ` written at `p`, then a line starting with a non-blank and
      ending at the newline at `e`, is a match capturing that line. */
  lemma TagsLineAtParts(s: string, p: nat, e: nat)
    requires p + 10 < e < |s|
    requires WordAt(s, p, "ado") && s[p + 3] == ' ' && WordAt(s, p + 4, "tags") && s[p + 8] == ':' && s[p + 9] == ' '
    requires !IsPySpace(s[p + 10]) && '\n' !in s[p + 10..e] && s[e] == '\n'
    ensures TagsLineAt(s, p) == Some(s[p + 10..e])
  {
    DirectiveAt(s, p, "tags");
    ValueAfterBlank(s, p + 9);
    LineOf(s, p + 10, e - p - 10);
    TagsLineAtOf(s, p, p + 9, p + 10);
  }


  /** Tags written on an `ADO Tags:` line, comma-and-blank separated, are
      read back unchanged, whatever follows the line. */
  lemma TagsRoundTrip(prefix: string, tags: seq<string>, rest: string)
    requires NoDirectiveStart(prefix)
    requires |tags| >= 1
    requires forall k :: 0 <= k < |tags| ==> Clean(tags[k]) && ',' !in tags[k] && '\n' !in tags[k]
    ensures ExtractTags(prefix + "ADO Tags: " + Join(tags, ", ") + "\n" + rest) == tags
  {
    var line := Join(tags, ", ");
    JoinAvoids(tags, ", ", '\n');
    JoinStarts(tags, ", ");
    TagsLineOf(prefix, line, rest);
    assert [',', ' '] == ", ";
    SpacedJoinRoundTrip(tags, ',');
  }

  /** The tags line written after a prefix without directives is the one read. */
  lemma TagsLineOf(prefix: string, line: string, rest: string)
    requires NoDirectiveStart(prefix)
    requires |line| > 0 && !IsPySpace(line[0]) && '\n' !in line
    ensures TagsLine(prefix + "ADO Tags: " + line + "\n" + rest) == Some(line)
  {
    var s := prefix + "ADO Tags: " + line + "\n" + rest;
    var p := |prefix|;
    TagsAt(prefix, line, rest);
    assert s[..p] == prefix;
    NoTagsBefore(s, p);
    TagsLineLeftmost(s, p);
  }


  /** No tags match starts inside a prefix where no directive can start. */
  lemma NoTagsBefore(s: string, n: nat)
    requires n <= |s| && NoDirectiveStart(s[..n])
    ensures forall j: nat :: j < n ==> TagsLineAt(s, j).None?
  {
    forall j: nat | j < n
      ensures TagsLineAt(s, j).None?
    {
      assert s[..n][j] == s[j];
      assert "ado"[0] == 'a';
      assert DirectiveEnd(s, j, "tags").None?;
    }
  }

  /** The line after `ADO Tags: ` is captured when it starts with a non-blank. */
  lemma TagsAt(prefix: string, line: string, rest: string)
    requires |line| > 0 && !IsPySpace(line[0]) && '\n' !in line
    ensures TagsLineAt(prefix + "ADO Tags: " + line + "\n" + rest, |prefix|) == Some(line)
  {
    var s := prefix + "ADO Tags: " + line + "\n" + rest;
    var p := |prefix|;
    var e := p + 10 + |line|;
    assert s[p..p + 10] == "ADO Tags: ";
    TagsHeader(s, p);
    assert s[p + 10..e] == line;
    TagsLineAtParts(s, p, e);
  }

  // ------------------------------------------------------------------
  // Bulleted lists: ADO\s*<Word>\s*:\s*\n((?:\s*[-*]\s*.+\n?)+)
  // ------------------------------------------------------------------

  predicate IsBullet(c: char) { c == '-' || c == '*' }

  /** One `\s*[-*]\s*.+\n?` item starting at `pos`: the text `.+` captures
      (which `[-*]\s*(.+)` also finds when the block is scanned again) and
      where the next item starts. */
  function ItemAt(s: string, pos: nat): (r: Option<(string, nat)>)
    requires pos <= |s|
    ensures r.Some? ==> pos < r.value.1 <= |s| && |r.value.0| > 0 && '\n' !in r.value.0
  {
    var w := SkipWhile(s, pos, IsPySpace);
    if w < |s| && IsBullet(s[w]) then
      match ValueStart(s, w + 1)
      case None => None
      case Some(q) =>
        var t := LineEnd(s, q);
        Some((s[q..t], if t < |s| then t + 1 else t))
    else None
  }

  /** The texts of the items from `pos` on, as the greedy repetition takes them. */
  function ItemsFrom(s: string, pos: nat): (r: seq<string>)
    requires pos <= |s|
    ensures forall k :: 0 <= k < |r| ==> |r[k]| > 0 && '\n' !in r[k]
    decreases |s| - pos
  {
    match ItemAt(s, pos)
    case None => []
    case Some((text, next)) => [text] + ItemsFrom(s, next)
  }

  /** Where the block of a list match at `i` starts: after the last newline of
      the blank run that follows the colon, when an item follows. */
  function BlockAt(s: string, i: nat, word: string): (r: Option<nat>)
    ensures r.Some? ==> r.value <= |s|
  {
    if i > |s| then None
    else match DirectiveEnd(s, i, word)
      case None => None
      case Some(p) =>
        var e := SkipWhile(s, p, IsPySpace);
        match LastIndexOf(s[p..e], '\n')
        case None => None
        case Some(n) => if ItemAt(s, p + n + 1).Some? then Some(p + n + 1) else None
  }

  /** A list match for `word` at each position of `s`. */
  function BlockMatcher(s: string, word: string): nat -> Option<nat>
  {
    (i: nat) => BlockAt(s, i, word)
  }

  /** The block start of the leftmost list match for `word`, if any. */
  function Block(s: string, word: string): Option<nat>
  {
    Leftmost(BlockMatcher(s, word), |s| + 1)
  }

  lemma BlockLeftmost(s: string, word: string, p: nat)
    requires p <= |s| && BlockAt(s, p, word).Some?
    requires forall j: nat :: j < p ==> BlockAt(s, j, word).None?
    ensures Block(s, word) == BlockAt(s, p, word)
  {
    LeftmostAt(BlockMatcher(s, word), |s| + 1, p);
  }

  /** The item texts of the leftmost list match for `word`, or none. */
  function ListItems(s: string, word: string): (r: seq<string>)
    ensures forall k :: 0 <= k < |r| ==> |r[k]| > 0 && '\n' !in r[k]
  {
    LeftmostSome(BlockMatcher(s, word), |s| + 1);
    match Block(s, word)
    case None => []
    case Some(b) => ItemsFrom(s, b)
  }

  /** A list written one `- <item>` line per entry. */
  function Bullets(lines: seq<string>): string
  {
    if |lines| == 0 then "" else "- " + lines[0] + "\n" + Bullets(lines[1..])
  }

  /** Lines a bulleted list can carry verbatim. */
  predicate ItemLines(lines: seq<string>)
  {
    forall k :: 0 <= k < |lines| ==> |lines[k]| > 0 && '\n' !in lines[k] && !IsPySpace(lines[k][0])
  }

  /** What may follow a list without extending it. */
  predicate ListStops(s: string, e: nat)
  {
    e == |s| || (e < |s| && !IsPySpace(s[e]) && !IsBullet(s[e]))
  }

  /** Unfolds an item once its value start and line end are known. */
  lemma ItemAtOf(s: string, pos: nat, q: nat, t: nat)
    requires pos < |s| && IsBullet(s[pos]) && ValueStart(s, pos + 1) == Some(q) && LineEnd(s, q) == t
    ensures ItemAt(s, pos) == Some((s[q..t], if t < |s| then t + 1 else t))
  {
    SkipRun(s, pos, pos, IsPySpace);
  }

  /** The first bullet line read as an item. */
  lemma ItemOfBullet(s: string, p: nat, l: string)
    requires |l| > 0 && '\n' !in l && !IsPySpace(l[0])
    requires p + 3 + |l| <= |s| && s[p] == '-' && s[p + 1] == ' '
    requires s[p + 2..p + 2 + |l|] == l && s[p + 2 + |l|] == '\n'
    ensures ItemAt(s, p) == Some((l, p + 3 + |l|))
  {
    assert s[p + 2..p + 2 + |l|][0] == s[p + 2];
    ValueAfterBlank(s, p + 1);
    LineOf(s, p + 2, |l|);
    ItemAtOf(s, p, p + 2, p + 2 + |l|);
  }


  /** The first part of a concatenation, as a prefix slice. */
  lemma PrefixOf(s: string, a: string, b: string, c: string, d: string)
    requires s == a + b + c + d
    ensures s[..|a|] == a
  {
  }

  /** A `- <l>` line written after `pre` is an item. */
  lemma ItemOfBulletIn(s: string, pre: string, l: string, rest: string)
    requires |l| > 0 && '\n' !in l && !IsPySpace(l[0])
    requires s == pre + "- " + l + "\n" + rest
    ensures ItemAt(s, |pre|) == Some((l, |pre| + 3 + |l|))
  {
    var p := |pre|;
    assert s[p] == '-' && s[p + 1] == ' ' && s[p + 2 + |l|] == '\n';
    assert s[p + 2..p + 2 + |l|] == l;
    ItemOfBullet(s, p, l);
  }

  /** The items from an item on: that item, then the items after it. */
  lemma ItemsFromStep(s: string, pos: nat, text: string, next: nat)
    requires pos <= |s| && ItemAt(s, pos) == Some((text, next))
    ensures ItemsFrom(s, pos) == [text] + ItemsFrom(s, next)
  {
  }

  /** Items follow only from an item. */
  lemma ItemsFromFirst(s: string, pos: nat)
    requires pos <= |s| && |ItemsFrom(s, pos)| > 0
    ensures ItemAt(s, pos).Some?
  {
  }

  /** Nothing is an item where a list stops. */
  lemma ItemsEnd(s: string, p: nat)
    requires p <= |s| && ListStops(s, p)
    ensures ItemsFrom(s, p) == []
  {
    SkipRun(s, p, p, IsPySpace);
  }

  /** Every item of a bulleted list is read back, whatever precedes it and
      provided what follows cannot continue it. */
  lemma {:induction false} ItemsOfBullets(pre: string, lines: seq<string>, post: string)
    requires ItemLines(lines)
    requires |post| == 0 || (!IsPySpace(post[0]) && !IsBullet(post[0]))
    ensures ItemsFrom(pre + Bullets(lines) + post, |pre|) == lines
    decreases |lines|
  {
    if |lines| == 0 {
      var s := pre + Bullets(lines) + post;
      assert s == pre + post;
      ItemsEnd(s, |pre|);
    } else {
      ItemsOfBullets(pre + "- " + lines[0] + "\n", lines[1..], post);
      ItemsOfBulletsStep(pre, lines, post);
    }
  }

  /** The first bullet line is an item, and the items after it are the rest's. */
  lemma ItemsOfBulletsStep(pre: string, lines: seq<string>, post: string)
    requires |lines| > 0 && ItemLines(lines)
    requires ItemsFrom((pre + "- " + lines[0] + "\n") + Bullets(lines[1..]) + post, |pre + "- " + lines[0] + "\n"|) == lines[1..]
    ensures ItemsFrom(pre + Bullets(lines) + post, |pre|) == lines
  {
    var s := pre + Bullets(lines) + post;
    var l := lines[0];
    BulletsUnfold(pre, lines, post);
    ItemOfBulletIn(s, pre, l, Bullets(lines[1..]) + post);
    ItemsFromStep(s, |pre|, l, |pre + "- " + l + "\n"|);
    assert [l] + lines[1..] == lines;
  }

  /** The first line of a bulleted list, split off. */
  lemma BulletsUnfold(pre: string, lines: seq<string>, post: string)
    requires |lines| > 0
    ensures pre + Bullets(lines) + post == pre + "- " + lines[0] + "\n" + (Bullets(lines[1..]) + post)
    ensures pre + Bullets(lines) + post == (pre + "- " + lines[0] + "\n") + Bullets(lines[1..]) + post
  {
    Regroup(pre, lines[0], Bullets(lines[1..]), post, Bullets(lines));
  }

  /** A line `- <l>` and what follows it, regrouped around `pre` and `post`. */
  lemma Regroup(pre: string, l: string, b: string, post: string, whole: string)
    requires whole == "- " + l + "\n" + b
    ensures pre + whole + post == pre + "- " + l + "\n" + (b + post)
    ensures pre + whole + post == (pre + "- " + l + "\n") + b + post
  {
  }

  /** A bulleted list starts with a bullet that begins an item. */
  lemma BulletsFirst(s: string, pre: string, lines: seq<string>, post: string)
    requires |lines| > 0 && ItemLines(lines)
    requires s == pre + Bullets(lines) + post
    ensures |pre| < |s| && s[|pre|] == '-' && ItemAt(s, |pre|).Some?
  {
    BulletsUnfold(pre, lines, post);
    ItemOfBulletIn(s, pre, lines[0], Bullets(lines[1..]) + post);
  }

  /** Unfolds a list match once its directive end, blank run and block start are known. */
  lemma BlockAtOf(s: string, p: nat, word: string, d: nat, b: nat)
    requires p <= d && b == d + 1 <= |s| && DirectiveEnd(s, p, word) == Some(d) && SkipWhile(s, d, IsPySpace) == b
    requires LastIndexOf(s[d..b], '\n') == Some(0) && ItemAt(s, b).Some?
    ensures BlockAt(s, p, word) == Some(b)
  {
  }

  /** An `ADO <Word>:` line at `p` whose next line starts with a bullet. */
  predicate ListHeadAt(s: string, p: nat, word: string)
  {
    p + 6 + |word| < |s| && WordAt(s, p, "ado") && s[p + 3] == ' ' && WordAt(s, p + 4, word) &&
    s[p + 4 + |word|] == ':' && s[p + 5 + |word|] == '\n' && s[p + 6 + |word|] == '-'
  }

  /** An `ADO <Word>:` line followed directly by an item starts a block there. */
  lemma ListBlockAt(s: string, p: nat, word: string, b: nat)
    requires LowerWord(word) && ListHeadAt(s, p, word)
    requires b == p + 6 + |word| && ItemAt(s, b).Some?
    ensures BlockAt(s, p, word) == Some(b)
  {
    var n := |word|;
    DirectiveAt(s, p, word);
    SkipRun(s, b - 1, b, IsPySpace);
    assert s[b - 1..b] == ['\n'];
    BlockAtOf(s, p, word, b - 1, b);
  }

  /** The leftmost list under `word` when written at `p` with nothing before it. */
  lemma ListItemsAt(s: string, p: nat, word: string, b: nat, lines: seq<string>)
    requires p <= |s| && NoDirectiveStart(s[..p])
    requires BlockAt(s, p, word) == Some(b) && ItemsFrom(s, b) == lines
    ensures ListItems(s, word) == lines
  {
    NoDirectiveBefore(s, p);
    BlockLeftmost(s, word, p);
  }

  /** The items under an `ADO <Word>:` line are the leftmost list when
      nothing before the line starts a directive. */
  lemma ListOfHead(s: string, p: nat, word: string, b: nat, lines: seq<string>)
    requires LowerWord(word) && ListHeadAt(s, p, word) && NoDirectiveStart(s[..p])
    requires b == p + 6 + |word| && |lines| > 0 && ItemsFrom(s, b) == lines
    ensures ListItems(s, word) == lines
  {
    ItemsFromFirst(s, b);
    ListBlockAt(s, p, word, b);
    ListItemsAt(s, p, word, b, lines);
  }

  // ------------------------------------------------------------------
  // Children and links
  // ------------------------------------------------------------------

  /** `extract_children`: the stripped, non-empty items of the leftmost
      `ADO Children:` list. */
  function ExtractChildren(s: string): (r: seq<string>)
    ensures forall k :: 0 <= k < |r| ==> Clean(r[k]) && '\n' !in r[k]
    ensures r == CleanPieces(ListItems(s, "children"))
  {
    assert NoneContain(ListItems(s, "children"), '\n');
    CleanPieces(ListItems(s, "children"))
  }

  /** The literal `ADO Children:` and its newline at `p`, character by character. */
  lemma ChildrenHeader(s: string, p: nat)
    requires p + 14 <= |s| && s[p..p + 14] == "ADO Children:\n"
    ensures WordAt(s, p, "ado") && s[p + 3] == ' ' && WordAt(s, p + 4, "children") && s[p + 12] == ':' && s[p + 13] == '\n'
  {
    var t := s[p..p + 14];
    assert forall k :: 0 <= k < 14 ==> s[p + k] == t[k];
    assert t[0] == 'A' && t[1] == 'D' && t[2] == 'O' && t[3] == ' ' && t[4] == 'C' && t[5] == 'h' && t[6] == 'i';
    assert t[7] == 'l' && t[8] == 'd' && t[9] == 'r' && t[10] == 'e' && t[11] == 'n' && t[12] == ':' && t[13] == '\n';
  }
  lemma ChildrenHeaderIn(s: string, prefix: string, b: string, rest: string)
    requires s == prefix + "ADO Children:\n" + b + rest
    ensures |prefix| + 14 <= |s|
    ensures WordAt(s, |prefix|, "ado") && s[|prefix| + 3] == ' ' && WordAt(s, |prefix| + 4, "children")
    ensures s[|prefix| + 12] == ':' && s[|prefix| + 13] == '\n'
  {
    assert s[|prefix|..|prefix| + 14] == "ADO Children:\n";
    ChildrenHeader(s, |prefix|);
  }

  /** What a list written under `ADO Children:` puts in place. */
  lemma ChildrenLaid(s: string, prefix: string, titles: seq<string>, rest: string)
    requires |titles| >= 1 && ItemLines(titles)
    requires |rest| == 0 || (!IsPySpace(rest[0]) && !IsBullet(rest[0]))
    requires s == prefix + "ADO Children:\n" + Bullets(titles) + rest
    ensures ListHeadAt(s, |prefix|, "children") && s[..|prefix|] == prefix
    ensures ItemsFrom(s, |prefix| + 14) == titles
  {
    ItemsOfBullets(prefix + "ADO Children:\n", titles, rest);
    BulletsFirst(s, prefix + "ADO Children:\n", titles, rest);
    ChildrenHeaderIn(s, prefix, Bullets(titles), rest);
    PrefixOf(s, prefix, "ADO Children:\n", Bullets(titles), rest);
  }

  /** Titles written as an `ADO Children:` list are read back unchanged. */
  lemma ChildrenRoundTrip(prefix: string, titles: seq<string>, rest: string)
    requires NoDirectiveStart(prefix)
    requires |titles| >= 1
    requires forall k :: 0 <= k < |titles| ==> Clean(titles[k]) && '\n' !in titles[k]
    requires |rest| == 0 || (!IsPySpace(rest[0]) && !IsBullet(rest[0]))
    ensures ExtractChildren(prefix + "ADO Children:\n" + Bullets(titles) + rest) == titles
  {
    var s := prefix + "ADO Children:\n" + Bullets(titles) + rest;
    ChildrenLaid(s, prefix, titles, rest);
    ListWordsLower();
    ListOfHead(s, |prefix|, "children", |prefix| + 14, titles);
    CleanPiecesOfClean(titles);
  }

  datatype Hyperlink = Hyperlink(url: string, name: string)

  /** What every extracted link satisfies: a non-empty stripped URL without
      a bar and a stripped name. */
  predicate WellFormedLink(h: Hyperlink)
  {
    Clean(h.url) && '|' !in h.url && IsTrimmed(h.name, IsPySpace)
  }

  /** One links item: `url | name` split at the first bar, both sides
      stripped; without a bar the name is the URL; no link without a URL. */
  function LinkOfItem(item: string): (r: Option<Hyperlink>)
    ensures r.Some? ==> WellFormedLink(r.value)
  {
    var l := Trim(item, IsPySpace);
    if |l| == 0 then None
    else match IndexOf(l, '|')
      case Some(k) =>
        var url := Trim(l[..k], IsPySpace);
        if |url| == 0 then None else Some(Hyperlink(url, Trim(l[k + 1..], IsPySpace)))
      case None => Some(Hyperlink(l, l))
  }

  /** An item without a bar names its link by its URL; a blank item gives none. */
  lemma LinkOfPlainItem(item: string)
    ensures '|' !in Trim(item, IsPySpace) && Trim(item, IsPySpace) != "" ==>
      LinkOfItem(item) == Some(Hyperlink(Trim(item, IsPySpace), Trim(item, IsPySpace)))
    ensures Trim(item, IsPySpace) == "" ==> LinkOfItem(item).None?
  {
    var l := Trim(item, IsPySpace);
    if '|' !in l && l != "" {
      assert IndexOf(l, '|').None?;
    }
  }

  function LinksOf(items: seq<string>): (r: seq<Hyperlink>)
    ensures |r| <= |items|
    ensures forall k :: 0 <= k < |r| ==> WellFormedLink(r[k])
  {
    if |items| == 0 then []
    else
      var rest := LinksOf(items[1..]);
      match LinkOfItem(items[0])
      case None => rest
      case Some(h) =>
        assert forall k :: 0 < k <= |rest| ==> ([h] + rest)[k] == rest[k - 1];
        [h] + rest
  }

  /** `extract_links`: the links of the leftmost `ADO Links:` list. */
  function ExtractLinks(s: string): (r: seq<Hyperlink>)
    ensures forall k :: 0 <= k < |r| ==> WellFormedLink(r[k])
    ensures r == LinksOf(ListItems(s, "links"))
  {
    LinksOf(ListItems(s, "links"))
  }

  /** How the description template writes a link. */
  function LinkLine(h: Hyperlink): string { h.url + " | " + h.name }

  /** Unfolds the reading of a stripped item with its first bar at `k`. */
  lemma LinkOfBarItem(l: string, k: nat)
    requires |l| > 0 && Trim(l, IsPySpace) == l && IndexOf(l, '|') == Some(k) && Trim(l[..k], IsPySpace) != ""
    ensures LinkOfItem(l) == Some(Hyperlink(Trim(l[..k], IsPySpace), Trim(l[k + 1..], IsPySpace)))
  {
  }

  lemma LinkLineTrimmed(h: Hyperlink)
    requires Clean(h.url) && Clean(h.name)
    ensures Trim(LinkLine(h), IsPySpace) == LinkLine(h)
  {
    var l := LinkLine(h);
    assert l[0] == h.url[0] && l[|l| - 1] == h.name[|h.name| - 1];
    TrimOfTrimmed(l, IsPySpace);
  }

  lemma LinkLineBar(h: Hyperlink)
    requires '|' !in h.url
    ensures IndexOf(LinkLine(h), '|') == Some(|h.url| + 1)
  {
    var l := LinkLine(h);
    var u := |h.url|;
    assert l[..u + 1] == h.url + " ";
    assert l[u + 1] == '|';
  }

  /** The part of a link line before the bar trims to the URL. */
  lemma LinkLineUrl(h: Hyperlink)
    requires Clean(h.url)
    ensures Trim(LinkLine(h)[..|h.url| + 1], IsPySpace) == h.url
  {
    var l := LinkLine(h);
    assert l[..|h.url| + 1] == "" + h.url + " ";
    TrimPadded("", h.url, " ", IsPySpace);
  }

  /** The part of a link line after the bar trims to the name. */
  lemma LinkLineName(h: Hyperlink)
    requires Clean(h.name)
    ensures Trim(LinkLine(h)[|h.url| + 2..], IsPySpace) == h.name
  {
    var l := LinkLine(h);
    assert l[|h.url| + 2..] == " " + h.name + "";
    TrimPadded(" ", h.name, "", IsPySpace);
  }

  /** A `url | name` item with clean parts gives that link back. */
  lemma LinkOfLinkLine(h: Hyperlink)
    requires Clean(h.url) && Clean(h.name) && '|' !in h.url
    ensures LinkOfItem(LinkLine(h)) == Some(h)
  {
    LinkLineTrimmed(h);
    LinkLineBar(h);
    LinkLineUrl(h);
    LinkLineName(h);
    LinkOfBarItem(LinkLine(h), |h.url| + 1);
  }

  /** The item lines of links written in the template. */
  function LinkLines(links: seq<Hyperlink>): (r: seq<string>)
    ensures |r| == |links| && forall k :: 0 <= k < |links| ==> r[k] == LinkLine(links[k])
  {
    seq(|links|, k requires 0 <= k < |links| => LinkLine(links[k]))
  }

  /** Well-formed template links. */
  predicate LinkItems(links: seq<Hyperlink>)
  {
    forall k :: 0 <= k < |links| ==>
      Clean(links[k].url) && Clean(links[k].name) && '|' !in links[k].url && '\n' !in links[k].url && '\n' !in links[k].name
  }

  lemma {:induction false} LinksOfLines(links: seq<Hyperlink>)
    requires LinkItems(links)
    ensures LinksOf(LinkLines(links)) == links
  {
    if |links| > 0 {
      LinkOfLinkLine(links[0]);
      LinksOfLines(links[1..]);
      assert LinkLines(links)[1..] == LinkLines(links[1..]);
      assert [links[0]] + links[1..] == links;
    }
  }

  lemma LinkLinesAreItems(links: seq<Hyperlink>)
    requires LinkItems(links)
    ensures ItemLines(LinkLines(links))
  {
    var lines := LinkLines(links);
    forall k | 0 <= k < |lines|
      ensures |lines[k]| > 0 && '\n' !in lines[k] && !IsPySpace(lines[k][0])
    {
      assert lines[k] == links[k].url + " | " + links[k].name;
      assert lines[k][0] == links[k].url[0];
    }
  }

  /** The literal `ADO Links:` and its newline at `p`, character by character. */
  lemma LinksHeader(s: string, p: nat)
    requires p + 11 <= |s| && s[p..p + 11] == "ADO Links:\n"
    ensures WordAt(s, p, "ado") && s[p + 3] == ' ' && WordAt(s, p + 4, "links") && s[p + 9] == ':' && s[p + 10] == '\n'
  {
    var t := s[p..p + 11];
    assert forall k :: 0 <= k < 11 ==> s[p + k] == t[k];
    assert t[0] == 'A' && t[1] == 'D' && t[2] == 'O' && t[3] == ' ' && t[4] == 'L' && t[5] == 'i';
    assert t[6] == 'n' && t[7] == 'k' && t[8] == 's' && t[9] == ':' && t[10] == '\n';
  }
  lemma LinksHeaderIn(s: string, prefix: string, b: string, rest: string)
    requires s == prefix + "ADO Links:\n" + b + rest
    ensures |prefix| + 11 <= |s|
    ensures WordAt(s, |prefix|, "ado") && s[|prefix| + 3] == ' ' && WordAt(s, |prefix| + 4, "links")
    ensures s[|prefix| + 9] == ':' && s[|prefix| + 10] == '\n'
  {
    assert s[|prefix|..|prefix| + 11] == "ADO Links:\n";
    LinksHeader(s, |prefix|);
  }

  /** What a list written under `ADO Links:` puts in place. */
  lemma LinksLaid(s: string, prefix: string, lines: seq<string>, rest: string)
    requires |lines| >= 1 && ItemLines(lines)
    requires |rest| == 0 || (!IsPySpace(rest[0]) && !IsBullet(rest[0]))
    requires s == prefix + "ADO Links:\n" + Bullets(lines) + rest
    ensures ListHeadAt(s, |prefix|, "links") && s[..|prefix|] == prefix
    ensures ItemsFrom(s, |prefix| + 11) == lines
  {
    ItemsOfBullets(prefix + "ADO Links:\n", lines, rest);
    BulletsFirst(s, prefix + "ADO Links:\n", lines, rest);
    LinksHeaderIn(s, prefix, Bullets(lines), rest);
    PrefixOf(s, prefix, "ADO Links:\n", Bullets(lines), rest);
  }

  /** Links written as an `ADO Links:` list of `url | name` lines are read back. */
  lemma LinksRoundTrip(prefix: string, links: seq<Hyperlink>, rest: string)
    requires NoDirectiveStart(prefix)
    requires |links| >= 1 && LinkItems(links)
    requires |rest| == 0 || (!IsPySpace(rest[0]) && !IsBullet(rest[0]))
    ensures ExtractLinks(prefix + "ADO Links:\n" + Bullets(LinkLines(links)) + rest) == links
  {
    var lines := LinkLines(links);
    var s := prefix + "ADO Links:\n" + Bullets(lines) + rest;
    var p := |prefix|;
    LinkLinesAreItems(links);
    LinksLaid(s, prefix, lines, rest);
    ListWordsLower();
    ListOfHead(s, p, "links", p + 11, lines);
    LinksOfLines(links);
  }
}
