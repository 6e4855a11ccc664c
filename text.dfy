/** The pieces of Python's `str` and `bytes` behaviour that the server relies on:
    `find`, `in`, `split(sep)`, `split()`, `strip()`, `lower()`, `startswith`,
    `int(...)`, `str(n)` and UTF-8 `encode()`. */
module Text {
  import opened Wrappers

  newtype byte = x: int | 0 <= x < 256

  /** Concatenation regroups freely. */
  lemma ConcatAssoc<T>(a: seq<T>, b: seq<T>, c: seq<T>)
    ensures (a + b) + c == a + (b + c)
  {
  }

  // ---------------------------------------------------------------------------
  // Searching

  /** `pat` occurs in `s` starting at index `i`. */
  predicate MatchAt<T(==)>(s: seq<T>, pat: seq<T>, i: nat) {
    i + |pat| <= |s| && s[i..i + |pat|] == pat
  }

  /** The first index at or after `from` where `pat` occurs. */
  function FindFrom<T(==)>(s: seq<T>, pat: seq<T>, from: nat): (r: Option<nat>)
    ensures r.Some? ==> from <= r.value && MatchAt(s, pat, r.value)
    ensures r.Some? ==> forall i: nat :: from <= i < r.value ==> !MatchAt(s, pat, i)
    ensures r.None? ==> forall i: nat :: from <= i ==> !MatchAt(s, pat, i)
    decreases |s| - from
  {
    if from + |pat| > |s| then None
    else if MatchAt(s, pat, from) then Some(from)
    else FindFrom(s, pat, from + 1)
  }

  /** Python's `s.find(pat)` (and `pat in s`): the first index where `pat` occurs. */
  function Find<T(==)>(s: seq<T>, pat: seq<T>): (r: Option<nat>)
    ensures r.Some? ==> MatchAt(s, pat, r.value)
    ensures r.Some? ==> forall i: nat :: i < r.value ==> !MatchAt(s, pat, i)
    ensures r.None? ==> forall i: nat :: !MatchAt(s, pat, i)
  {
    FindFrom(s, pat, 0)
  }

  predicate Contains<T(==)>(s: seq<T>, pat: seq<T>) {
    Find(s, pat).Some?
  }

  /** A match found inside a prefix or a suffix of `s` is a match in `s`. */
  lemma MatchInPrefix<T>(s: seq<T>, n: nat, pat: seq<T>, i: nat)
    requires n <= |s| && MatchAt(s[..n], pat, i)
    ensures MatchAt(s, pat, i)
  {
    assert s[..n][i..i + |pat|] == s[i..i + |pat|];
  }

  lemma MatchInSuffix<T>(s: seq<T>, n: nat, pat: seq<T>, i: nat)
    requires n <= |s| && MatchAt(s[n..], pat, i)
    ensures MatchAt(s, pat, n + i)
  {
    assert s[n..][i..i + |pat|] == s[n + i..n + i + |pat|];
  }

  lemma MatchInConcat<T>(a: seq<T>, b: seq<T>, pat: seq<T>, i: nat)
    requires MatchAt(a, pat, i)
    ensures MatchAt(a + b, pat, i)
  {
    assert (a + b)[i..i + |pat|] == a[i..i + |pat|];
  }

  /** A match starts with the pattern's first element. */
  lemma MatchHead<T>(s: seq<T>, pat: seq<T>, i: nat)
    requires |pat| > 0 && MatchAt(s, pat, i)
    ensures s[i] == pat[0]
  {
    assert s[i..i + |pat|][0] == s[i];
  }

  /** Once `pat` occurs in `s`, appending to `s` does not move its first occurrence. */
  lemma FindExtend<T>(s: seq<T>, more: seq<T>, pat: seq<T>)
    requires Find(s, pat).Some?
    ensures Find(s + more, pat) == Find(s, pat)
  {
    var k := Find(s, pat).value;
    MatchInConcat(s, more, pat, k);
    var k' := Find(s + more, pat).value;
    if k' < k {
      assert (s + more)[k'..k' + |pat|] == s[k'..k' + |pat|];
      assert MatchAt(s, pat, k');
    }
  }

  /** If the first element of `pat` never occurs in `a`, then a `pat` that follows `a` is the first one. */
  lemma FindAfterFree<T>(a: seq<T>, b: seq<T>, pat: seq<T>)
    requires |pat| > 0 && pat[0] !in a
    requires MatchAt(b, pat, 0)
    ensures Find(a + b, pat) == Some(|a|)
  {
    MatchInSuffix(a + b, |a|, pat, 0) by { assert (a + b)[|a|..] == b; }
  }

  /** A match with none before it is the one `Find` reports. */
  lemma FindFirstAt<T>(s: seq<T>, pat: seq<T>, k: nat)
    requires MatchAt(s, pat, k)
    requires forall i: nat :: i < k ==> !MatchAt(s, pat, i)
    ensures Find(s, pat) == Some(k)
  {
  }

  /** A pattern placed between two sequences is found. */
  lemma ContainsMiddle<T>(a: seq<T>, pat: seq<T>, b: seq<T>)
    ensures Contains(a + pat + b, pat)
  {
    assert MatchAt(a + pat + b, pat, |a|) by {
      assert (a + pat + b)[|a|..|a| + |pat|] == pat;
    }
  }

  /** A pattern whose first element does not occur never matches. */
  lemma NoMatchWithoutHead<T>(s: seq<T>, pat: seq<T>)
    requires |pat| > 0 && pat[0] !in s
    ensures !Contains(s, pat)
  {
    if Contains(s, pat) {
      MatchHead(s, pat, Find(s, pat).value);
    }
  }

  // ---------------------------------------------------------------------------
  // Splitting and joining

  /** Python's `s.split(sep)`: the pieces between non-overlapping occurrences of `sep`, left to right. */
  function Split<T(==)>(s: seq<T>, sep: seq<T>): (parts: seq<seq<T>>)
    requires |sep| > 0
    ensures |parts| >= 1
    ensures forall k :: 0 <= k < |parts| ==> !Contains(parts[k], sep)
    decreases |s|
  {
    match Find(s, sep)
    case None => [s]
    case Some(i) =>
      NoMatchBeforeFirst(s, i, sep);
      [s[..i]] + Split(s[i + |sep|..], sep)
  }

  lemma NoMatchBeforeFirst<T>(s: seq<T>, i: nat, sep: seq<T>)
    requires |sep| > 0 && Find(s, sep) == Some(i)
    ensures i <= |s| && !Contains(s[..i], sep)
  {
    if Contains(s[..i], sep) {
      var j := Find(s[..i], sep).value;
      MatchInPrefix(s, i, sep, j);
    }
  }

  /** Python's `sep.join(parts)`. */
  function Join<T>(parts: seq<seq<T>>, sep: seq<T>): seq<T> {
    if |parts| == 0 then []
    else if |parts| == 1 then parts[0]
    else parts[0] + sep + Join(parts[1..], sep)
  }

  /** Splitting loses nothing: joining the pieces back gives the original. */
  lemma {:induction false} JoinSplit<T>(s: seq<T>, sep: seq<T>)
    requires |sep| > 0
    ensures Join(Split(s, sep), sep) == s
  {
    match Find(s, sep)
    case None =>
    case Some(i) =>
      var rest := s[i + |sep|..];
      var tail := Split(rest, sep);
      JoinSplit(rest, sep);
      assert Split(s, sep) == [s[..i]] + tail;
      assert Join([s[..i]] + tail, sep) == s[..i] + sep + Join(tail, sep) by {
        assert ([s[..i]] + tail)[1..] == tail;
      }
      assert s == s[..i] + s[i..i + |sep|] + rest;
  }

  /** Pieces that cannot start a separator come back unchanged from a join followed by a split. */
  lemma {:induction false} SplitJoin<T>(parts: seq<seq<T>>, sep: seq<T>)
    requires |sep| > 0 && |parts| > 0
    requires forall k :: 0 <= k < |parts| ==> sep[0] !in parts[k]
    ensures Split(Join(parts, sep), sep) == parts
  {
    if |parts| == 1 {
      var p := parts[0];
      if Contains(p, sep) {
        MatchHead(p, sep, Find(p, sep).value);
      }
    } else {
      var rest := Join(parts[1..], sep);
      SplitFirstPiece(parts[0], sep, rest);
      SplitJoin(parts[1..], sep);
      assert parts == [parts[0]] + parts[1..];
    }
  }

  /** A first piece that cannot start a separator is split off at the separator behind it. */
  lemma SplitFirstPiece<T>(p: seq<T>, sep: seq<T>, rest: seq<T>)
    requires |sep| > 0 && sep[0] !in p
    ensures Split(p + sep + rest, sep) == [p] + Split(rest, sep)
  {
    var s := p + sep + rest;
    assert (sep + rest)[..|sep|] == sep;
    assert s == p + (sep + rest);
    FindAfterFree(p, sep + rest, sep);
    assert s[..|p|] == p;
    assert s[|p| + |sep|..] == rest;
  }

  /** A piece containing the separator splits into at least two. */
  lemma SplitsInTwo<T>(s: seq<T>, sep: seq<T>)
    requires |sep| > 0 && Contains(s, sep)
    ensures |Split(s, sep)| >= 2
  {
  }

  /** Behind a stretch where the pattern does not start, the first match is the first one of the rest. */
  lemma FindBehind<T>(a: seq<T>, y: seq<T>, pat: seq<T>)
    requires forall i: nat :: i < |a| ==> !MatchAt(a + y, pat, i)
    requires Find(y, pat).Some?
    ensures Find(a + y, pat) == Some(|a| + Find(y, pat).value)
  {
    var s, j := a + y, Find(y, pat).value;
    assert s[|a|..] == y;
    MatchInSuffix(s, |a|, pat, j);
    forall i: nat | |a| <= i < |a| + j ensures !MatchAt(s, pat, i) {
      assert !MatchAt(y, pat, i - |a|);
      if i + |pat| <= |s| {
        assert s[i..i + |pat|] == y[i - |a|..i - |a| + |pat|];
      }
    }
    FindFirstAt(s, pat, |a| + j);
  }

  /** A doubled two-element break does not start inside a line free of the break's first element,
      nor in the break after it when the next line does not start with that element either. */
  lemma NoBlankInLine<T>(p: seq<T>, sep: seq<T>, y: seq<T>, i: nat)
    requires |sep| == 2 && sep[0] != sep[1] && sep[0] !in p
    requires y != [] && y[0] != sep[0]
    requires i < |p| + 2
    ensures !MatchAt(p + sep + y, sep + sep, i)
  {
    var s := p + sep + y;
    if i < |p| {
      assert s[i] == p[i] && p[i] in p;
    } else if i == |p| {
      assert s[i + 2] == y[0];
    } else {
      assert s[i] == sep[1];
    }
  }

  /** Lines joined by a two-element line break, none empty and none holding the break's first
      element, have their first blank line (a doubled break) right after the last line. */
  lemma {:induction false} FindBlankLine<T>(parts: seq<seq<T>>, sep: seq<T>, rest: seq<T>)
    requires |sep| == 2 && sep[0] != sep[1] && |parts| > 0
    requires forall k :: 0 <= k < |parts| ==> parts[k] != [] && sep[0] !in parts[k]
    ensures Find(Join(parts, sep) + (sep + sep + rest), sep + sep) == Some(|Join(parts, sep)|)
  {
    if |parts| == 1 {
      FindAfterFree(parts[0], sep + sep + rest, sep + sep);
    } else {
      var p, tailJoin := parts[0], Join(parts[1..], sep);
      var y := tailJoin + (sep + sep + rest);
      FindBlankLine(parts[1..], sep, rest);
      assert y[0] == parts[1][0] && parts[1][0] in parts[1] by {
        assert parts[1..][0] == parts[1];
        assert tailJoin[..|parts[1]|] == parts[1];
      }
      forall i: nat | i < |p + sep| ensures !MatchAt(p + sep + y, sep + sep, i) {
        NoBlankInLine(p, sep, y, i);
      }
      FindBehind(p + sep, y, sep + sep);
      assert Join(parts, sep) + (sep + sep + rest) == (p + sep) + y;
    }
  }

  /** `Join` grows at the back by one separator and one piece. */
  lemma {:induction false} JoinSnoc<T>(parts: seq<seq<T>>, last: seq<T>, sep: seq<T>)
    requires |parts| > 0
    ensures Join(parts + [last], sep) == Join(parts, sep) + sep + last
  {
    if |parts| == 1 {
      assert (parts + [last])[1..] == [last];
    } else {
      assert (parts + [last])[1..] == parts[1..] + [last];
      JoinSnoc(parts[1..], last, sep);
    }
  }

  // ---------------------------------------------------------------------------
  // Whitespace, case and prefixes

  /** The characters MicroPython's `str.split()` and `str.strip()` treat as whitespace. */
  predicate IsSpace(c: char) {
    c == ' ' || c == '\t' || c == '\n' || c == '\r' || c == '\U{0B}' || c == '\U{0C}'
  }

  predicate NoSpace(s: string) {
    forall i :: 0 <= i < |s| ==> !IsSpace(s[i])
  }

  /** The length of the run of non-whitespace characters at the front of `s`. */
  function NonSpaceRun(s: string): (n: nat)
    ensures n <= |s| && NoSpace(s[..n])
    ensures n < |s| ==> IsSpace(s[n])
  {
    if s == [] || IsSpace(s[0]) then 0
    else
      var n := 1 + NonSpaceRun(s[1..]);
      assert s[..n] == [s[0]] + s[1..][..n - 1];
      n
  }

  /** Python's `s.split()`: the maximal runs of non-whitespace characters, in order. */
  function Words(s: string): (words: seq<string>)
    ensures forall k :: 0 <= k < |words| ==> words[k] != [] && NoSpace(words[k])
    decreases |s|
  {
    if s == [] then []
    else if IsSpace(s[0]) then Words(s[1..])
    else
      var n := NonSpaceRun(s);
      [s[..n]] + Words(s[n..])
  }

  /** A word followed by whitespace is taken whole as the next token. */
  lemma WordsCons(w: string, rest: string)
    requires w != [] && NoSpace(w) && (rest == [] || IsSpace(rest[0]))
    ensures Words(w + rest) == [w] + Words(rest)
  {
    var s := w + rest;
    assert s[..|w|] == w && s[|w|..] == rest;
  }

  /** Whitespace in front of the rest is skipped. */
  lemma WordsSpace(rest: string)
    ensures Words([' '] + rest) == Words(rest)
  {
    assert ([' '] + rest)[1..] == rest;
  }

  /** A request line `METHOD SP PATH SP VERSION` yields its method and path as the first two tokens. */
  lemma {:induction false} RequestLineTokens(verb: string, path: string, version: string)
    requires verb != [] && NoSpace(verb) && path != [] && NoSpace(path)
    ensures var words := Words(verb + " " + path + " " + version);
      |words| >= 2 && words[0] == verb && words[1] == path
  {
    var tail := [' '] + version;
    var rest := path + tail;
    assert verb + " " + path + " " + version == verb + ([' '] + rest);
    assert Words(verb + ([' '] + rest)) == [verb] + Words([' '] + rest) by {
      WordsCons(verb, [' '] + rest);
    }
    assert Words([' '] + rest) == [path] + Words(tail) by {
      WordsSpace(rest);
      WordsCons(path, tail);
    }
  }

  function TrimLeft(s: string): (r: string)
    ensures |r| <= |s| && r == s[|s| - |r|..]
    ensures r == [] || !IsSpace(r[0])
  {
    if s != [] && IsSpace(s[0]) then TrimLeft(s[1..]) else s
  }

  function TrimRight(s: string): (r: string)
    ensures |r| <= |s| && r == s[..|r|]
    ensures r == [] || !IsSpace(r[|r| - 1])
  {
    if s != [] && IsSpace(s[|s| - 1]) then TrimRight(s[..|s| - 1]) else s
  }

  /** Python's `s.strip()`: `s` without leading and trailing whitespace. */
  function Strip(s: string): (r: string)
    ensures r == [] || (!IsSpace(r[0]) && !IsSpace(r[|r| - 1]))
    ensures |r| <= |s|
  {
    TrimRight(TrimLeft(s))
  }

  /** A string with no whitespace at either end is its own strip. */
  lemma StripBare(s: string)
    requires s != [] && !IsSpace(s[0]) && !IsSpace(s[|s| - 1])
    ensures Strip(s) == s
  {
    assert TrimLeft(s) == s;
  }

  /** A leading space goes in the strip. */
  lemma StripLeadingSpace(s: string)
    ensures Strip(" " + s) == Strip(s)
  {
    assert (" " + s)[1..] == s;
    assert TrimLeft(" " + s) == TrimLeft(s);
  }

  /** A word behind one space strips to the word. */
  lemma StripPaddedWord(s: string)
    requires s != [] && !IsSpace(s[0]) && !IsSpace(s[|s| - 1])
    ensures Strip(" " + s) == s
  {
    StripLeadingSpace(s);
    StripBare(s);
  }

  function LowerChar(c: char): char {
    if 'A' <= c <= 'Z' then (c as int + 32) as char else c
  }

  /** MicroPython's `s.lower()`, which folds ASCII letters only. */
  function Lower(s: string): (r: string)
    ensures |r| == |s|
  {
    seq(|s|, i requires 0 <= i < |s| => LowerChar(s[i]))
  }

  predicate StartsWith<T(==)>(s: seq<T>, prefix: seq<T>) {
    |prefix| <= |s| && s[..|prefix|] == prefix
  }

  // ---------------------------------------------------------------------------
  // Decimal numbers

  predicate IsDigit(c: char) {
    '0' <= c <= '9'
  }

  predicate AllDigits(s: string) {
    forall i :: 0 <= i < |s| ==> IsDigit(s[i])
  }

  function DigitChar(d: nat): (c: char)
    requires d < 10
    ensures IsDigit(c)
  {
    ('0' as int + d) as char
  }

  function DigitsValue(s: string): nat
    requires AllDigits(s)
  {
    if s == [] then 0 else DigitsValue(s[..|s| - 1]) * 10 + (s[|s| - 1] as int - '0' as int)
  }

  /** Python's `str(n)` for a non-negative integer. */
  function Decimal(n: nat): (s: string)
    ensures s != [] && AllDigits(s)
  {
    if n < 10 then [DigitChar(n)] else Decimal(n / 10) + [DigitChar(n % 10)]
  }

  /** Python's `int(s)` on an already stripped string: an optional sign, then one or more ASCII digits. */
  function ParseInt(s: string): Option<int> {
    if |s| > 1 && (s[0] == '+' || s[0] == '-') && AllDigits(s[1..]) then
      var magnitude: int := DigitsValue(s[1..]);
      Some(if s[0] == '-' then -magnitude else magnitude)
    else if s != [] && AllDigits(s) then Some(DigitsValue(s))
    else None
  }

  lemma {:induction false} DecimalValue(n: nat)
    ensures DigitsValue(Decimal(n)) == n
  {
    if n >= 10 {
      DecimalValue(n / 10);
      var s := Decimal(n);
      assert s[..|s| - 1] == Decimal(n / 10);
    }
  }

  /** `int(str(n)) == n`. */
  lemma ParseDecimal(n: nat)
    ensures ParseInt(Decimal(n)) == Some(n)
  {
    DecimalValue(n);
  }

  // ---------------------------------------------------------------------------
  // UTF-8

  predicate IsAscii(s: string) {
    forall i :: 0 <= i < |s| ==> s[i] as int < 128
  }

  /** The UTF-8 encoding of one Unicode scalar value. */
  function EncodeChar(c: char): (b: seq<byte>)
    ensures 1 <= |b| <= 4
    ensures |b| == 1 <==> c as int < 0x80
  {
    var n := c as int;
    if n < 0x80 then [n as byte]
    else if n < 0x800 then [(0xC0 + n / 64) as byte, (0x80 + n % 64) as byte]
    else if n < 0x10000 then [(0xE0 + n / 4096) as byte, (0x80 + (n / 64) % 64) as byte, (0x80 + n % 64) as byte]
    else [(0xF0 + n / 262144) as byte, (0x80 + (n / 4096) % 64) as byte,
          (0x80 + (n / 64) % 64) as byte, (0x80 + n % 64) as byte]
  }

  /** Python's `s.encode()`: a string never takes fewer bytes than it has characters, and
      takes exactly as many precisely when it is ASCII. */
  function Utf8(s: string): (b: seq<byte>)
    ensures |b| >= |s|
    ensures |b| == |s| <==> IsAscii(s)
  {
    if s == [] then []
    else
      var b := EncodeChar(s[0]) + Utf8(s[1..]);
      assert IsAscii(s) <==> s[0] as int < 0x80 && IsAscii(s[1..]) by {
        if s[0] as int < 0x80 && IsAscii(s[1..]) {
          forall i | 0 <= i < |s| ensures s[i] as int < 128 {
            if i > 0 { assert s[i] == s[1..][i - 1]; }
          }
        }
      }
      b
  }

  /** Encoding distributes over concatenation. */
  lemma {:induction false} Utf8Concat(a: string, b: string)
    ensures Utf8(a + b) == Utf8(a) + Utf8(b)
  {
    if a == [] {
      assert a + b == b;
    } else {
      assert (a + b)[1..] == a[1..] + b;
      Utf8Concat(a[1..], b);
    }
  }

  /** Only a carriage return encodes to a byte 13: every byte of a longer encoding is at least 0x80. */
  lemma {:induction false} Utf8NoCr(s: string)
    requires '\r' !in s
    ensures 13 !in Utf8(s)
  {
    if s != [] {
      assert s[0] != '\r';
      var n := s[0] as int;
      assert n < 0x80 ==> EncodeChar(s[0]) == [n as byte];
      assert n >= 0x80 ==> forall x :: x in EncodeChar(s[0]) ==> x >= 0x80;
      assert s[1..] == s[1..] && '\r' !in s[1..] by {
        forall c | c in s[1..] ensures c != '\r' {
          var i :| 0 <= i < |s[1..]| && s[1..][i] == c;
          assert s[i + 1] == c;
        }
      }
      Utf8NoCr(s[1..]);
    }
  }

  /** The encoding of each piece, in order. */
  function EncodeEach(parts: seq<string>): (bs: seq<seq<byte>>)
    ensures |bs| == |parts|
  {
    seq(|parts|, i requires 0 <= i < |parts| => Utf8(parts[i]))
  }

  /** Encoding a join is joining the encodings. */
  lemma {:induction false} Utf8Join(parts: seq<string>, sep: string)
    ensures Utf8(Join(parts, sep)) == Join(EncodeEach(parts), Utf8(sep))
  {
    if |parts| >= 2 {
      Utf8Join(parts[1..], sep);
      Utf8Concat(parts[0], sep);
      Utf8Concat(parts[0] + sep, Join(parts[1..], sep));
      assert EncodeEach(parts)[1..] == EncodeEach(parts[1..]);
    }
  }
}
