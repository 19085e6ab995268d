/** The Kotlin string operations the application relies on, with the facts the model needs about them. */
module Text {

  // ---------------------------------------------------------------------------
  // Whitespace, isBlank and trim
  // ---------------------------------------------------------------------------

  /** Kotlin's `Char.isWhitespace` on the JVM: Java's `Character.isWhitespace` or `Character.isSpaceChar`. */
  predicate IsWhitespace(c: char) {
    var n := c as int;
    (9 <= n <= 13) || (0x1C <= n <= 0x20) || n == 0xA0 || n == 0x1680 || (0x2000 <= n <= 0x200A)
    || n == 0x2028 || n == 0x2029 || n == 0x202F || n == 0x205F || n == 0x3000
  }

  /** Kotlin's `isBlank`: empty or whitespace only. */
  predicate IsBlank(s: string) {
    forall i :: 0 <= i < |s| ==> IsWhitespace(s[i])
  }

  /** How many whitespace characters s starts with. */
  function LeadingBlanks(s: string): (n: nat)
    ensures n <= |s| && IsBlank(s[..n]) && (n == |s| || !IsWhitespace(s[n]))
  {
    if |s| > 0 && IsWhitespace(s[0]) then
      var n := 1 + LeadingBlanks(s[1..]);
      assert s[..n] == [s[0]] + s[1..][..n - 1];
      n
    else 0
  }

  function TrimStart(s: string): (r: string)
    ensures r == s[LeadingBlanks(s)..]
    ensures r == [] || !IsWhitespace(r[0])
  {
    if |s| > 0 && IsWhitespace(s[0]) then TrimStart(s[1..]) else s
  }

  function TrimEnd(s: string): (r: string)
    ensures |r| <= |s| && r == s[..|r|] && IsBlank(s[|r|..])
    ensures r == [] || !IsWhitespace(r[|r| - 1])
  {
    if |s| > 0 && IsWhitespace(s[|s| - 1]) then
      var front := s[..|s| - 1];
      var r := TrimEnd(front);
      assert s[|r|..] == front[|r|..] + [s[|s| - 1]];
      r
    else s
  }

  /** Kotlin's `trim()`: drops leading and trailing whitespace, and nothing else. */
  function Trim(s: string): (r: string)
    ensures IsTrimmed(r)
    ensures var i := LeadingBlanks(s); i + |r| <= |s| && r == s[i..i + |r|] && IsBlank(s[i + |r|..])
  {
    var t := TrimStart(s);
    var r := TrimEnd(t);
    assert r != [] ==> r[0] == t[0];
    var i := LeadingBlanks(s);
    assert s[i + |r|..] == t[|r|..];
    r
  }

  /** No whitespace at either end. */
  predicate IsTrimmed(s: string) {
    s == [] || (!IsWhitespace(s[0]) && !IsWhitespace(s[|s| - 1]))
  }

  lemma TrimOfTrimmed(s: string)
    requires IsTrimmed(s)
    ensures Trim(s) == s
  {
  }

  /** A leading blank never survives `trim()`. */
  lemma TrimLeadingSpace(s: string)
    ensures Trim(" " + s) == Trim(s)
  {
    assert (" " + s)[1..] == s;
  }

  function TrimAll(pieces: seq<string>): (r: seq<string>)
    ensures |r| == |pieces|
    ensures forall i :: 0 <= i < |r| ==> r[i] == Trim(pieces[i])
  {
    seq(|pieces|, i requires 0 <= i < |pieces| => Trim(pieces[i]))
  }

  // ---------------------------------------------------------------------------
  // joinToString and split
  // ---------------------------------------------------------------------------

  /** Kotlin's `joinToString(sep)`. */
  function Join(sep: string, parts: seq<string>): string {
    if |parts| == 0 then ""
    else if |parts| == 1 then parts[0]
    else parts[0] + sep + Join(sep, parts[1..])
  }

  /** Kotlin's `split(d)` for a one-character delimiter: every piece between delimiters, empty ones included. */
  function Split(s: string, d: char): (r: seq<string>)
    ensures |r| >= 1
    ensures forall i :: 0 <= i < |r| ==> d !in r[i]
    ensures Join([d], r) == s
  {
    if |s| == 0 then [""]
    else
      var rest := Split(s[1..], d);
      assert s == [s[0]] + s[1..];
      if s[0] == d then
        JoinCons([d], "", rest);
        [""] + rest
      else
        JoinOntoFirst(s[0], rest, [d]);
        [[s[0]] + rest[0]] + rest[1..]
  }

  /** Putting a character in front of the first part puts it in front of the joined text. */
  lemma JoinOntoFirst(c: char, parts: seq<string>, sep: string)
    requires |parts| >= 1
    ensures Join(sep, [[c] + parts[0]] + parts[1..]) == [c] + Join(sep, parts)
  {
    if |parts| > 1 {
      JoinCons(sep, [c] + parts[0], parts[1..]);
      JoinCons(sep, parts[0], parts[1..]);
      assert parts == [parts[0]] + parts[1..];
    }
  }

  lemma {:induction false} SplitWithoutDelimiter(s: string, d: char)
    requires d !in s
    ensures Split(s, d) == [s]
  {
    if |s| > 0 {
      SplitWithoutDelimiter(s[1..], d);
      assert [s[0]] + s[1..] == s;
    }
  }

  lemma {:induction false} SplitAfterPiece(a: string, d: char, b: string)
    requires d !in a
    ensures Split(a + [d] + b, d) == [a] + Split(b, d)
  {
    if |a| == 0 {
      assert a + [d] + b == [d] + b;
      assert ([d] + b)[1..] == b;
    } else {
      SplitAfterPiece(a[1..], d, b);
      assert (a + [d] + b)[1..] == a[1..] + [d] + b;
      assert [a[0]] + a[1..] == a;
    }
  }

  /** Joining a head onto a non-empty tail puts the separator between them. */
  lemma JoinCons(sep: string, head: string, tail: seq<string>)
    requires |tail| >= 1
    ensures Join(sep, [head] + tail) == head + sep + Join(sep, tail)
  {
    assert ([head] + tail)[1..] == tail;
  }

  /** A leading non-delimiter character stays on the first piece. */
  lemma SplitKeepsFirst(c: char, s: string, d: char)
    requires c != d
    ensures var rest := Split(s, d);
      Split([c] + s, d) == [[c] + rest[0]] + rest[1..]
  {
    assert ([c] + s)[1..] == s;
  }

  /** The separator ", " is a comma followed by a blank. */
  lemma CommaThenBlank(head: string, rest: string)
    ensures head + ", " + rest == head + [','] + ([' '] + rest)
  {
    assert ", " == [','] + [' '];
  }

  /** A ", "-joined list with at least two members: the head, a comma, then a blank before the rest. */
  lemma JoinedWithComma(head: string, tail: seq<string>)
    requires |tail| >= 1
    ensures Join(", ", [head] + tail) == head + [','] + ([' '] + Join(", ", tail))
  {
    JoinCons(", ", head, tail);
    CommaThenBlank(head, Join(", ", tail));
  }

  /** One step of splitting a joined list: the head comes out whole, the next piece keeps the blank after ','. */
  lemma SplitJoinStep(head: string, tail: seq<string>)
    requires ',' !in head && |tail| >= 1
    ensures var rest := Split(Join(", ", tail), ',');
      Split(Join(", ", [head] + tail), ',') == [head] + ([" " + rest[0]] + rest[1..])
  {
    var joined := Join(", ", tail);
    JoinedWithComma(head, tail);
    SplitAfterPiece(head, ',', [' '] + joined);
    SplitKeepsFirst(' ', joined, ',');
  }

  /** Trimming the pieces of a blank-prefixed split is trimming the pieces of the plain split. */
  lemma TrimAllLeadingSpace(head: string, rest: seq<string>)
    requires |rest| >= 1
    ensures TrimAll([head] + ([" " + rest[0]] + rest[1..])) == [Trim(head)] + TrimAll(rest)
  {
    var tail := [" " + rest[0]] + rest[1..];
    TrimAllCons([head] + tail);
    assert ([head] + tail)[1..] == tail;
    TrimAllCons(tail);
    TrimAllCons(rest);
    TrimLeadingSpace(rest[0]);
  }

  lemma TrimAllCons(parts: seq<string>)
    requires |parts| >= 1
    ensures TrimAll(parts) == [Trim(parts[0])] + TrimAll(parts[1..])
  {
  }

  /**
   * Splitting a ", "-joined list on ',' and trimming every piece gives back the trimmed members,
   * provided no member holds a comma; the empty list comes back as one empty piece.
   */
  lemma {:induction false} JoinThenSplit(parts: seq<string>)
    requires forall i :: 0 <= i < |parts| ==> ',' !in parts[i]
    ensures TrimAll(Split(Join(", ", parts), ',')) == if parts == [] then [""] else TrimAll(parts)
  {
    if |parts| == 1 {
      SplitWithoutDelimiter(parts[0], ',');
    } else if |parts| > 1 {
      var head, tail := parts[0], parts[1..];
      assert parts == [head] + tail;
      JoinThenSplit(tail);
      var rest := Split(Join(", ", tail), ',');
      SplitJoinStep(head, tail);
      TrimAllLeadingSpace(head, rest);
      TrimAllCons(parts);
    }
  }

  // ---------------------------------------------------------------------------
  // Integer to decimal text
  // ---------------------------------------------------------------------------

  predicate IsDigit(c: char) {
    '0' <= c <= '9'
  }

  function DigitChar(d: nat): (c: char)
    requires d < 10
    ensures IsDigit(c) && c as int - '0' as int == d
  {
    ('0' as int + d) as char
  }

  /** The decimal digits of n, most significant first, without leading zeros. */
  function NatToString(n: nat): (s: string)
    ensures |s| >= 1
    ensures forall i :: 0 <= i < |s| ==> IsDigit(s[i])
  {
    if n < 10 then [DigitChar(n)] else NatToString(n / 10) + [DigitChar(n % 10)]
  }

  /** Kotlin's `Int.toString()`: a minus sign before the digits of a negative number. */
  function IntToString(i: int): string {
    if i < 0 then "-" + NatToString(-i) else NatToString(i)
  }

  /** The value of a string of decimal digits (used to show that the decimal text is injective). */
  function ParseNat(s: string): nat
    requires forall i :: 0 <= i < |s| ==> IsDigit(s[i])
  {
    if |s| == 0 then 0
    else
      assert IsDigit(s[|s| - 1]);
      10 * ParseNat(s[..|s| - 1]) + (s[|s| - 1] as int - '0' as int)
  }

  lemma {:induction false} ParseNatToString(n: nat)
    ensures ParseNat(NatToString(n)) == n
  {
    if n >= 10 {
      ParseNatToString(n / 10);
      var s := NatToString(n);
      assert s[..|s| - 1] == NatToString(n / 10);
    }
  }

  /** Decimal digits, possibly after a minus sign. */
  predicate IsIntText(s: string) {
    if |s| > 0 && s[0] == '-' then forall i :: 1 <= i < |s| ==> IsDigit(s[i])
    else forall i :: 0 <= i < |s| ==> IsDigit(s[i])
  }

  /** The value of a decimal text as `IntToString` writes it. */
  function ParseInt(s: string): int
    requires IsIntText(s)
  {
    if |s| > 0 && s[0] == '-' then -(ParseNat(s[1..]) as int) else ParseNat(s)
  }

  lemma ParseIntToString(i: int)
    ensures IsIntText(IntToString(i)) && ParseInt(IntToString(i)) == i
  {
    if i < 0 {
      assert IntToString(i)[1..] == NatToString(-i);
      ParseNatToString(-i);
    } else {
      ParseNatToString(i);
    }
  }

  /** Different integers have different decimal texts. */
  lemma IntToStringInjective(a: int, b: int)
    requires IntToString(a) == IntToString(b)
    ensures a == b
  {
    ParseIntToString(a);
    ParseIntToString(b);
  }

  /** Kotlin's `%` on Int: truncating, so the remainder takes the sign of the dividend. */
  function KotlinRem(a: int, b: int): (r: int)
    requires b != 0
    ensures a >= 0 ==> 0 <= r < if b > 0 then b else -b
    ensures a < 0 ==> -(if b > 0 then b else -b) < r <= 0
    ensures (a - r) % (if b > 0 then b else -b) == 0
  {
    var m := if b > 0 then b else -b;
    if a >= 0 then
      RemainderCongruent(a, m);
      a % m
    else
      NegatedRemainderCongruent(-a, m);
      -((-a) % m)
  }

  lemma RemainderCongruent(n: int, m: int)
    requires n >= 0 && m > 0
    ensures (n - n % m) % m == 0
  {
    assert n - n % m == m * (n / m);
    MultipleHasNoRemainder(m, n / m);
  }

  lemma NegatedRemainderCongruent(n: int, m: int)
    requires n >= 0 && m > 0
    ensures (-n - -(n % m)) % m == 0
  {
    var q := n / m;
    assert n == m * q + n % m;
    assert -n - -(n % m) == m * -q;
    MultipleHasNoRemainder(m, -q);
  }

  lemma {:induction false} AtLeastOnce(m: int, k: nat)
    requires m > 0 && k >= 1
    ensures m * k >= m
  {
    if k > 1 {
      AtLeastOnce(m, k - 1);
      assert m * k == m * (k - 1) + m;
    }
  }

  /** A multiple of m leaves no remainder. */
  lemma MultipleHasNoRemainder(m: int, q: int)
    requires m > 0
    ensures (m * q) % m == 0
  {
    var x := m * q;
    var k := q - x / m;
    assert x == m * (x / m) + x % m;
    assert m * k == x % m;
    if k > 0 {
      AtLeastOnce(m, k);
    } else if k < 0 {
      AtLeastOnce(m, -k);
    }
  }

  // ---------------------------------------------------------------------------
  // Lexicographic order on text
  // ---------------------------------------------------------------------------

  /** a sorts strictly before b, character by character, a proper prefix first. */
  predicate LexLess(a: string, b: string) {
    if |b| == 0 then false
    else if |a| == 0 then true
    else if a[0] != b[0] then a[0] < b[0]
    else LexLess(a[1..], b[1..])
  }

  lemma {:induction false} LexIrreflexive(a: string)
    ensures !LexLess(a, a)
  {
    if |a| > 0 { LexIrreflexive(a[1..]); }
  }

  lemma {:induction false} LexTransitive(a: string, b: string, c: string)
    requires LexLess(a, b) && LexLess(b, c)
    ensures LexLess(a, c)
  {
    if |a| > 0 && a[0] == b[0] && b[0] == c[0] {
      LexTransitive(a[1..], b[1..], c[1..]);
    }
  }

  lemma {:induction false} LexTotal(a: string, b: string)
    ensures a == b || LexLess(a, b) || LexLess(b, a)
  {
    if |a| > 0 && |b| > 0 && a[0] == b[0] {
      LexTotal(a[1..], b[1..]);
      if a[1..] == b[1..] {
        assert a == [a[0]] + a[1..] && b == [b[0]] + b[1..];
      }
    }
  }

  lemma {:induction false} LexAsymmetric(a: string, b: string)
    requires LexLess(a, b)
    ensures !LexLess(b, a)
  {
    if |a| > 0 && a[0] == b[0] {
      LexAsymmetric(a[1..], b[1..]);
    }
  }
}
