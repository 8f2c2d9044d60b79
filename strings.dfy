/**
 * The string operations the core borrows from `java.lang.String` and from
 * Apache Commons `StringUtils`: blankness, trimming, case-insensitive
 * comparison, `String.compareTo` order, joining, prefix handling,
 * whitespace splitting and decimal formatting of integers.
 */
module Strings {

  /** `Character.isWhitespace`: the ASCII separators and the Unicode space
      separators other than the no-break spaces. Letters and digits are
      not whitespace, and the ASCII whitespace is all at or below U+0020,
      so `trim` drops it. */
  predicate IsWhitespace(c: char)
    ensures IsWhitespace(c) ==> !('0' <= c <= '9' || 'A' <= c <= 'Z' || 'a' <= c <= 'z')
    ensures c == '\U{A0}' || c == '\U{2007}' || c == '\U{202F}' ==> !IsWhitespace(c)
    ensures IsWhitespace(c) && c < '\U{80}' ==> c <= ' '
  {
    || c == ' ' || c == '\t' || c == '\n' || c == '\U{B}' || c == '\U{C}' || c == '\r'
    || ('\U{1C}' <= c <= '\U{1F}')
    || c == '\U{1680}' || ('\U{2000}' <= c <= '\U{2006}') || ('\U{2008}' <= c <= '\U{200A}')
    || c == '\U{2028}' || c == '\U{2029}' || c == '\U{205F}' || c == '\U{3000}'
  }

  /** `StringUtils.isBlank`: empty or whitespace only; that is, a string
      that `StringUtils.split` finds no word in. */
  predicate IsBlank(s: string)
    ensures IsBlank(s) <==> SplitWhitespace(s) == []
  {
    NoWordsIffWhitespace(s);
    forall i :: 0 <= i < |s| ==> IsWhitespace(s[i])
  }

  // ---------------------------------------------------------------------
  // String.trim: drops every leading and trailing character <= U+0020.

  /** Number of leading characters that `trim` drops. */
  function LeadingTrimmed(s: string): (n: nat)
    ensures n <= |s|
    ensures forall i :: 0 <= i < n ==> s[i] <= ' '
    ensures n == |s| || s[n] > ' '
  {
    if s == [] || s[0] > ' ' then 0 else 1 + LeadingTrimmed(s[1..])
  }

  /** Index where the trailing characters that `trim` drops begin. */
  function TrailingTrimmed(s: string): (n: nat)
    ensures n <= |s|
    ensures forall i :: n <= i < |s| ==> s[i] <= ' '
    ensures n == 0 || s[n - 1] > ' '
  {
    if s == [] || s[|s| - 1] > ' ' then |s| else TrailingTrimmed(s[..|s| - 1])
  }

  function Trim(s: string): (r: string)
    ensures |r| <= |s|
    ensures r == [] || (r[0] > ' ' && r[|r| - 1] > ' ')
  {
    var a := LeadingTrimmed(s);
    var t := s[a..];
    t[..TrailingTrimmed(t)]
  }

  /** Trimming removes only characters <= U+0020 and keeps the middle of the string intact. */
  lemma TrimIsInfix(s: string)
    ensures exists a, b :: 0 <= a <= b <= |s| && Trim(s) == s[a..b]
                           && (forall i :: 0 <= i < a ==> s[i] <= ' ')
                           && (forall i :: b <= i < |s| ==> s[i] <= ' ')
  {
    var a := LeadingTrimmed(s);
    var t := s[a..];
    var n := TrailingTrimmed(t);
    var b := a + n;
    assert t[..n] == s[a..b];
    forall i | b <= i < |s|
      ensures s[i] <= ' '
    {
      assert s[i] == t[i - a];
    }
    assert 0 <= a <= b <= |s| && Trim(s) == s[a..b];
  }

  /** A string that is already trimmed is its own trim. */
  lemma {:induction false} TrimIdempotent(s: string)
    ensures Trim(Trim(s)) == Trim(s)
  {
    var r := Trim(s);
    assert LeadingTrimmed(r) == 0;
    assert TrailingTrimmed(r) == |r|;
    assert r[0..] == r;
    assert r[..|r|] == r;
  }

  // ---------------------------------------------------------------------
  // Case-insensitive comparison, restricted to the ASCII letters.

  function LowerChar(c: char): (d: char)
    ensures 'A' <= c <= 'Z' ==> d as int == c as int + 32
    ensures !('A' <= c <= 'Z') ==> d == c
  {
    if 'A' <= c <= 'Z' then (c as int + 32) as char else c
  }

  function Lower(s: string): (r: string)
    ensures |r| == |s|
    ensures forall i :: 0 <= i < |s| ==> r[i] == LowerChar(s[i])
  {
    seq(|s|, i requires 0 <= i < |s| => LowerChar(s[i]))
  }

  /** `String.equalsIgnoreCase`: equal lengths, and equal characters after
      folding each one. */
  predicate EqualsIgnoreCase(a: string, b: string)
    ensures EqualsIgnoreCase(a, b) <==> |a| == |b| && forall i :: 0 <= i < |a| ==> LowerChar(a[i]) == LowerChar(b[i])
    ensures a == b ==> EqualsIgnoreCase(a, b)
  {
    Lower(a) == Lower(b)
  }

  lemma LowerIdempotent(s: string)
    ensures Lower(Lower(s)) == Lower(s)
  {
  }

  // ---------------------------------------------------------------------
  // `String.compareTo` order: first differing character, otherwise length.

  predicate LexLeq(a: string, b: string)
    decreases |a|
  {
    if a == [] then true
    else if b == [] then false
    else if a[0] != b[0] then a[0] < b[0]
    else LexLeq(a[1..], b[1..])
  }

  lemma {:induction false} LexLeqReflexive(a: string)
    ensures LexLeq(a, a)
    decreases |a|
  {
    if a != [] { LexLeqReflexive(a[1..]); }
  }

  lemma {:induction false} LexLeqTotal(a: string, b: string)
    ensures LexLeq(a, b) || LexLeq(b, a)
    decreases |a|
  {
    if a != [] && b != [] && a[0] == b[0] { LexLeqTotal(a[1..], b[1..]); }
  }

  lemma {:induction false} LexLeqAntisymmetric(a: string, b: string)
    requires LexLeq(a, b) && LexLeq(b, a)
    ensures a == b
    decreases |a|
  {
    if a != [] && b != [] {
      LexLeqAntisymmetric(a[1..], b[1..]);
      assert a == [a[0]] + a[1..] && b == [b[0]] + b[1..];
    }
  }

  lemma {:induction false} LexLeqTransitive(a: string, b: string, c: string)
    requires LexLeq(a, b) && LexLeq(b, c)
    ensures LexLeq(a, c)
    decreases |a|
  {
    if a != [] && b != [] && c != [] && a[0] == b[0] && b[0] == c[0] {
      LexLeqTransitive(a[1..], b[1..], c[1..]);
    }
  }

  /** `String.compareTo`: the difference of the first differing characters,
      or else the difference of the lengths. */
  function CompareTo(a: string, b: string): (r: int)
    ensures r == 0 <==> a == b
    ensures r <= 0 <==> LexLeq(a, b)
    decreases |a|
  {
    if a == [] || b == [] then |a| - |b|
    else if a[0] != b[0] then a[0] as int - b[0] as int
    else
      assert a == [a[0]] + a[1..] && b == [b[0]] + b[1..];
      CompareTo(a[1..], b[1..])
  }

  lemma CompareToAntisymmetric(a: string, b: string)
    ensures CompareTo(a, b) == -CompareTo(b, a)
    decreases |a|
  {
    if a != [] && b != [] && a[0] == b[0] { CompareToAntisymmetric(a[1..], b[1..]); }
  }

  // ---------------------------------------------------------------------
  // Joining, prefixes and suffixes.

  /** `String.join(sep, parts)`: the parts in order, with `sep` between
      neighbours. */
  function Join(sep: string, parts: seq<string>): (r: string)
    ensures parts == [] ==> r == ""
    ensures |parts| == 1 ==> r == parts[0]
    ensures |parts| >= 2 ==> StartsWith(r, parts[0] + sep) && EndsWith(r, sep + parts[|parts| - 1])
    decreases |parts|
  {
    if parts == [] then ""
    else if |parts| == 1 then parts[0]
    else
      var rest := Join(sep, parts[1..]);
      var last := parts[|parts| - 1];
      PrefixOfAppend(parts[0] + sep, rest);
      if |parts| == 2 then
        assert rest == last;
        SuffixOfAppend(parts[0], sep, last);
        parts[0] + sep + rest
      else
        assert parts[1..][|parts[1..]| - 1] == last;
        SuffixOfLonger(parts[0] + sep, rest, sep + last);
        parts[0] + sep + rest
  }

  lemma PrefixOfAppend(p: string, q: string)
    ensures StartsWith(p + q, p)
  {
    assert (p + q)[..|p|] == p;
  }

  lemma SuffixOfAppend(p: string, s: string, q: string)
    ensures EndsWith(p + s + q, s + q)
  {
    assert p + s + q == p + (s + q);
    assert (p + (s + q))[|p|..] == s + q;
  }

  lemma SuffixOfLonger(p: string, q: string, suffix: string)
    requires EndsWith(q, suffix)
    ensures EndsWith(p + q, suffix)
  {
    assert (p + q)[|p + q| - |suffix|..] == q[|q| - |suffix|..];
  }

  /** One more part adds the separator and that part at the end: with
      `Join(sep, [x]) == x`, this fixes every part and separator in order. */
  lemma {:induction false} JoinSnoc(sep: string, a: seq<string>, x: string)
    requires a != []
    ensures Join(sep, a + [x]) == Join(sep, a) + sep + x
    decreases |a|
  {
    if |a| == 1 {
      JoinPair(sep, a, x);
    } else {
      JoinSnoc(sep, a[1..], x);
      JoinSnocStep(sep, a, x);
    }
  }

  /** The base case of `JoinSnoc`: two parts. */
  lemma JoinPair(sep: string, a: seq<string>, x: string)
    requires |a| == 1
    ensures Join(sep, a + [x]) == Join(sep, a) + sep + x
  {
    assert a + [x] == [a[0]] + [x];
    JoinCons(sep, a[0], [x]);
  }

  /** The inductive step of `JoinSnoc`: the first part and a separator go in front of both sides. */
  lemma JoinSnocStep(sep: string, a: seq<string>, x: string)
    requires |a| >= 2
    requires Join(sep, a[1..] + [x]) == Join(sep, a[1..]) + sep + x
    ensures Join(sep, a + [x]) == Join(sep, a) + sep + x
  {
    var t := a[1..] + [x];
    HeadAndTail(a, x);
    JoinCons(sep, a[0], t);
    JoinCons(sep, a[0], a[1..]);
    JoinRegroup(Join(sep, a + [x]), Join(sep, t), Join(sep, a), a[0], sep, Join(sep, a[1..]), x);
  }

  lemma HeadAndTail<T>(a: seq<T>, x: T)
    requires a != []
    ensures a == [a[0]] + a[1..] && a + [x] == [a[0]] + (a[1..] + [x])
  {
  }

  /** A head in front of at least one more part is followed by the separator. */
  lemma JoinCons(sep: string, h: string, t: seq<string>)
    requires t != []
    ensures Join(sep, [h] + t) == h + sep + Join(sep, t)
  {
    assert ([h] + t)[0] == h && ([h] + t)[1..] == t;
  }

  /** Substituting `rt` and regrouping the concatenation. */
  lemma JoinRegroup(r: string, rt: string, ra: string, h: string, sep: string, j: string, x: string)
    requires r == h + sep + rt && rt == j + sep + x && ra == h + sep + j
    ensures r == ra + sep + x
  {
  }

  predicate StartsWith(s: string, prefix: string) {
    |prefix| <= |s| && s[..|prefix|] == prefix
  }

  predicate EndsWith(s: string, suffix: string) {
    |suffix| <= |s| && s[|s| - |suffix|..] == suffix
  }

  /** `StringUtils.removeStart`. */
  function RemoveStart(s: string, prefix: string): (r: string)
    ensures StartsWith(s, prefix) ==> prefix + r == s
    ensures !StartsWith(s, prefix) ==> r == s
  {
    if StartsWith(s, prefix) then s[|prefix|..] else s
  }

  /** `StringUtils.removeEnd`. */
  function RemoveEnd(s: string, suffix: string): (r: string)
    ensures EndsWith(s, suffix) ==> r + suffix == s
    ensures !EndsWith(s, suffix) ==> r == s
  {
    if EndsWith(s, suffix) then s[..|s| - |suffix|] else s
  }

  // ---------------------------------------------------------------------
  // StringUtils.split(s): the maximal runs of non-whitespace characters.

  predicate IsWord(w: string) {
    w != [] && forall i :: 0 <= i < |w| ==> !IsWhitespace(w[i])
  }

  /** Length of the word at the start of `s`. */
  function WordLength(s: string): (n: nat)
    requires s != [] && !IsWhitespace(s[0])
    ensures 1 <= n <= |s|
    ensures forall i :: 0 <= i < n ==> !IsWhitespace(s[i])
    ensures n == |s| || IsWhitespace(s[n])
  {
    if |s| == 1 || IsWhitespace(s[1]) then 1 else 1 + WordLength(s[1..])
  }

  function SplitWhitespace(s: string): (r: seq<string>)
    ensures forall i :: 0 <= i < |r| ==> IsWord(r[i])
    decreases |s|
  {
    if s == [] then []
    else if IsWhitespace(s[0]) then SplitWhitespace(s[1..])
    else
      var n := WordLength(s);
      [s[..n]] + SplitWhitespace(s[n..])
  }

  /** A string has no word exactly when all of it is whitespace. */
  lemma {:induction false} NoWordsIffWhitespace(s: string)
    ensures SplitWhitespace(s) == [] <==> forall i :: 0 <= i < |s| ==> IsWhitespace(s[i])
    decreases |s|
  {
    if s != [] && IsWhitespace(s[0]) {
      NoWordsIffWhitespace(s[1..]);
      assert forall i :: 1 <= i < |s| ==> s[i] == s[1..][i - 1];
    }
  }

  /** Splitting a space-joined list of words gives the words back. */
  lemma {:induction false} SplitJoined(words: seq<string>)
    requires forall i :: 0 <= i < |words| ==> IsWord(words[i])
    ensures SplitWhitespace(Join(" ", words)) == words
    decreases |words|
  {
    if |words| == 1 {
      assert Join(" ", words) == words[0];
      SplitOneWord(words[0]);
    } else if |words| >= 2 {
      var w := words[0];
      var rest := Join(" ", words[1..]);
      assert words == [w] + words[1..];
      JoinCons(" ", w, words[1..]);
      assert w + " " + rest == w + (" " + rest);
      SplitJoined(words[1..]);
      SplitWordThen(w, rest);
    }
  }

  /** A single word splits to itself. */
  lemma SplitOneWord(w: string)
    requires IsWord(w)
    ensures SplitWhitespace(w) == [w]
  {
    WordOfItself(w, "");
    assert w + "" == w;
    assert w[..|w|] == w && w[|w|..] == [];
    assert SplitWhitespace(w) == [w] + SplitWhitespace([]);
  }

  /** A word followed by a space, then anything: the word comes first. */
  lemma SplitWordThen(w: string, rest: string)
    requires IsWord(w)
    ensures SplitWhitespace(w + (" " + rest)) == [w] + SplitWhitespace(rest)
  {
    var s := w + (" " + rest);
    WordOfItself(w, " " + rest);
    assert s[..|w|] == w;
    assert s[|w|..] == " " + rest;
    assert (" " + rest)[1..] == rest;
  }

  /** The word at the start of `w + t` is `w` when `t` starts with whitespace. */
  lemma {:induction false} WordOfItself(w: string, t: string)
    requires IsWord(w)
    requires t == [] || IsWhitespace(t[0])
    ensures WordLength(w + t) == |w|
    decreases |w|
  {
    var s := w + t;
    if |w| == 1 {
      assert |s| == 1 || s[1] == t[0];
    } else {
      assert s[1..] == w[1..] + t;
      assert !IsWhitespace(s[1]) by { assert s[1] == w[1]; }
      WordOfItself(w[1..], t);
    }
  }

  // ---------------------------------------------------------------------
  // Decimal formatting, as `String.format("%d", n)` and `"" + n` do it.

  function Digit(d: nat): (c: char)
    requires d < 10
    ensures '0' <= c <= '9' && c as int == '0' as int + d
  {
    ('0' as int + d) as char
  }

  function DigitValue(c: char): nat {
    if '0' <= c <= '9' then c as int - '0' as int else 0
  }

  function NatToString(n: nat): (r: string)
    ensures r != [] && forall i :: 0 <= i < |r| ==> '0' <= r[i] <= '9'
    decreases n
  {
    if n < 10 then [Digit(n)] else NatToString(n / 10) + [Digit(n % 10)]
  }

  /** `String.format("%d", n)`: a minus sign exactly for a negative
      number, then decimal digits; `ParseIntToString` reads it back. */
  function IntToString(n: int): (r: string)
    ensures r != [] && (r[0] == '-' <==> n < 0)
    ensures forall i :: (if n < 0 then 1 else 0) <= i < |r| ==> '0' <= r[i] <= '9'
  {
    if n < 0 then "-" + NatToString(-n) else NatToString(n)
  }

  function ParseDigits(s: string): nat
    decreases |s|
  {
    if s == [] then 0 else ParseDigits(s[..|s| - 1]) * 10 + DigitValue(s[|s| - 1])
  }

  /** `Integer.parseInt` on what `IntToString` produces. */
  function ParseInt(s: string): int {
    if s != [] && s[0] == '-' then -(ParseDigits(s[1..]) as int) else ParseDigits(s)
  }

  lemma {:induction false} ParseNatToString(n: nat)
    ensures ParseDigits(NatToString(n)) == n
    decreases n
  {
    var s := NatToString(n);
    if n < 10 {
      assert s[..|s| - 1] == [];
    } else {
      ParseNatToString(n / 10);
      assert s[..|s| - 1] == NatToString(n / 10);
    }
  }

  /** Decimal formatting can be undone: the integer is recovered from its text. */
  lemma ParseIntToString(n: int)
    ensures ParseInt(IntToString(n)) == n
  {
    var s := IntToString(n);
    if n < 0 {
      var digits := NatToString(-n);
      ParseNatToString(-n);
      assert s == "-" + digits;
      assert s[0] == '-' && s[1..] == digits;
      assert ParseInt(s) == -(ParseDigits(digits) as int);
    } else {
      ParseNatToString(n);
      assert '0' <= s[0] <= '9';
    }
  }
}
