/**
 * The handful of string operations from Go's `strings` and `strconv`
 * packages that the broker's configuration code relies on.  Characters
 * stand for the bytes of a Go string; case mapping is ASCII only.
 */
module Text {
  import opened Wrappers

  /** Position of the first `c` in `s`, or `|s|` when `s` has none (`strings.Index`, with -1 read as `|s|`). */
  function Find(s: string, c: char): (i: nat)
    ensures i <= |s|
    ensures c !in s[..i]
    ensures i < |s| ==> s[i] == c
  {
    if s == [] then 0
    else if s[0] == c then 0
    else
      var i := 1 + Find(s[1..], c);
      assert s[..i] == [s[0]] + s[1..][..i - 1];
      i
  }

  lemma FindAt(a: string, c: char, b: string)
    requires c !in a
    ensures Find(a + [c] + b, c) == |a|
  {
    var s := a + [c] + b;
    assert s[..|a|] == a;
    assert s[|a|] == c;
  }

  /** `Find` stops where a `c`-free prefix meets either the end or a `c`. */
  lemma FindUpTo(a: string, c: char, b: string)
    requires c !in a
    requires b == [] || b[0] == c
    ensures Find(a + b, c) == |a|
  {
    var s := a + b;
    assert s[..|a|] == a;
    assert |a| < |s| ==> s[|a|] == b[0];
  }

  lemma FindAbsent(a: string, c: char)
    requires c !in a
    ensures Find(a, c) == |a|
  {
    assert a[..|a|] == a;
  }

  lemma FindAfter(a: string, b: string, c: char)
    requires c !in a
    ensures Find(a + b, c) == |a| + Find(b, c)
  {
    var j := Find(b, c);
    var s := a + b;
    assert s[..|a| + j] == a + b[..j];
    assert j < |b| ==> s[|a| + j] == c;
  }

  /** Position of the last `c` in `s`, or -1 when `s` has none (`strings.LastIndex`). */
  function FindLast(s: string, c: char): (i: int)
    ensures -1 <= i < |s|
    ensures i >= 0 ==> s[i] == c
    ensures forall k | i < k < |s| :: s[k] != c
  {
    LastBefore(s, c, |s|)
  }

  /** Position of the last `c` among the first `n` characters of `s`, or -1. */
  function LastBefore(s: string, c: char, n: nat): (i: int)
    requires n <= |s|
    ensures -1 <= i < n
    ensures i >= 0 ==> s[i] == c
    ensures forall k | i < k < n :: s[k] != c
  {
    if n == 0 then -1
    else if s[n - 1] == c then n - 1
    else LastBefore(s, c, n - 1)
  }

  lemma FindLastAt(a: string, c: char, b: string)
    requires c !in b
    ensures FindLast(a + [c] + b, c) == |a|
  {
    var s := a + [c] + b;
    assert forall k | |a| < k < |s| :: s[k] == b[k - |a| - 1];
    assert s[|a|] == c;
  }

  lemma FindLastAbsent(a: string, c: char)
    requires c !in a
    ensures FindLast(a, c) == -1
  {
  }

  /** `s` with every trailing `c` removed (`strings.TrimRight` with a one-character cutset). */
  function TrimRight(s: string, c: char): (r: string)
    ensures r <= s
    ensures r == [] || r[|r| - 1] != c
    ensures forall i | |r| <= i < |s| :: s[i] == c
  {
    if s != [] && s[|s| - 1] == c then TrimRight(s[..|s| - 1], c) else s
  }

  /** The three properties of TrimRight pin its result down: a prefix that does not end in `c`, followed only by `c`s. */
  lemma TrimRightUnique(s: string, c: char, r: string)
    requires r <= s
    requires r == [] || r[|r| - 1] != c
    requires forall i | |r| <= i < |s| :: s[i] == c
    ensures TrimRight(s, c) == r
  {
    var t := TrimRight(s, c);
    var k := if |t| < |r| then |r| - 1 else if |t| > |r| then |t| - 1 else 0;
    assert k < |s| ==> (k < |r| ==> r[k] == s[k]) && (k < |t| ==> t[k] == s[k]);
  }

  /** `s` with every leading `c` removed (`strings.TrimLeft` with a one-character cutset). */
  function TrimLeft(s: string, c: char): (r: string)
    ensures |r| <= |s| && r == s[|s| - |r|..]
    ensures r == [] || r[0] != c
    ensures forall i | 0 <= i < |s| - |r| :: s[i] == c
  {
    if s != [] && s[0] == c then
      var r := TrimLeft(s[1..], c);
      assert s[1..][|s| - 1 - |r|..] == s[|s| - |r|..];
      r
    else s
  }

  /** `true` when `s` ends in exactly one `c`: trailing runs have been collapsed. */
  predicate EndsInOne(s: string, c: char)
  {
    |s| > 0 && s[|s| - 1] == c && (|s| == 1 || s[|s| - 2] != c)
  }

  lemma TrimRightThenAppend(s: string, c: char)
    ensures EndsInOne(TrimRight(s, c) + [c], c)
    ensures TrimRight(TrimRight(s, c) + [c], c) == TrimRight(s, c)
  {
    var t := TrimRight(s, c);
    TrimRightUnique(t + [c], c, t);
  }

  /** A string that already ends in exactly one `c` is left alone by trimming and re-appending it. */
  lemma EndsInOneFixed(s: string, c: char)
    requires EndsInOne(s, c)
    ensures TrimRight(s, c) + [c] == s
  {
    TrimRightUnique(s, c, s[..|s| - 1]);
  }

  /** The pieces of `s` between occurrences of `sep` (`strings.Split` with a one-character separator). */
  function Split(s: string, sep: char): (parts: seq<string>)
    ensures |parts| > 0
    ensures forall k | 0 <= k < |parts| :: sep !in parts[k]
    ensures Join(parts, sep) == s
    decreases |s|
  {
    var i := Find(s, sep);
    if i == |s| then [s]
    else
      var rest := Split(s[i + 1..], sep);
      assert s == s[..i] + [sep] + s[i + 1..];
      [s[..i]] + rest
  }

  /** The pieces glued back together with `sep` between them (`strings.Join`). */
  function Join(parts: seq<string>, sep: char): string
    decreases |parts|
  {
    if |parts| == 0 then ""
    else if |parts| == 1 then parts[0]
    else parts[0] + [sep] + Join(parts[1..], sep)
  }

  /** Splitting undoes joining, whenever no piece holds the separator. */
  lemma {:induction false} SplitJoin(parts: seq<string>, sep: char)
    requires |parts| > 0
    requires forall k | 0 <= k < |parts| :: sep !in parts[k]
    ensures Split(Join(parts, sep), sep) == parts
    decreases |parts|
  {
    if |parts| > 1 {
      var tail := Join(parts[1..], sep);
      assert Join(parts, sep) == parts[0] + [sep] + tail;
      SplitAt(parts[0], sep, tail);
      assert sep !in parts[0];
      SplitJoin(parts[1..], sep);
      assert parts == [parts[0]] + parts[1..];
    } else {
      FindAbsent(parts[0], sep);
    }
  }

  /** A first piece without the separator comes off on its own. */
  lemma SplitAt(a: string, sep: char, b: string)
    requires sep !in a
    ensures Split(a + [sep] + b, sep) == [a] + Split(b, sep)
  {
    var s := a + [sep] + b;
    FindAt(a, sep, b);
    assert s[|a| + 1..] == b;
    assert s[..|a|] == a;
  }

  predicate IsLowerLetter(c: char) { 'a' <= c <= 'z' }
  predicate IsUpperLetter(c: char) { 'A' <= c <= 'Z' }

  function UpperChar(c: char): char
  {
    if IsLowerLetter(c) then (c as int - 32) as char else c
  }

  function LowerChar(c: char): char
  {
    if IsUpperLetter(c) then (c as int + 32) as char else c
  }

  /** `strings.ToUpper`, restricted to ASCII letters. */
  function ToUpper(s: string): string
  {
    if s == [] then [] else [UpperChar(s[0])] + ToUpper(s[1..])
  }

  /** Upper-casing maps each character on its own and keeps the length. */
  lemma {:induction false} ToUpperChars(s: string)
    ensures |ToUpper(s)| == |s|
    ensures forall i | 0 <= i < |s| :: ToUpper(s)[i] == UpperChar(s[i])
  {
    if s != [] {
      ToUpperChars(s[1..]);
    }
  }

  /** `strings.ToLower`, restricted to ASCII letters. */
  function ToLower(s: string): (r: string)
    ensures |r| == |s|
    ensures forall i | 0 <= i < |s| :: r[i] == LowerChar(s[i])
  {
    if s == [] then [] else [LowerChar(s[0])] + ToLower(s[1..])
  }

  /** `strings.Contains`: `sub` occurs somewhere in `s`. */
  predicate Contains(s: string, sub: string)
    decreases |s|
  {
    sub <= s || (s != [] && Contains(s[1..], sub))
  }

  /** Whatever surrounds it, a string contains itself. */
  lemma {:induction false} ContainsMiddle(a: string, b: string, c: string)
    ensures Contains(a + b + c, b)
    decreases |a|
  {
    if a == [] {
      assert a + b + c == b + c;
    } else {
      assert (a + b + c)[1..] == a[1..] + b + c;
      ContainsMiddle(a[1..], b, c);
    }
  }

  /** `strconv.ParseBool`: the twelve spellings Go accepts, anything else is an error. */
  function ParseBool(s: string): Option<bool>
  {
    if s in ["1", "t", "T", "TRUE", "true", "True"] then Some(true)
    else if s in ["0", "f", "F", "FALSE", "false", "False"] then Some(false)
    else None
  }

  /** `strconv.FormatBool`. */
  function FormatBool(b: bool): string
  {
    if b then "true" else "false"
  }

  /** ParseBool reads back both spellings FormatBool writes, and their upper-case forms. */
  lemma ParseBoolFormat(b: bool)
    ensures ParseBool(FormatBool(b)) == Some(b)
    ensures ParseBool(ToUpper(FormatBool(b))) == Some(b)
  {
    if b {
      assert ToUpper("true") == "TRUE";
    } else {
      assert ToUpper("false") == "FALSE";
    }
  }

  /** The lower-case hexadecimal digit for `n`. */
  function HexDigit(n: nat): char
    requires n < 16
  {
    if n < 10 then ('0' as int + n) as char else ('a' as int + n - 10) as char
  }

  predicate IsHexDigit(c: char)
  {
    '0' <= c <= '9' || 'a' <= c <= 'f'
  }

  function HexValue(c: char): nat
    requires IsHexDigit(c)
  {
    if c <= '9' then c as int - '0' as int else c as int - 'a' as int + 10
  }

  /** The control characters `strconv.Quote` writes with a one-letter escape, and their letters. */
  function ShortEscape(c: char): Option<char>
  {
    if c as int == 7 then Some('a')
    else if c as int == 8 then Some('b')
    else if c as int == 12 then Some('f')
    else if c == '\n' then Some('n')
    else if c == '\r' then Some('r')
    else if c == '\t' then Some('t')
    else if c as int == 11 then Some('v')
    else None
  }

  /** The character a one-letter escape stands for. */
  function ShortUnescape(e: char): Option<char>
  {
    if e == 'a' then Some(7 as char)
    else if e == 'b' then Some(8 as char)
    else if e == 'f' then Some(12 as char)
    else if e == 'n' then Some('\n')
    else if e == 'r' then Some('\r')
    else if e == 't' then Some('\t')
    else if e == 'v' then Some(11 as char)
    else None
  }

  /**
   * How `strconv.Quote` writes one character: the quote and the backslash
   * escaped, printable ASCII as it is, the seven named control characters
   * by their letter, other control characters and DEL as `\x` and two hex
   * digits.
   */
  function QuoteChar(c: char): string
  {
    if c == '"' || c == '\\' then ['\\', c]
    else if ShortEscape(c).Some? then ['\\', ShortEscape(c).value]
    else if c as int < 32 || c as int == 127 then ['\\', 'x', HexDigit(c as int / 16), HexDigit(c as int % 16)]
    else [c]
  }

  function QuoteBody(s: string): string
  {
    if s == [] then "" else QuoteChar(s[0]) + QuoteBody(s[1..])
  }

  /** `strconv.Quote`: the text between double quotes, with its special characters escaped. */
  function Quote(s: string): string
  {
    "\"" + QuoteBody(s) + "\""
  }

  /** Reads escaped text back; None on a bare '"' or an escape Quote does not write. */
  function Unescape(t: string): Option<string>
    decreases |t|
  {
    if t == [] then Some([])
    else if t[0] == '"' then None
    else if t[0] != '\\' then Cons(t[0], Unescape(t[1..]))
    else if |t| < 2 then None
    else if t[1] == '"' || t[1] == '\\' then Cons(t[1], Unescape(t[2..]))
    else if ShortUnescape(t[1]).Some? then Cons(ShortUnescape(t[1]).value, Unescape(t[2..]))
    else if |t| >= 4 && t[1] == 'x' && IsHexDigit(t[2]) && IsHexDigit(t[3]) then
      Cons((HexValue(t[2]) * 16 + HexValue(t[3])) as char, Unescape(t[4..]))
    else None
  }

  function Cons(c: char, r: Option<string>): Option<string>
  {
    if r.None? then None else Some([c] + r.value)
  }

  /** `strconv.Unquote` for double-quoted text. */
  function Unquote(q: string): Option<string>
  {
    if |q| >= 2 && q[0] == '"' && q[|q| - 1] == '"' then Unescape(q[1..|q| - 1]) else None
  }

  lemma HexRoundTrip(n: nat)
    requires n < 16
    ensures IsHexDigit(HexDigit(n)) && HexValue(HexDigit(n)) == n
  {
  }

  /** One written character reads back as itself, in front of whatever follows. */
  lemma UnescapeChar(c: char, rest: string)
    ensures Unescape(QuoteChar(c) + rest) == Cons(c, Unescape(rest))
  {
    var t := QuoteChar(c) + rest;
    if c == '"' || c == '\\' {
      assert t[2..] == rest;
    } else if ShortEscape(c).Some? {
      assert t[2..] == rest;
    } else if c as int < 32 || c as int == 127 {
      var n := c as int;
      HexRoundTrip(n / 16);
      HexRoundTrip(n % 16);
      assert t[4..] == rest;
      assert (HexValue(t[2]) * 16 + HexValue(t[3])) == n;
    } else {
      assert t[1..] == rest;
    }
  }

  /** Unquoting undoes quoting. */
  lemma {:induction false} UnquoteQuote(s: string)
    ensures Unquote(Quote(s)) == Some(s)
  {
    var q := Quote(s);
    assert q[1..|q| - 1] == QuoteBody(s);
    UnescapeBody(s);
  }

  lemma {:induction false} UnescapeBody(s: string)
    ensures Unescape(QuoteBody(s)) == Some(s)
    decreases |s|
  {
    if s != [] {
      UnescapeChar(s[0], QuoteBody(s[1..]));
      UnescapeBody(s[1..]);
      assert [s[0]] + s[1..] == s;
    }
  }
}
