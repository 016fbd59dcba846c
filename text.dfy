/** The string operations the dashboard relies on, with Python's and SQLite's
    meaning: `str.strip()`, `sep in s`, `s.split(sep)[0]` and `[1]`,
    `s.split('\n')`, `int(s)`, `str(n)` and SQLite's `LOWER`. */
module Text {
  import opened Wrappers

  // ---------------------------------------------------------------------
  // Whitespace and str.strip()
  // ---------------------------------------------------------------------

  /** The characters for which Python's `str.isspace()` holds. */
  predicate IsSpace(c: char) {
    c == ' ' || ('\t' <= c <= '\r') || ('\U{1c}' <= c <= '\U{1f}')
    || c == '\U{85}' || c == '\U{a0}' || c == '\U{1680}'
    || ('\U{2000}' <= c <= '\U{200a}') || c == '\U{2028}' || c == '\U{2029}'
    || c == '\U{202f}' || c == '\U{205f}' || c == '\U{3000}'
  }

  /** How many whitespace characters `s` starts with. */
  function LeadingSpaces(s: string): (n: nat)
    ensures n <= |s|
    ensures forall i :: 0 <= i < n ==> IsSpace(s[i])
    ensures n < |s| ==> !IsSpace(s[n])
  {
    if s != [] && IsSpace(s[0]) then 1 + LeadingSpaces(s[1..]) else 0
  }

  /** How many whitespace characters `s` ends with. */
  function TrailingSpaces(s: string): (n: nat)
    ensures n <= |s|
    ensures forall i :: |s| - n <= i < |s| ==> IsSpace(s[i])
    ensures n < |s| ==> !IsSpace(s[|s| - n - 1])
  {
    if s != [] && IsSpace(s[|s| - 1]) then 1 + TrailingSpaces(s[..|s| - 1]) else 0
  }

  /** `s.strip()`: the text between the leading and the trailing whitespace. */
  function Strip(s: string): string {
    var t := s[LeadingSpaces(s)..];
    t[..|t| - TrailingSpaces(t)]
  }

  /** What `s.strip()` returns is a slice of `s` whose outside is all
      whitespace and whose two ends are not. */
  lemma StripIsTrimmedSlice(s: string)
    ensures exists i, j :: (0 <= i <= j <= |s| && Strip(s) == s[i..j]
      && (forall k :: 0 <= k < i ==> IsSpace(s[k]))
      && (forall k :: j <= k < |s| ==> IsSpace(s[k])))
    ensures Strip(s) != [] ==> !IsSpace(Strip(s)[0]) && !IsSpace(Strip(s)[|Strip(s)| - 1])
  {
    var i := LeadingSpaces(s);
    var t := s[i..];
    var j := i + |t| - TrailingSpaces(t);
    assert Strip(s) == s[i..j];
    assert forall k :: j <= k < |s| ==> IsSpace(s[k]) by {
      forall k | j <= k < |s| ensures IsSpace(s[k]) {
        assert s[k] == t[k - i];
      }
    }
    if Strip(s) != [] {
      assert Strip(s)[0] == t[0];
      assert Strip(s)[|Strip(s)| - 1] == t[|t| - TrailingSpaces(t) - 1];
    }
  }

  // ---------------------------------------------------------------------
  // Substrings: `sep in s`, s.split(sep)[0], s.split(sep)[1]
  // ---------------------------------------------------------------------

  /** `pat` occurs in `s` starting at index `i`. */
  predicate OccursAt(s: string, pat: string, i: int) {
    0 <= i && i + |pat| <= |s| && s[i..i + |pat|] == pat
  }

  /** The first index at or after `from` where `pat` occurs in `s`. */
  function IndexFrom(s: string, pat: string, from: nat): (r: Option<nat>)
    requires from <= |s|
    ensures r.Some? ==> from <= r.value && OccursAt(s, pat, r.value)
    decreases |s| - from
  {
    if OccursAt(s, pat, from) then Some(from)
    else if from == |s| then None
    else IndexFrom(s, pat, from + 1)
  }

  /** The index found is the first occurrence, and `None` means there is
      none at or after `from`. */
  lemma {:induction false} IndexFromFirst(s: string, pat: string, from: nat)
    requires from <= |s|
    ensures IndexFrom(s, pat, from).Some? ==> forall j :: from <= j < IndexFrom(s, pat, from).value ==> !OccursAt(s, pat, j)
    ensures IndexFrom(s, pat, from).None? ==> forall j :: from <= j ==> !OccursAt(s, pat, j)
    decreases |s| - from
  {
    if !OccursAt(s, pat, from) && from < |s| {
      IndexFromFirst(s, pat, from + 1);
    }
  }

  /** Python's `s.find(pat)`, as an option: the first occurrence of `pat`. */
  function IndexOf(s: string, pat: string): Option<nat> {
    IndexFrom(s, pat, 0)
  }

  /** Python's `pat in s`. */
  predicate Contains(s: string, pat: string) {
    IndexOf(s, pat).Some?
  }

  /** `pat in s` holds exactly when `pat` occurs somewhere in `s`. */
  lemma ContainsMeansOccurs(s: string, pat: string)
    ensures Contains(s, pat) <==> exists j :: OccursAt(s, pat, j)
  {
    IndexFromFirst(s, pat, 0);
    if Contains(s, pat) {
      assert OccursAt(s, pat, IndexOf(s, pat).value);
    }
  }

  /** `s.split(sep)[0]`: the text before the first `sep`, or all of `s`. */
  function Before(s: string, sep: string): (r: string)
    requires sep != []
    ensures r <= s
    ensures |r| < |s| <==> Contains(s, sep)
    ensures |r| < |s| ==> OccursAt(s, sep, |r|)
    ensures forall j :: 0 <= j < |r| ==> !OccursAt(s, sep, j)
  {
    IndexFromFirst(s, sep, 0);
    match IndexOf(s, sep)
    case Some(i) => s[..i]
    case None => s
  }

  /** The text before the first separator holds no separator. */
  lemma BeforeHasNoSeparator(s: string, sep: string)
    requires sep != []
    ensures forall j :: !OccursAt(Before(s, sep), sep, j)
  {
    IndexFromFirst(s, sep, 0);
    var r := Before(s, sep);
    if IndexOf(s, sep).Some? {
      var i := IndexOf(s, sep).value;
      assert r == s[..i];
      forall j | OccursAt(r, sep, j) ensures false {
        assert j + |sep| <= i;
        assert r[j..j + |sep|] == s[j..j + |sep|];
        assert OccursAt(s, sep, j);
      }
    } else {
      assert r == s;
    }
  }

  /** The index `IndexOf` finds is the first occurrence. */
  lemma FirstIndex(s: string, sep: string)
    requires sep != [] && Contains(s, sep)
    ensures OccursAt(s, sep, IndexOf(s, sep).value)
    ensures forall j :: 0 <= j < IndexOf(s, sep).value ==> !OccursAt(s, sep, j)
  {
    IndexFromFirst(s, sep, 0);
  }

  /** `s.split(sep)[1]`: the text between the first and the second `sep`
      (or the end); `None` stands for the IndexError raised when `sep` does
      not occur. */
  function SecondPiece(s: string, sep: string): (r: Option<string>)
    requires sep != []
    ensures r.Some? <==> Contains(s, sep)
    ensures r.Some? ==> var i := IndexOf(s, sep).value;
      && OccursAt(s, sep, i)
      && (forall j :: 0 <= j < i ==> !OccursAt(s, sep, j))
      && r.value == Before(s[i + |sep|..], sep)
  {
    if Contains(s, sep) then
      FirstIndex(s, sep);
      var i := IndexOf(s, sep).value;
      Some(Before(s[i + |sep|..], sep))
    else None
  }

  /** The first occurrence of `sep` decides both pieces: the text before
      it, and the text after it up to the next occurrence. */
  lemma SplitAtFirst(s: string, sep: string, i: int)
    requires sep != [] && OccursAt(s, sep, i)
    requires forall j :: 0 <= j < i ==> !OccursAt(s, sep, j)
    ensures Before(s, sep) == s[..i]
    ensures SecondPiece(s, sep) == Some(Before(s[i + |sep|..], sep))
  {
    IndexFromFirst(s, sep, 0);
    var k := IndexOf(s, sep);
    assert k.Some? && !(k.value < i) && !(i < k.value);
  }

  /** Split at its first `sep`, `x + sep + y` has the pieces `x` and the
      part of `y` before its own first `sep`. */
  lemma SplitAround(x: string, sep: string, y: string)
    requires sep != [] && forall j :: 0 <= j < |x| ==> !OccursAt(x + sep + y, sep, j)
    ensures Contains(x + sep + y, sep)
    ensures Before(x + sep + y, sep) == x
    ensures SecondPiece(x + sep + y, sep) == Some(Before(y, sep))
  {
    var s := x + sep + y;
    Occurs(x, sep, y);
    SplitAtFirst(s, sep, |x|);
    ContainsMeansOccurs(s, sep);
    assert s[..|x|] == x;
    assert s[|x| + |sep|..] == y;
  }

  lemma Occurs(x: string, pat: string, y: string)
    ensures OccursAt(x + pat + y, pat, |x|)
  {
    assert (x + pat + y)[|x|..|x| + |pat|] == pat;
  }

  /** `s.split(stop)[0].split(sep)[0]` is the text before the first `sep`
      when no `stop` starts before that `sep` ends. */
  lemma BeforeWithin(s: string, stop: string, sep: string, i: int)
    requires stop != [] && sep != []
    requires OccursAt(s, sep, i) && forall j :: 0 <= j < i ==> !OccursAt(s, sep, j)
    requires forall j :: 0 <= j < i + |sep| ==> !OccursAt(s, stop, j)
    ensures Before(Before(s, stop), sep) == s[..i]
  {
    var t := Before(s, stop);
    assert |t| >= i + |sep|;
    assert t == s[..|t|];
    assert t[i..i + |sep|] == s[i..i + |sep|];
    forall j | 0 <= j < i ensures !OccursAt(t, sep, j) {
      if j + |sep| <= |t| {
        assert t[j..j + |sep|] == s[j..j + |sep|];
        assert !OccursAt(s, sep, j);
      }
    }
    SplitAtFirst(t, sep, i);
  }

  /** `s.split(first)[1].split(second)[0]` is the text `b` between the
      first `first` and the next `second`, when no `first` starts before
      that `second` ends. */
  lemma PieceBetween(s: string, a: string, first: string, b: string, second: string, c: string)
    requires first != [] && second != []
    requires s == a + first + b + second + c
    requires forall j :: 0 <= j < |a| ==> !OccursAt(s, first, j)
    requires forall j :: 0 <= j < |b| ==> !OccursAt(b + second + c, second, j)
    requires forall j :: 0 <= j < |b| + |second| ==> !OccursAt(b + second + c, first, j)
    ensures Contains(s, first) && Contains(s, second)
    ensures Before(SecondPiece(s, first).value, second) == b
  {
    var rest := b + second + c;
    assert s == a + first + rest;
    SplitAround(a, first, rest);
    Occurs(b, second, c);
    BeforeWithin(rest, first, second, |b|);
    assert rest[..|b|] == b;
    Occurs(a + first + b, second, c);
    ContainsMeansOccurs(s, second);
  }

  /** A pattern cannot start where its first character is absent. */
  lemma NotStartingIn(s: string, pat: string, n: int)
    requires pat != [] && 0 <= n <= |s| && pat[0] !in s[..n]
    ensures forall j :: 0 <= j < n ==> !OccursAt(s, pat, j)
  {
    forall j | 0 <= j < n ensures s[j] != pat[0] {
      assert s[j] == s[..n][j];
    }
  }

  /** Without `sep`, `s.split(sep)` has the one piece `s`. */
  lemma SplitWithout(s: string, sep: string)
    requires sep != [] && forall j :: 0 <= j < |s| ==> !OccursAt(s, sep, j)
    ensures !Contains(s, sep) && Before(s, sep) == s
  {
    IndexFromFirst(s, sep, 0);
  }

  /** A one-character pattern occurs exactly where that character is. */
  lemma OccursChar(s: string, c: char, j: int)
    ensures OccursAt(s, [c], j) <==> 0 <= j < |s| && s[j] == c
  {
    if 0 <= j < |s| {
      assert s[j..j + 1] == [s[j]];
    }
  }

  // ---------------------------------------------------------------------
  // s.split(c) for a one-character separator, and its inverse
  // ---------------------------------------------------------------------

  /** `s.split(c)`: the pieces between the occurrences of `c`. */
  function SplitOn(s: string, c: char): (pieces: seq<string>)
    ensures |pieces| >= 1
    ensures forall k :: 0 <= k < |pieces| ==> c !in pieces[k]
  {
    if s == [] then [""]
    else
      var rest := SplitOn(s[1..], c);
      if s[0] == c then [""] + rest
      else [[s[0]] + rest[0]] + rest[1..]
  }

  /** `c.join(pieces)`. */
  function Join(pieces: seq<string>, c: char): string
    requires |pieces| >= 1
  {
    if |pieces| == 1 then pieces[0] else pieces[0] + [c] + Join(pieces[1..], c)
  }

  /** Splitting and joining again gives back the original text, so no
      character is lost or invented by the split. */
  lemma {:induction false} JoinSplit(s: string, c: char)
    ensures Join(SplitOn(s, c), c) == s
  {
    if s != [] {
      var rest := SplitOn(s[1..], c);
      JoinSplit(s[1..], c);
      if s[0] == c {
        assert SplitOn(s, c)[1..] == rest;
      } else if |rest| == 1 {
        assert Join(SplitOn(s, c), c) == [s[0]] + rest[0];
      } else {
        var p := SplitOn(s, c);
        assert p[1..] == rest[1..];
        assert Join(p, c) == [s[0]] + rest[0] + [c] + Join(rest[1..], c);
      }
    }
  }

  // ---------------------------------------------------------------------
  // int(s) and str(n)
  // ---------------------------------------------------------------------

  predicate IsDigit(c: char) {
    '0' <= c <= '9'
  }

  /** A non-empty run of ASCII digits. */
  predicate IsNumeral(d: string) {
    d != [] && forall i :: 0 <= i < |d| ==> IsDigit(d[i])
  }

  function DigitValue(c: char): nat
    requires IsDigit(c)
  {
    (c as int) - ('0' as int)
  }

  /** The value of a run of decimal digits, most significant first. */
  function DigitsValue(d: string): nat
    requires forall i :: 0 <= i < |d| ==> IsDigit(d[i])
  {
    if d == [] then 0
    else DigitsValue(d[..|d| - 1]) * 10 + DigitValue(d[|d| - 1])
  }

  /** `int(s)` for a string already stripped of whitespace: an optional
      sign followed by ASCII digits; `None` stands for the ValueError. */
  function ParseInt(s: string): Option<int> {
    if s != [] && (s[0] == '+' || s[0] == '-') then
      if IsNumeral(s[1..]) then
        var v: int := DigitsValue(s[1..]);
        Some(if s[0] == '-' then -v else v)
      else None
    else if IsNumeral(s) then Some(DigitsValue(s))
    else None
  }

  /** The decimal digits of `n`, without leading zeros. */
  function NatToDigits(n: nat): string {
    if n < 10 then [('0' as int + n) as char]
    else NatToDigits(n / 10) + [('0' as int + n % 10) as char]
  }

  /** `str(n)` for a Python int. */
  function IntToString(n: int): string {
    if n < 0 then "-" + NatToDigits(-n) else NatToDigits(n)
  }

  lemma {:induction false} NatToDigitsValue(n: nat)
    ensures IsNumeral(NatToDigits(n)) && DigitsValue(NatToDigits(n)) == n
  {
    if n >= 10 {
      NatToDigitsValue(n / 10);
      var d := NatToDigits(n);
      assert d[..|d| - 1] == NatToDigits(n / 10);
    }
  }

  /** `int(str(n)) == n` for every integer `n`. */
  lemma {:induction false} ParseIntOfString(n: int)
    ensures ParseInt(IntToString(n)) == Some(n)
  {
    if n < 0 {
      NatToDigitsValue(-n);
      assert IntToString(n)[1..] == NatToDigits(-n);
    } else {
      NatToDigitsValue(n);
    }
  }

  // ---------------------------------------------------------------------
  // Counting a character; SQLite's LOWER
  // ---------------------------------------------------------------------

  /** How many times `c` occurs in `s`. */
  function CountChar(s: string, c: char): (n: nat)
    ensures n <= |s|
    ensures n == 0 <==> c !in s
  {
    if s == [] then 0 else (if s[0] == c then 1 else 0) + CountChar(s[1..], c)
  }

  lemma {:induction false} CountCharAppend(a: string, b: string, c: char)
    ensures CountChar(a + b, c) == CountChar(a, c) + CountChar(b, c)
  {
    if a == [] {
      assert a + b == b;
    } else {
      assert (a + b)[0] == a[0];
      assert (a + b)[1..] == a[1..] + b;
      CountCharAppend(a[1..], b, c);
    }
  }

  /** SQLite's built-in `lower()`: folds the ASCII capitals only. */
  function LowerChar(c: char): char {
    if 'A' <= c <= 'Z' then (c as int + 32) as char else c
  }

  function Lower(s: string): (r: string)
    ensures |r| == |s|
    ensures forall i :: 0 <= i < |s| ==> r[i] == LowerChar(s[i])
  {
    seq(|s|, i requires 0 <= i < |s| => LowerChar(s[i]))
  }
}
