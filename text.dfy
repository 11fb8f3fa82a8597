/** String helpers shared by the route handlers and pages, restricted to
    ASCII: JavaScript's `trim`, `toLowerCase`, `toUpperCase`, `charAt(0)`
    capitalisation, `Number.prototype.toString` on indices, and the email
    pattern `^[^\s@]+@[^\s@]+\.[^\s@]+$`. */
module Text {
  import opened Wrappers

  /** ASCII whitespace as matched by `\s` and removed by `trim`:
      space, tab, line feed, vertical tab, form feed, carriage return. */
  predicate IsSpace(c: char) {
    c == ' ' || '\t' <= c <= '\r'
  }

  predicate IsBlank(s: string) {
    forall i :: 0 <= i < |s| ==> IsSpace(s[i])
  }

  /** The number of whitespace characters `s` starts with. */
  function LeadingSpaces(s: string): (n: nat)
    ensures n <= |s|
    ensures forall k :: 0 <= k < n ==> IsSpace(s[k])
    ensures n < |s| ==> !IsSpace(s[n])
  {
    if s != [] && IsSpace(s[0]) then
      var n := LeadingSpaces(s[1..]);
      assert forall k :: 1 <= k < n + 1 ==> s[k] == s[1..][k - 1];
      n + 1
    else 0
  }

  /** The number of whitespace characters `s` ends with. */
  function TrailingSpaces(s: string): (n: nat)
    ensures n <= |s|
    ensures forall k :: |s| - n <= k < |s| ==> IsSpace(s[k])
    ensures n < |s| ==> !IsSpace(s[|s| - 1 - n])
  {
    if s != [] && IsSpace(s[|s| - 1]) then
      var n := TrailingSpaces(s[..|s| - 1]);
      assert forall k :: |s| - 1 - n <= k < |s| - 1 ==> s[k] == s[..|s| - 1][k];
      n + 1
    else 0
  }

  /** Drops leading whitespace: the result is a suffix of `s`, everything
      dropped was whitespace, and the result does not start with it. */
  function TrimStart(s: string): (r: string)
    ensures |r| <= |s| && r == s[|s| - |r|..]
    ensures r == [] || !IsSpace(r[0])
    ensures IsBlank(s[..|s| - |r|])
  {
    var n := LeadingSpaces(s);
    assert forall k :: 0 <= k < n ==> s[..n][k] == s[k];
    s[n..]
  }

  /** Drops trailing whitespace: the result is a prefix of `s`, everything
      dropped was whitespace, and the result does not end with it. */
  function TrimEnd(s: string): (r: string)
    ensures |r| <= |s| && r == s[..|r|]
    ensures r == [] || !IsSpace(r[|r| - 1])
    ensures IsBlank(s[|r|..])
  {
    var n := TrailingSpaces(s);
    s[..|s| - n]
  }

  /** `String.prototype.trim` on ASCII text: the result neither starts nor
      ends with whitespace, and it is empty exactly when `s` is blank;
      `TrimIsSlice` shows it is what lies between the outer whitespace. */
  function Trim(s: string): (r: string)
    ensures |r| <= |s|
    ensures r == [] || (!IsSpace(r[0]) && !IsSpace(r[|r| - 1]))
    ensures r == [] <==> IsBlank(s)
  {
    var t := TrimStart(s);
    var r := TrimEnd(t);
    r
  }

  /** The trimmed text is a slice of `s` with only whitespace before and
      after it. */
  lemma TrimIsSlice(s: string)
    ensures exists a, b :: 0 <= a <= b <= |s| && Trim(s) == s[a..b] && IsBlank(s[..a]) && IsBlank(s[b..])
  {
    var t := TrimStart(s);
    var r := TrimEnd(t);
    var a := |s| - |t|;
    assert s[a..a + |r|] == t[..|r|];
    assert s[a + |r|..] == t[|r|..];
  }

  lemma TrimIdempotent(s: string)
    ensures Trim(Trim(s)) == Trim(s)
  {
    var r := Trim(s);
    if r != [] {
      assert !IsSpace(r[0]) && !IsSpace(r[|r| - 1]);
      assert TrimStart(r) == r;
      assert TrimEnd(r) == r;
    }
  }

  function LowerChar(c: char): char {
    if 'A' <= c <= 'Z' then (c as int + 32) as char else c
  }

  function UpperChar(c: char): char {
    if 'a' <= c <= 'z' then (c as int - 32) as char else c
  }

  /** `toLowerCase` on ASCII text. */
  function ToLower(s: string): (r: string)
    ensures |r| == |s|
    ensures forall i :: 0 <= i < |s| ==> r[i] == LowerChar(s[i])
  {
    seq(|s|, i requires 0 <= i < |s| => LowerChar(s[i]))
  }

  /** `s.charAt(0).toUpperCase() + s.slice(1)`: only the first character
      may change, and the length is kept. */
  function Capitalize(s: string): (r: string)
    ensures |r| == |s|
    ensures s != [] ==> r[0] == UpperChar(s[0])
    ensures forall i :: 0 < i < |s| ==> r[i] == s[i]
  {
    if s == [] then [] else [UpperChar(s[0])] + s[1..]
  }

  lemma CapitalizeIdempotent(s: string)
    ensures Capitalize(Capitalize(s)) == Capitalize(s)
  {
  }

  predicate IsDigit(c: char) {
    '0' <= c <= '9'
  }

  function DigitChar(d: nat): (c: char)
    requires d < 10
    ensures IsDigit(c)
  {
    ('0' as int + d) as char
  }

  /** Decimal rendering of an index, as `idx.toString()` gives it: a
      non-empty run of digits. */
  function NatToString(n: nat): (r: string)
    ensures r != []
    ensures forall i :: 0 <= i < |r| ==> IsDigit(r[i])
    ensures n >= 10 ==> |r| >= 2
    decreases n
  {
    if n < 10 then [DigitChar(n)] else NatToString(n / 10) + [DigitChar(n % 10)]
  }

  /** Two different indices never render to the same string. */
  lemma {:induction false} NatToStringInjective(a: nat, b: nat)
    requires NatToString(a) == NatToString(b)
    ensures a == b
    decreases a
  {
    var ra, rb := NatToString(a), NatToString(b);
    if a < 10 && b < 10 {
      assert ra[0] == DigitChar(a) && rb[0] == DigitChar(b);
    } else if a >= 10 && b >= 10 {
      assert ra[|ra| - 1] == DigitChar(a % 10) && rb[|rb| - 1] == DigitChar(b % 10);
      assert NatToString(a / 10) == ra[..|ra| - 1] == rb[..|rb| - 1] == NatToString(b / 10);
      NatToStringInjective(a / 10, b / 10);
    }
  }

  /** A string that starts with a non-digit is no index rendering. */
  lemma NonDigitIsNoIndex(s: string, n: nat)
    requires s != [] && !IsDigit(s[0])
    ensures NatToString(n) != s
  {
  }

  /** No whitespace and no '@': the character class `[^\s@]`. */
  predicate Plain(s: string) {
    forall i :: 0 <= i < |s| ==> !IsSpace(s[i]) && s[i] != '@'
  }

  /** The pattern `^[^\s@]+@[^\s@]+\.[^\s@]+$` read as a regular
      expression: a non-empty local part, '@', a non-empty run, '.', and a
      non-empty run, none of the runs holding whitespace or '@'. */
  ghost predicate EmailPattern(s: string) {
    exists i, j ::
      0 < i && i + 1 < j && j + 1 < |s| && s[i] == '@' && s[j] == '.' &&
      Plain(s[..i]) && Plain(s[i + 1..j]) && Plain(s[j + 1..])
  }

  /** A split at `i` and `j` witnesses the pattern. */
  lemma PatternAt(s: string, i: nat, j: nat)
    requires 0 < i && i + 1 < j && j + 1 < |s| && s[i] == '@' && s[j] == '.'
    requires Plain(s[..i]) && Plain(s[i + 1..j]) && Plain(s[j + 1..])
    ensures EmailPattern(s)
  {
  }

  function IndexOf(s: string, c: char): (r: Option<nat>)
    ensures r.None? ==> forall k :: 0 <= k < |s| ==> s[k] != c
    ensures r.Some? ==> r.value < |s| && s[r.value] == c
    ensures r.Some? ==> forall k :: 0 <= k < r.value ==> s[k] != c
  {
    if s == [] then None
    else if s[0] == c then Some(0)
    else match IndexOf(s[1..], c)
      case None => None
      case Some(k) => Some(k + 1)
  }

  /** The pattern decided directly: no whitespace anywhere, exactly one
      '@', a non-empty local part, and a domain holding a '.' that is
      neither its first nor its last character. */
  predicate IsEmail(s: string) {
    match IndexOf(s, '@')
    case None => false
    case Some(at) =>
      0 < at && Plain(s[..at]) && Plain(s[at + 1..]) &&
      exists j :: at + 1 < j < |s| - 1 && s[j] == '.'
  }

  lemma PlainSlice(t: string, a: nat, b: nat)
    requires Plain(t) && a <= b <= |t|
    ensures Plain(t[a..b])
  {
    assert forall k :: 0 <= k < b - a ==> t[a..b][k] == t[a + k];
  }

  /** The first occurrence of `c` is where `IndexOf` finds it. */
  lemma {:induction false} IndexOfFirst(s: string, c: char, i: nat)
    requires i < |s| && s[i] == c && forall k :: 0 <= k < i ==> s[k] != c
    ensures IndexOf(s, c) == Some(i)
    decreases i
  {
    if i > 0 {
      assert s[0] != c;
      assert forall k :: 0 <= k < i - 1 ==> s[1..][k] == s[k + 1];
      IndexOfFirst(s[1..], c, i - 1);
    }
  }

  /** From `a` on, two plain runs around a plain character at `j` make a
      plain run. */
  lemma PlainJoin(s: string, a: nat, j: nat)
    requires a <= j < |s| && !IsSpace(s[j]) && s[j] != '@'
    requires Plain(s[a..j]) && Plain(s[j + 1..])
    ensures Plain(s[a..])
  {
    forall k | 0 <= k < |s| - a
      ensures !IsSpace(s[a..][k]) && s[a..][k] != '@'
    {
      if a + k < j {
        assert s[a..][k] == s[a..j][k];
      } else if a + k > j {
        assert s[a..][k] == s[j + 1..][a + k - j - 1];
      }
    }
  }

  lemma PatternIsEmail(s: string)
    requires EmailPattern(s)
    ensures IsEmail(s)
  {
    var i, j :| 0 < i && i + 1 < j && j + 1 < |s| && s[i] == '@' && s[j] == '.' &&
      Plain(s[..i]) && Plain(s[i + 1..j]) && Plain(s[j + 1..]);
    forall k | 0 <= k < i
      ensures s[k] != '@'
    {
      assert s[k] == s[..i][k];
    }
    IndexOfFirst(s, '@', i);
    PlainJoin(s, i + 1, j);
    assert i + 1 < j < |s| - 1 && s[j] == '.';
  }

  lemma EmailIsPattern(s: string)
    requires IsEmail(s)
    ensures EmailPattern(s)
  {
    var at := IndexOf(s, '@').value;
    var j :| at + 1 < j < |s| - 1 && s[j] == '.';
    var d := s[at + 1..];
    assert s[at + 1..j] == d[0..j - at - 1];
    assert s[j + 1..] == d[j - at..|d|];
    PlainSlice(d, 0, j - at - 1);
    PlainSlice(d, j - at, |d|);
  }

  /** The direct decision procedure agrees with the regular expression. */
  lemma EmailPatternIff(s: string)
    ensures EmailPattern(s) <==> IsEmail(s)
  {
    if EmailPattern(s) { PatternIsEmail(s); }
    if IsEmail(s) { EmailIsPattern(s); }
  }
}
