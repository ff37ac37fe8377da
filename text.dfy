/** The JavaScript string operations the application relies on, over `string` (a sequence of
    `char`): `trim`, `split` and `join` on one character, `indexOf`, `startsWith`, `endsWith`,
    `includes`, ASCII case folding and the decimal rendering of a number in a template literal. */
module Text {
  import opened Wrappers

  /** The code points String.prototype.trim removes: ECMAScript's WhiteSpace and LineTerminator. */
  predicate IsSpace(c: char) {
    || c == '\t' || c == '\n' || c == '\U{B}' || c == '\U{C}' || c == '\r' || c == ' '
    || c == '\U{A0}' || c == '\U{1680}' || ('\U{2000}' <= c <= '\U{200A}')
    || c == '\U{2028}' || c == '\U{2029}' || c == '\U{202F}' || c == '\U{205F}'
    || c == '\U{3000}' || c == '\U{FEFF}'
  }

  /** The code points a regular-expression `.` does not match (no `s` flag): LineTerminator. */
  predicate IsLineTerminator(c: char) {
    c == '\n' || c == '\r' || c == '\U{2028}' || c == '\U{2029}'
  }

  predicate AllSpace(s: string) {
    forall k | 0 <= k < |s| :: IsSpace(s[k])
  }

  /** `s` with its leading white space removed. */
  function TrimStart(s: string): (r: string)
    ensures |r| <= |s| && r == s[|s| - |r|..]
    ensures AllSpace(s[..|s| - |r|])
    ensures r != [] ==> !IsSpace(r[0])
  {
    if s != [] && IsSpace(s[0]) then
      var r := TrimStart(s[1..]);
      assert s[..|s| - |r|] == [s[0]] + s[1..][..|s| - 1 - |r|];
      r
    else
      s
  }

  /** `s` with its trailing white space removed. */
  function TrimEnd(s: string): (r: string)
    ensures |r| <= |s| && r == s[..|r|]
    ensures AllSpace(s[|r|..])
    ensures r != [] ==> !IsSpace(r[|r| - 1])
  {
    if s != [] && IsSpace(s[|s| - 1]) then
      var r := TrimEnd(s[..|s| - 1]);
      assert s[|r|..] == s[..|s| - 1][|r|..] + [s[|s| - 1]];
      r
    else
      s
  }

  /** String.prototype.trim: the result is a slice of `s` that neither starts nor ends with
      white space, and it is empty exactly when `s` is all white space. */
  function Trim(s: string): (r: string)
    ensures |r| <= |s|
    ensures r != [] ==> !IsSpace(r[0]) && !IsSpace(r[|r| - 1])
    ensures r == [] <==> AllSpace(s)
  {
    var t := TrimStart(s);
    var r := TrimEnd(t);
    assert r != [] ==> r[0] == t[0];
    assert r == [] ==> t == [];
    r
  }

  /** Trimming only removes characters: every character of the result occurs in `s`. */
  lemma TrimKeepsCharacters(s: string)
    ensures forall k | 0 <= k < |Trim(s)| :: Trim(s)[k] in s
  {
    var t := TrimStart(s);
    var r := TrimEnd(t);
    assert forall k | 0 <= k < |r| :: r[k] == s[|s| - |t| + k];
  }

  /** Trimming twice is trimming once. */
  lemma TrimIdempotent(s: string)
    ensures Trim(Trim(s)) == Trim(s)
  {
    var r := Trim(s);
    assert TrimStart(r) == r;
    assert TrimEnd(r) == r;
  }

  /** String.prototype.indexOf for one character: the position of its first occurrence. */
  function IndexOf(s: string, c: char): (r: Option<nat>)
    ensures r.Some? ==> r.value < |s| && s[r.value] == c && c !in s[..r.value]
    ensures r.None? <==> c !in s
  {
    if s == [] then None
    else if s[0] == c then Some(0)
    else
      match IndexOf(s[1..], c)
      case None => None
      case Some(i) =>
        assert s[..i + 1] == [s[0]] + s[1..][..i];
        Some(i + 1)
  }

  /** The first `c` of `m + [c] + rest`, when `m` holds none, is the one right after `m`. */
  lemma IndexOfAfter(m: string, c: char, rest: string)
    requires c !in m
    ensures IndexOf(m + [c] + rest, c) == Some(|m|)
  {
    var s := m + [c] + rest;
    assert s[|m|] == c && s[..|m|] == m;
  }

  /** An occurrence with none before it is the first. */
  lemma IndexOfAt(s: string, c: char, i: nat)
    requires i < |s| && s[i] == c && c !in s[..i]
    ensures IndexOf(s, c) == Some(i)
  {
    assert s == s[..i] + [c] + s[i + 1..];
    IndexOfAfter(s[..i], c, s[i + 1..]);
  }

  /** Searching past a prefix without `c` shifts the position by the prefix's length. */
  lemma {:induction false} IndexOfShift(p: string, rest: string, c: char)
    requires c !in p
    ensures IndexOf(p + rest, c) == match IndexOf(rest, c) case None => None case Some(i) => Some(|p| + i)
    decreases |p|
  {
    if p != [] {
      assert (p + rest)[1..] == p[1..] + rest;
      IndexOfShift(p[1..], rest, c);
    } else {
      assert p + rest == rest;
    }
  }

  /** A prefix without the separator stays in the first part of a split. */
  lemma SplitFirstAfter(p: string, rest: string, sep: char)
    requires sep !in p
    ensures Split(p + rest, sep)[0] == p + Split(rest, sep)[0]
  {
    IndexOfShift(p, rest, sep);
    match IndexOf(rest, sep)
    case None =>
    case Some(i) =>
      assert (p + rest)[..|p| + i] == p + rest[..i];
  }

  /** The first part of a split is a prefix of the string. */
  lemma SplitFirstIsPrefix(s: string, sep: char)
    ensures |Split(s, sep)[0]| <= |s| && Split(s, sep)[0] == s[..|Split(s, sep)[0]|]
  {
  }

  /** String.prototype.split with a one-character separator: the maximal runs between
      separators, in order; there is always at least one part and no part holds `sep`. */
  function Split(s: string, sep: char): (parts: seq<string>)
    ensures |parts| >= 1
    ensures forall k | 0 <= k < |parts| :: sep !in parts[k]
    decreases |s|
  {
    match IndexOf(s, sep)
    case None => [s]
    case Some(i) => [s[..i]] + Split(s[i + 1..], sep)
  }

  /** Array.prototype.join with a one-character separator. */
  function Join(parts: seq<string>, sep: char): string {
    if |parts| == 0 then ""
    else if |parts| == 1 then parts[0]
    else parts[0] + [sep] + Join(parts[1..], sep)
  }

  /** Joining the parts of a split with the same separator gives back the string. */
  lemma {:induction false} JoinSplit(s: string, sep: char)
    ensures Join(Split(s, sep), sep) == s
    decreases |s|
  {
    match IndexOf(s, sep)
    case None =>
    case Some(i) =>
      var rest := Split(s[i + 1..], sep);
      JoinSplit(s[i + 1..], sep);
      assert Split(s, sep)[1..] == rest;
      assert s == s[..i] + [sep] + s[i + 1..];
  }

  /** The first part of a split is everything before the first separator, and the other parts
      joined back are everything after it. */
  lemma SplitAtFirst(s: string, sep: char, i: nat)
    requires IndexOf(s, sep) == Some(i)
    ensures Split(s, sep)[0] == s[..i]
    ensures |Split(s, sep)| >= 2
    ensures Join(Split(s, sep)[1..], sep) == s[i + 1..]
  {
    assert Split(s, sep)[1..] == Split(s[i + 1..], sep);
    JoinSplit(s[i + 1..], sep);
  }

  predicate StartsWith(s: string, prefix: string) {
    |prefix| <= |s| && s[..|prefix|] == prefix
  }

  predicate EndsWith(s: string, suffix: string) {
    |suffix| <= |s| && s[|s| - |suffix|..] == suffix
  }

  /** String.prototype.includes: `part` occurs somewhere in `s`. */
  predicate Includes(s: string, part: string)
    decreases |s|
  {
    StartsWith(s, part) || (s != [] && Includes(s[1..], part))
  }

  function LowerAscii(c: char): char {
    if 'A' <= c <= 'Z' then (c as int + 32) as char else c
  }

  function LowerAsciiString(s: string): (r: string)
    ensures |r| == |s|
    ensures forall k | 0 <= k < |s| :: r[k] == LowerAscii(s[k])
  {
    seq(|s|, k requires 0 <= k < |s| => LowerAscii(s[k]))
  }

  /** `s` ends with the lower-case ASCII `suffix`, ignoring case, as a regular expression
      `suffix$` with the `i` flag decides it. Without the `u` flag ECMAScript folds case by
      upper-casing and never maps a non-ASCII character onto an ASCII one, so only ASCII
      letters fold. */
  predicate EndsWithIgnoringCase(s: string, suffix: string) {
    EndsWith(LowerAsciiString(s), suffix)
  }

  /** A string that ends in a lower-case suffix ends in it ignoring case too. */
  lemma EndsWithIgnoringCaseOf(s: string, suffix: string)
    requires EndsWith(s, suffix) && LowerAsciiString(suffix) == suffix
    ensures EndsWithIgnoringCase(s, suffix)
  {
    var lower := LowerAsciiString(s);
    var offset := |s| - |suffix|;
    forall k | 0 <= k < |suffix| ensures lower[offset..][k] == suffix[k] {
      assert s[offset + k] == suffix[k];
      assert LowerAsciiString(suffix)[k] == LowerAscii(suffix[k]);
    }
  }

  function DigitChar(d: nat): (c: char)
    requires d < 10
    ensures '0' <= c <= '9'
  {
    ('0' as int + d) as char
  }

  /** The decimal digits of `n`, as `${n}` renders an integer. */
  function Decimal(n: nat): (r: string)
    ensures r != []
    ensures forall k | 0 <= k < |r| :: '0' <= r[k] <= '9'
  {
    if n < 10 then [DigitChar(n)] else Decimal(n / 10) + [DigitChar(n % 10)]
  }
}
