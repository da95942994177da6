/**
 * String primitives shared by the TypeScript and the Python parts of the
 * repository: whitespace trimming as `String.prototype.trim` and `str.strip`
 * do it, substring search (`includes`, `in`, `indexOf`), `split` and `join`
 * with a string separator, ASCII lower-casing and decimal rendering of
 * integers (`String(n)`, `str(n)`).
 */
module Text {

  // ------------------------------------------------------------------ whitespace

  /** The characters `String.prototype.trim` removes: WhiteSpace and LineTerminator of ECMAScript. */
  predicate IsJsWhitespace(c: char) {
    c == '\t' || c == '\n' || c == '\U{000B}' || c == '\U{000C}' || c == '\r' || c == ' '
    || c == '\U{00A0}' || c == '\U{1680}' || ('\U{2000}' <= c <= '\U{200A}')
    || c == '\U{2028}' || c == '\U{2029}' || c == '\U{202F}' || c == '\U{205F}'
    || c == '\U{3000}' || c == '\U{FEFF}'
  }

  /** The characters Python's `str.strip()` removes when given no argument (`str.isspace`). */
  predicate IsPyWhitespace(c: char) {
    ('\t' <= c <= '\r') || ('\U{001C}' <= c <= '\U{001F}') || c == ' '
    || c == '\U{0085}' || c == '\U{00A0}' || c == '\U{1680}' || ('\U{2000}' <= c <= '\U{200A}')
    || c == '\U{2028}' || c == '\U{2029}' || c == '\U{202F}' || c == '\U{205F}' || c == '\U{3000}'
  }

  /** `r` is a contiguous part of `s` starting at position `i`. */
  predicate InfixAt(r: string, s: string, i: int) {
    0 <= i && i + |r| <= |s| && s[i..i + |r|] == r
  }

  predicate IsInfix(r: string, s: string) {
    exists i | 0 <= i <= |s| - |r| :: InfixAt(r, s, i)
  }

  lemma InfixChars(r: string, s: string)
    requires IsInfix(r, s)
    ensures forall c :: c in r ==> c in s
  {
    var i :| 0 <= i <= |s| - |r| && InfixAt(r, s, i);
    forall c | c in r ensures c in s {
      var k :| 0 <= k < |r| && r[k] == c;
      assert s[i + k] == c;
    }
  }

  /** Drops the leading characters that satisfy `isSpace`. */
  function StripStart(s: string, isSpace: char -> bool): (r: string)
    ensures |r| <= |s| && r == s[|s| - |r|..]
    ensures forall i :: 0 <= i < |s| - |r| ==> isSpace(s[i])
    ensures r != [] ==> !isSpace(r[0])
    decreases |s|
  {
    if s != [] && isSpace(s[0]) then StripStart(s[1..], isSpace) else s
  }

  /** Drops the trailing characters that satisfy `isSpace`. */
  function StripEnd(s: string, isSpace: char -> bool): (r: string)
    ensures |r| <= |s| && r == s[..|r|]
    ensures forall i :: |r| <= i < |s| ==> isSpace(s[i])
    ensures r != [] ==> !isSpace(r[|r| - 1])
    decreases |s|
  {
    if s != [] && isSpace(s[|s| - 1]) then StripEnd(s[..|s| - 1], isSpace) else s
  }

  /** `r` is `s` with only space characters cut off before position `i` and after `r`. */
  predicate StrippedAt(r: string, s: string, i: int, isSpace: char -> bool) {
    && InfixAt(r, s, i)
    && (forall j :: 0 <= j < i ==> isSpace(s[j]))
    && (forall j :: i + |r| <= j < |s| ==> isSpace(s[j]))
  }

  /**
   * Both ends stripped. The result is a contiguous part of the input that
   * neither starts nor ends with a space character, and only space
   * characters are cut off before and after it.
   */
  function Strip(s: string, isSpace: char -> bool): (r: string)
    ensures IsInfix(r, s)
    ensures r != [] ==> !isSpace(r[0]) && !isSpace(r[|r| - 1])
    ensures exists i :: StrippedAt(r, s, i, isSpace)
  {
    var t := StripStart(s, isSpace);
    var r := StripEnd(t, isSpace);
    PrefixOfSuffix(r, t, s);
    assert StrippedAt(r, s, |s| - |t|, isSpace) by {
      forall j | |s| - |t| + |r| <= j < |s| ensures isSpace(s[j]) {
        assert s[j] == t[j - (|s| - |t|)];
      }
    }
    r
  }

  lemma PrefixOfSuffix(r: string, t: string, s: string)
    requires |t| <= |s| && t == s[|s| - |t|..]
    requires |r| <= |t| && r == t[..|r|]
    ensures InfixAt(r, s, |s| - |t|)
  {
    assert s[|s| - |t|..][..|r|] == r;
  }

  /** Stripping leaves nothing exactly when the input consists of space characters only. */
  lemma StripEmpty(s: string, isSpace: char -> bool)
    ensures Strip(s, isSpace) == [] <==> forall i :: 0 <= i < |s| ==> isSpace(s[i])
  {
    var t := StripStart(s, isSpace);
    if StripEnd(t, isSpace) == [] {
      assert t == [];
    }
  }

  /** `String.prototype.trim`. */
  function JsTrim(s: string): string {
    Strip(s, IsJsWhitespace)
  }

  /** Python's `str.strip()` without arguments. */
  function PyStrip(s: string): (r: string)
    ensures IsInfix(r, s)
    ensures r != [] ==> !IsPyWhitespace(r[0]) && !IsPyWhitespace(r[|r| - 1])
    ensures exists i :: StrippedAt(r, s, i, IsPyWhitespace)
  {
    Strip(s, IsPyWhitespace)
  }

  // ------------------------------------------------------------------ searching

  /** `sub` occurs in `s` at position `i`. */
  predicate OccursAt(s: string, sub: string, i: int) {
    0 <= i && i + |sub| <= |s| && s[i..i + |sub|] == sub
  }

  /** `s.includes(sub)` in JavaScript, `sub in s` in Python. */
  predicate Contains(s: string, sub: string) {
    exists i | 0 <= i <= |s| - |sub| :: OccursAt(s, sub, i)
  }

  /** The first position at or after `from` where `sub` occurs, or -1. */
  function IndexOfFrom(s: string, sub: string, from: nat): (r: int)
    requires from <= |s|
    ensures r == -1 || (from <= r && OccursAt(s, sub, r))
    ensures forall j :: from <= j && (r == -1 || j < r) ==> !OccursAt(s, sub, j)
    decreases |s| - from
  {
    if from + |sub| > |s| then -1
    else if s[from..from + |sub|] == sub then from
    else IndexOfFrom(s, sub, from + 1)
  }

  /** `s.indexOf(sub)` in JavaScript, `s.find(sub)` in Python. */
  function IndexOf(s: string, sub: string): (r: int)
    ensures r == -1 <==> !Contains(s, sub)
    ensures r != -1 ==> OccursAt(s, sub, r) && forall j :: 0 <= j < r ==> !OccursAt(s, sub, j)
  {
    IndexOfFrom(s, sub, 0)
  }

  lemma IndexOfIs(s: string, sub: string, i: int)
    requires OccursAt(s, sub, i)
    requires forall j :: 0 <= j < i ==> !OccursAt(s, sub, j)
    ensures IndexOf(s, sub) == i
  {
  }

  lemma ContainsInfix(a: string, sub: string, b: string)
    ensures Contains(a + sub + b, sub)
  {
    assert OccursAt(a + sub + b, sub, |a|);
  }

  /** An occurrence is at the front or in the tail. */
  lemma ContainsCons(s: string, sub: string)
    requires s != []
    ensures Contains(s, sub) <==> OccursAt(s, sub, 0) || Contains(s[1..], sub)
  {
    if Contains(s, sub) && !OccursAt(s, sub, 0) {
      var j :| 0 <= j <= |s| - |sub| && OccursAt(s, sub, j);
      assert s[1..][j - 1..j - 1 + |sub|] == s[j..j + |sub|];
      assert OccursAt(s[1..], sub, j - 1);
    }
    if Contains(s[1..], sub) {
      var j :| 0 <= j <= |s[1..]| - |sub| && OccursAt(s[1..], sub, j);
      assert s[1..][j..j + |sub|] == s[j + 1..j + 1 + |sub|];
      assert OccursAt(s, sub, j + 1);
    }
  }

  /** A contiguous part of a string that avoids `sub` avoids it too. */
  lemma InfixAvoids(r: string, s: string, sub: string)
    requires IsInfix(r, s) && !Contains(s, sub)
    ensures !Contains(r, sub)
  {
    var i :| 0 <= i <= |s| - |r| && InfixAt(r, s, i);
    forall j | 0 <= j <= |r| - |sub| ensures !OccursAt(r, sub, j) {
      assert forall k :: 0 <= k < |r| ==> r[k] == s[i + k];
      assert r[j..j + |sub|] == s[i + j..i + j + |sub|];
      assert !OccursAt(s, sub, i + j);
    }
  }

  /** `s.replace(pat, rep)` in JavaScript with a string pattern: only the first occurrence is replaced. */
  function ReplaceFirst(s: string, pat: string, rep: string): string {
    var i := IndexOf(s, pat);
    if i < 0 then s else s[..i] + rep + s[i + |pat|..]
  }

  /** When `s` starts with the pattern, `replace` cuts exactly that prefix. */
  lemma ReplaceFirstAtStart(s: string, pat: string, rep: string)
    requires pat <= s
    ensures ReplaceFirst(s, pat, rep) == rep + s[|pat|..]
  {
    IndexOfIs(s, pat, 0);
  }

  // ------------------------------------------------------------------ sequence steps

  lemma HeadTail<A>(xs: seq<A>)
    requires xs != []
    ensures [xs[0]] + xs[1..] == xs
  {
  }

  lemma PrefixRest<A>(xs: seq<A>, p: seq<A>)
    requires p <= xs
    ensures xs == p + xs[|p|..]
  {
  }

  lemma AppendTail<A>(p: seq<A>, x: seq<A>)
    requires p != []
    ensures (p + x)[0] == p[0] && (p + x)[1..] == p[1..] + x
    ensures forall c :: c in p[1..] ==> c in p
  {
  }

  lemma ConsAppend<A>(p: seq<A>, r: seq<A>)
    requires p != []
    ensures [p[0]] + (p[1..] + r) == p + r
  {
  }

  lemma ConsTail<A>(x: A, xs: seq<A>)
    ensures ([x] + xs)[1..] == xs
  {
  }

  lemma SnocTail<A>(p: seq<A>, x: A, t: seq<A>)
    requires p != []
    ensures (p + [x] + t)[1..] == p[1..] + [x] + t
  {
  }

  // ------------------------------------------------------------------ split and join

  /**
   * `s.split(sep)` (JavaScript) and `s.split(sep)` (Python) for a non-empty
   * separator: the pieces between the leftmost non-overlapping occurrences.
   */
  function Split(s: string, sep: string): (r: seq<string>)
    requires sep != []
    ensures |r| >= 1 && r[0] <= s
    decreases |s|
  {
    if |s| < |sep| then [s]
    else if sep <= s then [[]] + Split(s[|sep|..], sep)
    else
      var rest := Split(s[1..], sep);
      [[s[0]] + rest[0]] + rest[1..]
  }

  /** `parts.join(sep)` (JavaScript) and `sep.join(parts)` (Python). */
  function Join(parts: seq<string>, sep: string): string {
    if |parts| == 0 then []
    else if |parts| == 1 then parts[0]
    else parts[0] + sep + Join(parts[1..], sep)
  }

  lemma JoinHead(p: string, parts: seq<string>, sep: string)
    requires |parts| >= 1
    ensures Join([p + parts[0]] + parts[1..], sep) == p + Join(parts, sep)
  {
    var q := [p + parts[0]] + parts[1..];
    assert q[1..] == parts[1..];
  }

  /** Joining the pieces of a split with the same separator gives back the input. */
  lemma {:induction false} JoinSplit(s: string, sep: string)
    requires sep != []
    ensures Join(Split(s, sep), sep) == s
    decreases |s|
  {
    if |s| < |sep| {
    } else if sep <= s {
      var rest := Split(s[|sep|..], sep);
      JoinSplit(s[|sep|..], sep);
      ConsTail([], rest);
      PrefixRest(s, sep);
    } else {
      var rest := Split(s[1..], sep);
      JoinSplit(s[1..], sep);
      JoinHead([s[0]], rest, sep);
      HeadTail(s);
    }
  }

  /** No piece of a split contains the separator. */
  lemma {:induction false} SplitPiecesAvoidSeparator(s: string, sep: string)
    requires sep != []
    ensures forall p :: p in Split(s, sep) ==> !Contains(p, sep)
    decreases |s|
  {
    if |s| < |sep| {
      assert !Contains(s, sep);
    } else if sep <= s {
      SplitPiecesAvoidSeparator(s[|sep|..], sep);
      assert !Contains([], sep);
    } else {
      var rest := Split(s[1..], sep);
      SplitPiecesAvoidSeparator(s[1..], sep);
      var head := [s[0]] + rest[0];
      assert rest[0] in rest;
      forall i | 0 <= i <= |head| - |sep| ensures !OccursAt(head, sep, i) {
        if i == 0 {
          assert head[..|sep|] == s[..|sep|];
        } else {
          assert head[i..i + |sep|] == rest[0][i - 1..i - 1 + |sep|];
          assert !OccursAt(rest[0], sep, i - 1);
        }
      }
      forall p | p in [head] + rest[1..] ensures !Contains(p, sep) {
        if p != head {
          assert p in rest;
        }
      }
    }
  }

  /** Every character of a piece occurs in the split string. */
  lemma {:induction false} SplitPiecesChars(s: string, sep: string)
    requires sep != []
    ensures forall p, c :: p in Split(s, sep) && c in p ==> c in s
    decreases |s|
  {
    if |s| < |sep| {
    } else if sep <= s {
      SplitPiecesChars(s[|sep|..], sep);
      forall c | c in s[|sep|..] ensures c in s {
        var k :| 0 <= k < |s[|sep|..]| && s[|sep|..][k] == c;
        assert s[|sep| + k] == c;
      }
    } else {
      var rest := Split(s[1..], sep);
      SplitPiecesChars(s[1..], sep);
      assert rest[0] in rest;
      forall c | c in s[1..] ensures c in s {
        var k :| 0 <= k < |s[1..]| && s[1..][k] == c;
        assert s[1 + k] == c;
      }
      forall p | p in rest[1..] ensures p in rest {
        var k :| 0 <= k < |rest[1..]| && rest[1..][k] == p;
        assert rest[k + 1] == p;
      }
    }
  }

  /** Number of occurrences of `c` in `s`. */
  function CountChar(s: string, c: char): nat {
    if s == [] then 0 else (if s[0] == c then 1 else 0) + CountChar(s[1..], c)
  }

  /** Splitting on one character gives one piece more than there are occurrences of it. */
  lemma {:induction false} SplitCharCount(s: string, c: char)
    ensures |Split(s, [c])| == CountChar(s, c) + 1
    decreases |s|
  {
    if s != [] {
      SplitCharCount(s[1..], c);
      if s[0] == c {
        assert [c] <= s;
        assert s[|[c]|..] == s[1..];
      }
    }
  }

  lemma {:induction false} SplitCharAbsent(p: string, c: char)
    requires c !in p
    ensures Split(p, [c]) == [p]
    decreases |p|
  {
    if p != [] {
      SplitCharAbsent(p[1..], c);
      assert p[0] in p;
      assert !([c] <= p);
      assert [p[0]] + p[1..] == p;
    }
  }

  lemma {:induction false} SplitCharAfter(p: string, c: char, t: string)
    requires c !in p
    ensures Split(p + [c] + t, [c]) == [p] + Split(t, [c])
    decreases |p|
  {
    var s := p + [c] + t;
    if p == [] {
      assert [c] <= s;
      assert s[1..] == t;
    } else {
      SplitCharAfter(p[1..], c, t);
      assert s[0] == p[0] && p[0] in p;
      assert !([c] <= s);
      SnocTail(p, c, t);
      HeadTail(p);
    }
  }

  /** Splitting the join of pieces free of a one-character separator gives the pieces back. */
  lemma {:induction false} SplitJoinChar(parts: seq<string>, c: char)
    requires |parts| >= 1
    requires forall p :: p in parts ==> c !in p
    ensures Split(Join(parts, [c]), [c]) == parts
    decreases |parts|
  {
    if |parts| == 1 {
      SplitCharAbsent(parts[0], c);
    } else {
      assert parts[0] in parts;
      forall p | p in parts[1..] ensures c !in p {
        assert p in parts;
      }
      SplitJoinChar(parts[1..], c);
      SplitCharAfter(parts[0], c, Join(parts[1..], [c]));
      HeadTail(parts);
    }
  }

  // ------------------------------------------------------------------ letters and digits

  /** Lower-case of an ASCII letter; every other character is left as it is. */
  function LowerChar(c: char): char {
    if 'A' <= c <= 'Z' then (c as int + 32) as char else c
  }

  /** `toLowerCase()` restricted to ASCII letters. */
  function ToLowerAscii(s: string): (r: string)
    ensures |r| == |s|
  {
    seq(|s|, i requires 0 <= i < |s| => LowerChar(s[i]))
  }

  lemma ToLowerAsciiAppend(a: string, b: string)
    ensures ToLowerAscii(a + b) == ToLowerAscii(a) + ToLowerAscii(b)
  {
  }

  function DigitChar(d: nat): (c: char)
    requires d < 10
    ensures '0' <= c <= '9'
  {
    ('0' as int + d) as char
  }

  /** The decimal numeral of a natural number, without leading zeros. */
  function NatToDecimal(n: nat): (r: string)
    ensures |r| >= 1
    ensures forall i :: 0 <= i < |r| ==> '0' <= r[i] <= '9'
    ensures r[0] == '0' ==> n == 0
    decreases n
  {
    if n < 10 then [DigitChar(n)] else NatToDecimal(n / 10) + [DigitChar(n % 10)]
  }

  /** The value of a string of decimal digits. */
  function DecimalValue(s: string): nat
    requires forall i :: 0 <= i < |s| ==> '0' <= s[i] <= '9'
  {
    if s == [] then 0 else DecimalValue(s[..|s| - 1]) * 10 + (s[|s| - 1] as int - '0' as int)
  }

  /** Reading back the numeral gives the number: the rendering loses nothing. */
  lemma {:induction false} DecimalRoundTrip(n: nat)
    ensures DecimalValue(NatToDecimal(n)) == n
    decreases n
  {
    if n >= 10 {
      DecimalRoundTrip(n / 10);
      var r := NatToDecimal(n);
      assert r[..|r| - 1] == NatToDecimal(n / 10);
    }
  }

  /** `String(n)` in JavaScript and `str(n)` in Python for an integer. */
  function IntToDecimal(n: int): string {
    if n < 0 then "-" + NatToDecimal(-n) else NatToDecimal(n)
  }
}
