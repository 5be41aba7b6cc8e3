/**
 * The PHP string functions the logger is built from, over `string`: explode and
 * implode on a one-character separator, str_replace of one character,
 * strtolower/strtoupper/ucwords (ASCII, as PHP 8 does them), trim, dirname (Unix
 * separators), prefix tests and the integer-to-string conversion that implode and
 * string interpolation perform.
 */
module PhpStrings {

  /** Number of occurrences of `c` in `s`. */
  function Count(s: string, c: char): nat
  {
    if s == [] then 0 else (if s[0] == c then 1 else 0) + Count(s[1..], c)
  }

  /** explode($sep, $s): the pieces between separators, empty pieces included. */
  function Split(s: string, sep: char): (parts: seq<string>)
    ensures |parts| >= 1
  {
    if s == [] then [""]
    else
      var rest := Split(s[1..], sep);
      if s[0] == sep then [""] + rest else [[s[0]] + rest[0]] + rest[1..]
  }

  /** implode($sep, $parts). */
  function Join(parts: seq<string>, sep: char): string
  {
    if |parts| == 0 then ""
    else if |parts| == 1 then parts[0]
    else parts[0] + [sep] + Join(parts[1..], sep)
  }

  /** explode yields one more piece than there are separators. */
  lemma {:induction false} SplitCount(s: string, sep: char)
    ensures |Split(s, sep)| == Count(s, sep) + 1
  {
    if s != [] {
      SplitCount(s[1..], sep);
    }
  }

  /** No piece of an explode contains the separator. */
  lemma {:induction false} SplitPiecesFree(s: string, sep: char)
    ensures forall i :: 0 <= i < |Split(s, sep)| ==> sep !in Split(s, sep)[i]
  {
    if s != [] {
      var rest := Split(s[1..], sep);
      SplitPiecesFree(s[1..], sep);
      if s[0] != sep {
        assert sep !in rest[0];
        assert sep !in [s[0]] + rest[0];
      }
    }
  }

  lemma JoinPrepend(x: string, parts: seq<string>, sep: char)
    requires |parts| >= 1
    ensures Join([x + parts[0]] + parts[1..], sep) == x + Join(parts, sep)
  {
    var q := [x + parts[0]] + parts[1..];
    assert q[1..] == parts[1..];
    if |parts| > 1 {
      assert Join(q, sep) == (x + parts[0]) + [sep] + Join(parts[1..], sep);
      assert x + Join(parts, sep) == x + (parts[0] + [sep] + Join(parts[1..], sep));
    }
  }

  /** implode undoes explode: joining the pieces restores the input. */
  lemma {:induction false} JoinSplit(s: string, sep: char)
    ensures Join(Split(s, sep), sep) == s
  {
    if s != [] {
      var rest := Split(s[1..], sep);
      JoinSplit(s[1..], sep);
      if s[0] == sep {
        assert ([""] + rest)[1..] == rest;
        assert Join([""] + rest, sep) == "" + [sep] + Join(rest, sep);
      } else {
        JoinPrepend([s[0]], rest, sep);
      }
      assert [s[0]] + s[1..] == s;
    }
  }

  /** A string without the separator explodes to itself alone. */
  lemma {:induction false} SplitFree(a: string, sep: char)
    requires sep !in a
    ensures Split(a, sep) == [a]
  {
    if a != [] {
      SplitFree(a[1..], sep);
      assert [a[0]] + a[1..] == a;
    }
  }

  /** The first piece of an explode is the text before the first separator. */
  lemma {:induction false} SplitAtFirst(a: string, b: string, sep: char)
    requires sep !in a
    ensures Split(a + [sep] + b, sep) == [a] + Split(b, sep)
  {
    var s := a + [sep] + b;
    if a == [] {
      assert s[0] == sep && s[1..] == b;
    } else {
      assert s[0] == a[0] && s[1..] == a[1..] + [sep] + b;
      SplitAtFirst(a[1..], b, sep);
      assert [a[0]] + a[1..] == a;
    }
  }

  /** explode undoes implode when no piece contains the separator. */
  lemma {:induction false} SplitJoin(parts: seq<string>, sep: char)
    requires |parts| >= 1
    requires forall i :: 0 <= i < |parts| ==> sep !in parts[i]
    ensures Split(Join(parts, sep), sep) == parts
  {
    if |parts| == 1 {
      SplitFree(parts[0], sep);
    } else {
      SplitJoin(parts[1..], sep);
      SplitAtFirst(parts[0], Join(parts[1..], sep), sep);
      assert [parts[0]] + parts[1..] == parts;
    }
  }

  /** str_replace($c, $r, $s) for a one-character search string. */
  function ReplaceAll(s: string, c: char, r: string): string
  {
    if s == [] then [] else (if s[0] == c then r else [s[0]]) + ReplaceAll(s[1..], c, r)
  }

  /** str_replace applied to every piece of a list. */
  function ReplaceEach(parts: seq<string>, c: char, r: string): (q: seq<string>)
    ensures |q| == |parts|
  {
    seq(|parts|, i requires 0 <= i < |parts| => ReplaceAll(parts[i], c, r))
  }

  /** After str_replace, `x` is absent if it was absent or was the replaced character, and the replacement lacks it. */
  lemma {:induction false} ReplaceAllAbsent(s: string, c: char, r: string, x: char)
    requires x == c || x !in s
    requires x !in r
    ensures x !in ReplaceAll(s, c, r)
  {
    if s != [] {
      assert x == c || x !in s[1..];
      ReplaceAllAbsent(s[1..], c, r, x);
    }
  }

  /** str_replace leaves a string without the searched character unchanged. */
  lemma {:induction false} ReplaceAllNoop(s: string, c: char, r: string)
    requires c !in s
    ensures ReplaceAll(s, c, r) == s
  {
    if s != [] {
      ReplaceAllNoop(s[1..], c, r);
      assert [s[0]] + s[1..] == s;
    }
  }

  /** Replacing a character by one character keeps the length and changes exactly the occurrences. */
  lemma {:induction false} ReplaceCharPointwise(s: string, c: char, d: char)
    ensures |ReplaceAll(s, c, [d])| == |s|
    ensures forall i :: 0 <= i < |s| ==> ReplaceAll(s, c, [d])[i] == if s[i] == c then d else s[i]
  {
    if s != [] {
      ReplaceCharPointwise(s[1..], c, d);
    }
  }

  lemma {:induction false} ReplaceAllConcat(a: string, b: string, c: char, r: string)
    ensures ReplaceAll(a + b, c, r) == ReplaceAll(a, c, r) + ReplaceAll(b, c, r)
  {
    if a != [] {
      assert (a + b)[0] == a[0] && (a + b)[1..] == a[1..] + b;
      ReplaceAllConcat(a[1..], b, c, r);
    } else {
      assert a + b == b;
    }
  }

  /** Replacing a character other than the separator commutes with implode. */
  lemma {:induction false} ReplaceAllJoin(parts: seq<string>, sep: char, c: char, r: string)
    requires sep != c
    ensures ReplaceAll(Join(parts, sep), c, r) == Join(ReplaceEach(parts, c, r), sep)
  {
    if |parts| > 1 {
      ReplaceAllJoin(parts[1..], sep, c, r);
      ReplaceAllConcat(parts[0] + [sep], Join(parts[1..], sep), c, r);
      ReplaceAllConcat(parts[0], [sep], c, r);
      assert ReplaceAll([sep], c, r) == [sep];
      assert ReplaceEach(parts, c, r)[1..] == ReplaceEach(parts[1..], c, r);
    }
  }

  function LowerChar(c: char): char
  {
    if 'A' <= c <= 'Z' then (c as int + 32) as char else c
  }

  function UpperChar(c: char): char
  {
    if 'a' <= c <= 'z' then (c as int - 32) as char else c
  }

  /** strtolower (ASCII letters only, as in PHP 8). */
  function ToLower(s: string): string
  {
    seq(|s|, i requires 0 <= i < |s| => LowerChar(s[i]))
  }

  /** strtoupper (ASCII letters only, as in PHP 8). */
  function ToUpper(s: string): string
  {
    seq(|s|, i requires 0 <= i < |s| => UpperChar(s[i]))
  }

  /** No lower-case ASCII letter occurs in `s`. */
  predicate IsUpperCase(s: string)
  {
    forall i :: 0 <= i < |s| ==> !('a' <= s[i] <= 'z')
  }

  /** The delimiters ucwords() uses by default: space, tab, CR, LF, form feed and vertical tab. */
  predicate IsWordDelimiter(c: char)
  {
    c == ' ' || c == '\t' || c == '\r' || c == '\n' || c == '\U{000C}' || c == '\U{000B}'
  }

  /** ucwords: the first character, and every character after a delimiter, upper-cased. */
  function UcWords(s: string): string
  {
    seq(|s|, i requires 0 <= i < |s| =>
      if i == 0 || IsWordDelimiter(s[i - 1]) then UpperChar(s[i]) else s[i])
  }

  /** strtolower leaves characters other than ASCII letters where they are, and makes none. */
  lemma LowerKeepsNonLetter(s: string, x: char)
    requires !('A' <= x <= 'Z') && !('a' <= x <= 'z')
    ensures x in ToLower(s) <==> x in s
  {
    var t := ToLower(s);
    if x in t {
      var i :| 0 <= i < |t| && t[i] == x;
      assert s[i] == x;
    }
    if x in s {
      var i :| 0 <= i < |s| && s[i] == x;
      assert t[i] == x;
    }
  }

  /** ucwords leaves characters other than ASCII letters where they are, and makes none. */
  lemma UcWordsKeepsNonLetter(s: string, x: char)
    requires !('A' <= x <= 'Z') && !('a' <= x <= 'z')
    ensures x in UcWords(s) <==> x in s
  {
    var t := UcWords(s);
    if x in t {
      var i :| 0 <= i < |t| && t[i] == x;
      assert s[i] == x;
    }
    if x in s {
      var i :| 0 <= i < |s| && s[i] == x;
      assert t[i] == x;
    }
  }

  /** `s` begins with `p` (substr($s, 0, |p|) == $p, or strpos($s, $p) === 0 for a non-empty $p). */
  predicate StartsWith(s: string, p: string)
  {
    |p| <= |s| && s[..|p|] == p
  }

  /** PHP's empty() on a string: true for "" and for "0". */
  predicate IsEmpty(s: string)
  {
    s == "" || s == "0"
  }

  /** The characters trim() strips by default: space, tab, LF, CR, NUL and vertical tab. */
  predicate IsTrimChar(c: char)
  {
    c == ' ' || c == '\t' || c == '\n' || c == '\r' || c == '\0' || c == '\U{000B}'
  }

  /** ltrim: the longest suffix that does not start with a trim character. */
  function TrimLeft(s: string): (r: string)
    ensures |r| <= |s| && r == s[|s| - |r|..]
    ensures r == [] || !IsTrimChar(r[0])
  {
    if s != [] && IsTrimChar(s[0]) then TrimLeft(s[1..]) else s
  }

  /** rtrim: the longest prefix that does not end with a trim character. */
  function TrimRight(s: string): (r: string)
    ensures |r| <= |s| && r == s[..|r|]
    ensures r == [] || !IsTrimChar(r[|r| - 1])
  {
    if s != [] && IsTrimChar(s[|s| - 1]) then TrimRight(s[..|s| - 1]) else s
  }

  /** trim: neither end of the result is a trim character. */
  function Trim(s: string): (r: string)
    ensures |r| <= |s|
    ensures r == [] || (!IsTrimChar(r[0]) && !IsTrimChar(r[|r| - 1]))
  {
    TrimRight(TrimLeft(s))
  }

  /** `s` without its trailing '/' characters. */
  function DropTrailingSlashes(s: string): (r: string)
    ensures |r| <= |s| && r == s[..|r|]
    ensures r == [] || r[|r| - 1] != '/'
  {
    if s != [] && s[|s| - 1] == '/' then DropTrailingSlashes(s[..|s| - 1]) else s
  }

  /** `s` without its trailing non-'/' characters (the last path segment). */
  function DropLastSegment(s: string): (r: string)
    ensures |r| <= |s| && r == s[..|r|]
    ensures r == [] || r[|r| - 1] == '/'
  {
    if s != [] && s[|s| - 1] != '/' then DropLastSegment(s[..|s| - 1]) else s
  }

  /**
   * dirname($path) with '/' as the only separator: "" for "", "/" for a path of
   * slashes or a file directly under the root, "." for a bare file name,
   * otherwise the path up to (not including) the slashes before its last segment.
   */
  function Dirname(path: string): (r: string)
    ensures path != [] ==> r != []
    ensures r == "/" || r == "." || r == [] || (|r| < |path| && r == path[..|r|] && r[|r| - 1] != '/')
  {
    if path == [] then []
    else
      var a := DropTrailingSlashes(path);
      if a == [] then "/"
      else
        var b := DropLastSegment(a);
        if b == [] then "."
        else
          var c := DropTrailingSlashes(b);
          if c == [] then "/" else c
  }

  function DigitChar(d: nat): char
    requires d < 10
  {
    ('0' as int + d) as char
  }

  /** Decimal digits of a natural number, most significant first. */
  function NatToString(n: nat): (r: string)
    ensures |r| >= 1
    ensures forall i :: 0 <= i < |r| ==> '0' <= r[i] <= '9'
  {
    if n < 10 then [DigitChar(n)] else NatToString(n / 10) + [DigitChar(n % 10)]
  }

  /** PHP's conversion of an int to a string: optional '-' then decimal digits. */
  function IntToString(i: int): (r: string)
    ensures |r| >= 1
    ensures forall k :: 0 <= k < |r| ==> r[k] == '-' || '0' <= r[k] <= '9'
  {
    if i < 0 then "-" + NatToString(-i) else NatToString(i)
  }
}
