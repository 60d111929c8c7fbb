/** The JavaScript string primitives the chat client leans on: `trim()`,
    `split(sep)` with a one-character separator, and `lastIndexOf(c)`.
    A `string` here is a sequence of Unicode scalar values, whereas
    JavaScript strings are UTF-16 code units; every separator and whitespace
    character involved lies in the Basic Multilingual Plane and decoded text
    holds no lone surrogates, so `split` and `trim` cut at the same places
    either way. */
module Text {

  /** The characters `String.prototype.trim` strips: ECMAScript WhiteSpace
      (tab, vertical tab, form feed, space, no-break space, the byte order
      mark and the Unicode space separators) and LineTerminator (line feed,
      carriage return, line and paragraph separator). */
  predicate IsWhitespace(c: char) {
    || c == ' ' || c == '\t' || c == '\n' || c == '\r'
    || c == '\U{000B}' || c == '\U{000C}' || c == '\U{00A0}' || c == '\U{1680}'
    || ('\U{2000}' <= c <= '\U{200A}')
    || c == '\U{2028}' || c == '\U{2029}' || c == '\U{202F}' || c == '\U{205F}'
    || c == '\U{3000}' || c == '\U{FEFF}'
  }

  /** Every character of `s` is whitespace (the empty string included). */
  predicate IsBlank(s: string) {
    forall i :: 0 <= i < |s| ==> IsWhitespace(s[i])
  }

  /** `s` with its leading whitespace removed. */
  function TrimStart(s: string): (r: string)
    ensures |r| <= |s| && r == s[|s| - |r|..]
    ensures forall i :: 0 <= i < |s| - |r| ==> IsWhitespace(s[i])
    ensures r != [] ==> !IsWhitespace(r[0])
  {
    if s != [] && IsWhitespace(s[0]) then TrimStart(s[1..]) else s
  }

  /** `s` with its trailing whitespace removed. */
  function TrimEnd(s: string): (r: string)
    ensures |r| <= |s| && r == s[..|r|]
    ensures forall i :: |r| <= i < |s| ==> IsWhitespace(s[i])
    ensures r != [] ==> !IsWhitespace(r[|r| - 1])
  {
    if s != [] && IsWhitespace(s[|s| - 1]) then TrimEnd(s[..|s| - 1]) else s
  }

  /** `s.trim()`: whitespace removed from both ends, so a non-empty result
      starts and ends with a character that is not whitespace. */
  function Trim(s: string): (r: string)
    ensures |r| <= |s|
    ensures r != [] ==> !IsWhitespace(r[0]) && !IsWhitespace(r[|r| - 1])
  {
    TrimEnd(TrimStart(s))
  }

  /** `s.trim() === ''` holds exactly when `s` consists of whitespace only. */
  lemma TrimEmptyIffBlank(s: string)
    ensures Trim(s) == [] <==> IsBlank(s)
  {
    var t := TrimStart(s);
    if Trim(s) == [] {
      assert t == [];
    } else {
      assert t != [];
      assert t[0] == s[|s| - |t|];
    }
  }

  /** No character of `s` is `c`. */
  predicate Lacks(s: string, c: char) {
    forall i :: 0 <= i < |s| ==> s[i] != c
  }

  /** `s.split(sep)`: the pieces of `s` between occurrences of `sep`, from
      left to right. There is always at least one piece: `"".split(sep)` is
      `[""]`, and a separator at either end yields an empty piece there. */
  function Split(s: string, sep: char): (pieces: seq<string>)
    ensures |pieces| >= 1
    ensures forall k :: 0 <= k < |pieces| ==> Lacks(pieces[k], sep)
  {
    if s == [] then [[]]
    else
      var rest := Split(s[1..], sep);
      if s[0] == sep then [[]] + rest else [[s[0]] + rest[0]] + rest[1..]
  }

  /** `pieces.join(sep)`. */
  function Join(pieces: seq<string>, sep: char): string {
    if pieces == [] then []
    else if |pieces| == 1 then pieces[0]
    else pieces[0] + [sep] + Join(pieces[1..], sep)
  }

  /** Splitting loses nothing: joining the pieces again gives back `s`. */
  lemma {:induction false} JoinSplit(s: string, sep: char)
    ensures Join(Split(s, sep), sep) == s
  {
    if s != [] {
      JoinSplit(s[1..], sep);
      var rest := Split(s[1..], sep);
      if s[0] == sep {
        assert s == [sep] + s[1..];
      } else if |rest| == 1 {
        assert s == [s[0]] + s[1..];
      } else {
        assert Join(rest, sep) == rest[0] + [sep] + Join(rest[1..], sep);
        assert s == [s[0]] + s[1..];
      }
    }
  }

  /** A separator splits the text around it: the pieces of `x + [sep] + y`
      are the pieces of `x` followed by the pieces of `y`. */
  lemma {:induction false} SplitAround(x: string, sep: char, y: string)
    ensures Split(x + [sep] + y, sep) == Split(x, sep) + Split(y, sep)
  {
    var s := x + [sep] + y;
    if x == [] {
      assert s[1..] == y;
    } else {
      assert s[1..] == x[1..] + [sep] + y;
      SplitAround(x[1..], sep, y);
    }
  }

  /** Splitting undoes joining, for pieces that hold no separator. */
  lemma {:induction false} SplitJoin(pieces: seq<string>, sep: char)
    requires |pieces| >= 1
    requires forall k :: 0 <= k < |pieces| ==> Lacks(pieces[k], sep)
    ensures Split(Join(pieces, sep), sep) == pieces
  {
    if |pieces| == 1 {
      SplitNoSeparator(pieces[0], sep);
    } else {
      SplitAround(pieces[0], sep, Join(pieces[1..], sep));
      SplitNoSeparator(pieces[0], sep);
      SplitJoin(pieces[1..], sep);
      assert pieces == [pieces[0]] + pieces[1..];
    }
  }

  /** Appending `y` to `x` re-splits only the last piece of `x`. */
  lemma SplitAppend(x: string, y: string, sep: char)
    ensures var p := Split(x, sep);
      Split(x + y, sep) == p[..|p| - 1] + Split(p[|p| - 1] + y, sep)
  {
    var p := Split(x, sep);
    SplitAtLast(x, sep);
    var b := LastIndexOf(x, sep);
    if b == -1 {
      assert p[..|p| - 1] == [] && p[|p| - 1] == x;
    } else {
      var before := x[..b];
      var after := x[b + 1..];
      var init := Split(before, sep);
      assert p == init + [after];
      assert p[..|p| - 1] == init && p[|p| - 1] == after;
      assert x + y == before + [sep] + (after + y);
      SplitAround(before, sep, after + y);
    }
  }

  /** A string without the separator is a single piece. */
  lemma {:induction false} SplitNoSeparator(s: string, sep: char)
    requires Lacks(s, sep)
    ensures Split(s, sep) == [s]
  {
    if s != [] {
      assert Lacks(s[1..], sep) by {
        forall k | 0 <= k < |s[1..]| ensures s[1..][k] != sep {
          assert s[1..][k] == s[k + 1];
        }
      }
      SplitNoSeparator(s[1..], sep);
      assert s == [s[0]] + s[1..];
    }
  }

  /** `s.lastIndexOf(c)`: the position of the last `c`, or -1 when there is none. */
  function LastIndexOf(s: string, c: char): (r: int)
    ensures -1 <= r < |s|
    ensures r >= 0 ==> s[r] == c
    ensures forall i :: r < i < |s| ==> s[i] != c
  {
    LastIndexBelow(s, c, |s|)
  }

  /** The position of the last `c` among the first `n` characters of `s`,
      or -1; the backwards scan behind `lastIndexOf`. */
  function LastIndexBelow(s: string, c: char, n: nat): (r: int)
    requires n <= |s|
    ensures -1 <= r < n
    ensures r >= 0 ==> s[r] == c
    ensures forall i :: r < i < n ==> s[i] != c
  {
    if n == 0 then -1
    else if s[n - 1] == c then n - 1
    else LastIndexBelow(s, c, n - 1)
  }

  /** Cutting at the last separator: the pieces of the text before it, then
      the text after it as the last piece; without a separator the text is
      one piece. */
  lemma SplitAtLast(s: string, sep: char)
    ensures LastIndexOf(s, sep) == -1 ==> Split(s, sep) == [s]
    ensures LastIndexOf(s, sep) >= 0 ==>
      var b := LastIndexOf(s, sep);
      Split(s, sep) == Split(s[..b], sep) + [s[b + 1..]]
  {
    var b := LastIndexOf(s, sep);
    if b == -1 {
      SplitNoSeparator(s, sep);
    } else {
      var after := s[b + 1..];
      assert Lacks(after, sep) by {
        forall i | 0 <= i < |after| ensures after[i] != sep {
          assert after[i] == s[b + 1 + i];
        }
      }
      assert s == s[..b] + [sep] + after;
      SplitAround(s[..b], sep, after);
      SplitNoSeparator(after, sep);
    }
  }
}
