/** The string operations of the JVM and of Python that the core relies on,
    over `string` (a sequence of Unicode characters). Only the
    ASCII part of case mapping and of whitespace is modelled. */
module Text {

  /** A character that `String.trim()` removes: anything up to U+0020. */
  predicate IsTrimmable(c: char) { c <= ' ' }

  /** ASCII whitespace as `Character.isWhitespace` (Java's `isBlank`) and
      `str.isspace` (Python's `split()`) see it: space, tab, LF, VT, FF, CR
      and the four separators U+001C..U+001F. */
  predicate IsWhitespace(c: char)
  {
    c == ' ' || '\t' <= c <= '\r' || '\U{1C}' <= c <= '\U{1F}'
  }

  /** `String.trim()` on the left end. */
  function TrimStart(s: string): (r: string)
    ensures |r| <= |s|
  {
    if |s| > 0 && IsTrimmable(s[0]) then TrimStart(s[1..]) else s
  }

  /** `String.trim()` on the right end. */
  function TrimEnd(s: string): (r: string)
    ensures |r| <= |s|
  {
    if |s| > 0 && IsTrimmable(s[|s| - 1]) then TrimEnd(s[..|s| - 1]) else s
  }

  /** `String.trim()`. Its characterisation is `TrimSpec`, kept out of the
      function's own contract because every use of `trim()` would pay for
      it. */
  function Trim(s: string): (r: string)
    ensures |r| <= |s|
  {
    TrimEnd(TrimStart(s))
  }

  lemma {:induction false} TrimStartSpec(s: string)
    ensures TrimStart(s) == s[|s| - |TrimStart(s)|..]
    ensures TrimStart(s) == [] || !IsTrimmable(TrimStart(s)[0])
    ensures forall i :: 0 <= i < |s| - |TrimStart(s)| ==> IsTrimmable(s[i])
  {
    if |s| > 0 && IsTrimmable(s[0]) {
      TrimStartSpec(s[1..]);
    }
  }

  lemma {:induction false} TrimEndSpec(s: string)
    ensures TrimEnd(s) == s[..|TrimEnd(s)|]
    ensures TrimEnd(s) == [] || !IsTrimmable(TrimEnd(s)[|TrimEnd(s)| - 1])
    ensures forall i :: |TrimEnd(s)| <= i < |s| ==> IsTrimmable(s[i])
  {
    if |s| > 0 && IsTrimmable(s[|s| - 1]) {
      TrimEndSpec(s[..|s| - 1]);
    }
  }

  /** `trim()` leaves the middle part that neither starts nor ends with a
      trimmable character, and leaves nothing exactly when every character
      is trimmable. */
  lemma TrimSpec(s: string)
    ensures Trim(s) == [] || (!IsTrimmable(Trim(s)[0]) && !IsTrimmable(Trim(s)[|Trim(s)| - 1]))
    ensures Trim(s) == [] <==> forall i :: 0 <= i < |s| ==> IsTrimmable(s[i])
  {
    var t := TrimStart(s);
    var r := TrimEnd(t);
    TrimStartSpec(s);
    TrimEndSpec(t);
    if r != [] {
      assert s[|s| - |t|] == r[0];
    }
  }

  /** A string that `trim()` leaves alone. */
  predicate Untrimmed(s: string)
  {
    s == [] || (!IsTrimmable(s[0]) && !IsTrimmable(s[|s| - 1]))
  }

  lemma TrimOfUntrimmed(s: string)
    requires Untrimmed(s)
    ensures Trim(s) == s
  {
  }

  /** Joining pieces that `trim()` leaves alone, with a delimiter that
      `trim()` keeps, gives a string that `trim()` leaves alone. */
  lemma {:induction false} JoinUntrimmed(parts: seq<string>, d: char)
    requires !IsTrimmable(d)
    requires forall i :: 0 <= i < |parts| ==> Untrimmed(parts[i])
    ensures Untrimmed(Join(parts, d))
  {
    if |parts| > 1 {
      JoinUntrimmed(parts[1..], d);
      var rest := Join(parts[1..], d);
      var j := parts[0] + [d] + rest;
      assert j[|j| - 1] == if rest == [] then d else rest[|rest| - 1];
      assert j[0] == if parts[0] == [] then d else parts[0][0];
    }
  }

  /** `String.isBlank()`. */
  predicate IsBlank(s: string)
  {
    forall i :: 0 <= i < |s| ==> IsWhitespace(s[i])
  }

  /** `s.trim().isEmpty()`, the blank test the services use. */
  predicate TrimsToEmpty(s: string)
  {
    Trim(s) == []
  }

  /** A string with a visible character somewhere does not trim to
      nothing. */
  lemma NotTrimsToEmpty(s: string, i: nat)
    requires i < |s| && !IsTrimmable(s[i])
    ensures !TrimsToEmpty(s)
  {
    TrimSpec(s);
  }

  /** `String.split(regex-for-d, -1)`: cut at every occurrence of `d`,
      keeping empty pieces, including a trailing one. */
  function Split(s: string, d: char): (parts: seq<string>)
    ensures |parts| >= 1
    ensures forall i :: 0 <= i < |parts| ==> d !in parts[i]
    ensures Join(parts, d) == s
    decreases |s|
  {
    if s == [] then [""]
    else
      var rest := Split(s[1..], d);
      if s[0] == d then
        assert Join([""] + rest, d) == [d] + Join(rest, d);
        [""] + rest
      else
        var parts := [[s[0]] + rest[0]] + rest[1..];
        assert Join(parts, d) == [s[0]] + Join(rest, d) by {
          if |rest| > 1 {
            assert parts[1..] == rest[1..];
          }
        }
        parts
  }

  /** `String.join(d, parts)`. */
  function Join(parts: seq<string>, d: char): string
  {
    if |parts| == 0 then ""
    else if |parts| == 1 then parts[0]
    else parts[0] + [d] + Join(parts[1..], d)
  }

  lemma {:induction false} SplitWithoutDelimiter(p: string, d: char)
    requires d !in p
    ensures Split(p, d) == [p]
    decreases |p|
  {
    if p != [] {
      SplitWithoutDelimiter(p[1..], d);
      assert [p[0]] + p[1..] == p;
    }
  }

  lemma {:induction false} SplitAfterPiece(p: string, t: string, d: char)
    requires d !in p
    ensures Split(p + [d] + t, d) == [p] + Split(t, d)
    decreases |p|
  {
    var s := p + [d] + t;
    if p == [] {
      assert s[1..] == t;
    } else {
      assert s[1..] == p[1..] + [d] + t;
      SplitAfterPiece(p[1..], t, d);
      assert [p[0]] + p[1..] == p;
    }
  }

  /** Splitting undoes joining when no piece holds the delimiter. */
  lemma {:induction false} SplitJoin(parts: seq<string>, d: char)
    requires |parts| >= 1
    requires forall i :: 0 <= i < |parts| ==> d !in parts[i]
    ensures Split(Join(parts, d), d) == parts
  {
    if |parts| == 1 {
      SplitWithoutDelimiter(parts[0], d);
    } else {
      SplitJoin(parts[1..], d);
      SplitAfterPiece(parts[0], Join(parts[1..], d), d);
      assert [parts[0]] + parts[1..] == parts;
    }
  }

  /** `String.replace(c, r)` where the target is one character long. */
  function ReplaceChar(s: string, c: char, r: string): (out: string)
    ensures c !in s ==> out == s
    ensures c !in r ==> c !in out
  {
    if s == [] then []
    else (if s[0] == c then r else [s[0]]) + ReplaceChar(s[1..], c, r)
  }

  /** `replace` brings in no character that is neither in the string nor in
      the replacement. */
  lemma {:induction false} ReplaceCharKeepsOut(s: string, c: char, r: string, x: char)
    requires x !in s && x !in r
    ensures x !in ReplaceChar(s, c, r)
  {
    if s != [] {
      ReplaceCharKeepsOut(s[1..], c, r, x);
    }
  }

  lemma {:induction false} ReplaceCharConcat(a: string, b: string, c: char, r: string)
    ensures ReplaceChar(a + b, c, r) == ReplaceChar(a, c, r) + ReplaceChar(b, c, r)
  {
    if a == [] {
      assert a + b == b;
    } else {
      var ab := a + b;
      assert ab[0] == a[0] && ab[1..] == a[1..] + b;
      ReplaceCharConcat(a[1..], b, c, r);
      ReplaceCharStep(ab, a[1..] + b, a[0], c, r);
      ReplaceCharStep(a, a[1..], a[0], c, r);
      AppendAssoc(if a[0] == c then r else [a[0]], ReplaceChar(a[1..], c, r), ReplaceChar(b, c, r));
    }
  }

  lemma ReplaceCharStep(s: string, tail: string, x: char, c: char, r: string)
    requires s != [] && s[0] == x && s[1..] == tail
    ensures ReplaceChar(s, c, r) == (if x == c then r else [x]) + ReplaceChar(tail, c, r)
  {
  }

  lemma AppendAssoc<T>(h: seq<T>, x: seq<T>, y: seq<T>)
    ensures h + (x + y) == (h + x) + y
  {
  }

  /** `String.replace(ab, c)` where the target is the two characters `a b`
      and the replacement the one character `c`; matches are found left to
      right without overlap. */
  function ReplacePair(s: string, a: char, b: char, c: char): (out: string)
    ensures a !in s || b !in s ==> out == s
    decreases |s|
  {
    if |s| >= 2 && s[0] == a && s[1] == b then [c] + ReplacePair(s[2..], a, b, c)
    else if s == [] then []
    else [s[0]] + ReplacePair(s[1..], a, b, c)
  }

  /** Where `a` is never followed by `b`, there is nothing to replace. */
  lemma {:induction false} ReplacePairAbsent(s: string, a: char, b: char, c: char)
    requires forall i :: 0 <= i < |s| - 1 ==> s[i] != a || s[i + 1] != b
    ensures ReplacePair(s, a, b, c) == s
  {
    if s != [] {
      forall i | 0 <= i < |s[1..]| - 1
        ensures s[1..][i] != a || s[1..][i + 1] != b
      {
        assert s[1..][i] == s[i + 1] && s[1..][i + 1] == s[i + 2];
      }
      ReplacePairAbsent(s[1..], a, b, c);
      assert !(|s| >= 2 && s[0] == a && s[1] == b);
      assert s == [s[0]] + s[1..];
    }
  }

  function LowerChar(c: char): char
  {
    if 'A' <= c <= 'Z' then (c as int + 32) as char else c
  }

  function UpperChar(c: char): char
  {
    if 'a' <= c <= 'z' then (c as int - 32) as char else c
  }

  /** `String.toLowerCase()` (ASCII letters only). */
  function ToLower(s: string): (r: string)
    ensures |r| == |s|
  {
    if s == [] then [] else [LowerChar(s[0])] + ToLower(s[1..])
  }

  /** `String.toUpperCase()` (ASCII letters only). */
  function ToUpper(s: string): (r: string)
    ensures |r| == |s|
  {
    if s == [] then [] else [UpperChar(s[0])] + ToUpper(s[1..])
  }

  /** A Java enum constant's name: upper-case ASCII letters and `_`. */
  predicate UpperName(s: string)
  {
    forall i :: 0 <= i < |s| ==> ('A' <= s[i] <= 'Z') || s[i] == '_'
  }

  /** Upper-casing leaves such a name as it is, and so does upper-casing
      its lower-case spelling: `valueOf(s.toUpperCase())` accepts the name
      in either case. */
  lemma {:induction false} UpperNameCase(s: string)
    requires UpperName(s)
    ensures ToUpper(s) == s
    ensures ToUpper(ToLower(s)) == s
  {
    if s != [] {
      var c := s[0];
      UpperNameCase(s[1..]);
      assert UpperChar(c) == c;
      assert UpperChar(LowerChar(c)) == c;
      var low := ToLower(s);
      assert low == [LowerChar(c)] + ToLower(s[1..]);
      assert low[1..] == ToLower(s[1..]);
      assert ToUpper(low) == [UpperChar(LowerChar(c))] + ToUpper(ToLower(s[1..]));
    }
  }

  /** `a.toLowerCase().equals(b.toLowerCase())`, compared character by
      character. */
  predicate SameLower(a: string, b: string)
  {
    |a| == |b| && (a == [] || (LowerChar(a[0]) == LowerChar(b[0]) && SameLower(a[1..], b[1..])))
  }

  lemma {:induction false} SameLowerIff(a: string, b: string)
    ensures SameLower(a, b) <==> ToLower(a) == ToLower(b)
  {
    if |a| == |b| && a != [] {
      SameLowerIff(a[1..], b[1..]);
      assert ToLower(a) == [LowerChar(a[0])] + ToLower(a[1..]);
      assert ToLower(b) == [LowerChar(b[0])] + ToLower(b[1..]);
      if ToLower(a) == ToLower(b) {
        assert ToLower(a)[0] == ToLower(b)[0];
        assert ToLower(a)[1..] == ToLower(b)[1..];
      }
    }
  }

  /** `String.equalsIgnoreCase` (ASCII letters only). */
  predicate EqualsIgnoreCase(a: string, b: string)
  {
    ToLower(a) == ToLower(b)
  }

  /** Drops leading whitespace (as Python's `split()` does). */
  function SkipWhitespace(s: string): (r: string)
    ensures |r| <= |s| && r == s[|s| - |r|..]
    ensures r == [] || !IsWhitespace(r[0])
    ensures forall i :: 0 <= i < |s| - |r| ==> IsWhitespace(s[i])
  {
    if |s| > 0 && IsWhitespace(s[0]) then SkipWhitespace(s[1..]) else s
  }

  /** The longest prefix without whitespace. */
  function TakeWord(s: string): (w: string)
    ensures |w| <= |s| && w == s[..|w|]
    ensures forall i :: 0 <= i < |w| ==> !IsWhitespace(w[i])
    ensures |w| == |s| || IsWhitespace(s[|w|])
  {
    if |s| > 0 && !IsWhitespace(s[0]) then [s[0]] + TakeWord(s[1..]) else []
  }
}
