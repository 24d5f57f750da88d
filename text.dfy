/** The handful of Python `str` operations the application relies on, stated
    over Dafny strings: the whitespace class of `str.isspace`, `strip()`,
    `split()` with no separator, `" ".join`, `replace(t, "")`, `split(sep)`,
    `lstrip(c)`, `startswith` and the `in` substring test. */
module Text {

  /** The characters Python's `str.isspace()` accepts; `split()` and `strip()`
      without arguments break and trim on exactly these. */
  predicate IsSpace(c: char) {
    || c == ' '
    || '\t' <= c <= '\r'
    || '\U{1c}' <= c <= '\U{1f}'
    || c == '\U{85}' || c == '\U{a0}' || c == '\U{1680}'
    || '\U{2000}' <= c <= '\U{200a}'
    || c == '\U{2028}' || c == '\U{2029}' || c == '\U{202f}' || c == '\U{205f}'
    || c == '\U{3000}'
  }

  predicate NoSpace(s: string) {
    forall i :: 0 <= i < |s| ==> !IsSpace(s[i])
  }

  predicate AllSpace(s: string) {
    forall i :: 0 <= i < |s| ==> IsSpace(s[i])
  }

  predicate StartsWith(s: string, prefix: string) {
    |prefix| <= |s| && s[..|prefix|] == prefix
  }

  /** Python's `t in s` for strings. */
  predicate Contains(s: string, t: string)
    decreases |s|
  {
    StartsWith(s, t) || (s != [] && Contains(s[1..], t))
  }

  /** An occurrence of `t` at position `i` of `s` makes `t in s` true. */
  lemma {:induction false} ContainsAt(s: string, t: string, i: nat)
    requires i + |t| <= |s| && s[i..i + |t|] == t
    ensures Contains(s, t)
  {
    if i > 0 {
      assert s[1..][i - 1..i - 1 + |t|] == t;
      ContainsAt(s[1..], t, i - 1);
    }
  }

  /** A non-empty `t` whose first character never occurs in `s` is not in `s`. */
  lemma {:induction false} NotContainsFirstChar(s: string, t: string)
    requires t != [] && t[0] !in s
    ensures !Contains(s, t)
    decreases |s|
  {
    if s != [] {
      assert s[0] != t[0];
      NotContainsFirstChar(s[1..], t);
    }
  }

  /** `s.lstrip(c)`: every leading copy of `c` removed. */
  function TrimStartChar(s: string, c: char): (r: string)
    ensures |r| <= |s| && r == s[|s| - |r|..]
    ensures r == [] || r[0] != c
    ensures forall i :: 0 <= i < |s| - |r| ==> s[i] == c
  {
    if s != [] && s[0] == c then TrimStartChar(s[1..], c) else s
  }

  /** `s.lstrip()`: leading whitespace removed. */
  function TrimStart(s: string): (r: string)
    ensures |r| <= |s| && r == s[|s| - |r|..]
    ensures r == [] || !IsSpace(r[0])
    ensures forall i :: 0 <= i < |s| - |r| ==> IsSpace(s[i])
  {
    if s != [] && IsSpace(s[0]) then TrimStart(s[1..]) else s
  }

  /** `s.rstrip()`: trailing whitespace removed. */
  function TrimEnd(s: string): (r: string)
    ensures |r| <= |s| && r == s[..|r|]
    ensures r == [] || !IsSpace(r[|r| - 1])
    ensures forall i :: |r| <= i < |s| ==> IsSpace(s[i])
  {
    if s != [] && IsSpace(s[|s| - 1]) then TrimEnd(s[..|s| - 1]) else s
  }

  /** `s.strip()`. */
  function Strip(s: string): (r: string)
    ensures r == [] || (!IsSpace(r[0]) && !IsSpace(r[|r| - 1]))
    ensures |r| <= |s|
  {
    TrimEnd(TrimStart(s))
  }

  /** `strip()` removes whitespace at the two ends and nothing else: the
      result is the slice of `s` starting at `a`, and every character of `s`
      outside that slice is whitespace. */
  lemma StripSlice(s: string) returns (a: nat)
    ensures a + |Strip(s)| <= |s| && Strip(s) == s[a..a + |Strip(s)|]
    ensures forall i :: 0 <= i < a ==> IsSpace(s[i])
    ensures forall i :: a + |Strip(s)| <= i < |s| ==> IsSpace(s[i])
  {
    var t := TrimStart(s);
    a := |s| - |t|;
    assert t == s[a..];
    assert Strip(s) == TrimEnd(s[a..]);
    TrimEndOfSuffix(s, a);
  }

  /** What `rstrip()` removes from a suffix of `s` is whitespace of `s`. */
  lemma TrimEndOfSuffix(s: string, a: nat)
    requires a <= |s|
    ensures a + |TrimEnd(s[a..])| <= |s| && TrimEnd(s[a..]) == s[a..a + |TrimEnd(s[a..])|]
    ensures forall i :: a + |TrimEnd(s[a..])| <= i < |s| ==> IsSpace(s[i])
  {
    var t := s[a..];
    var r := TrimEnd(t);
    assert r == t[..|r|];
    forall i | a + |r| <= i < |s| ensures IsSpace(s[i]) {
      assert s[i] == t[i - a];
    }
  }

  /** Stripping a string that does not start with whitespace keeps a prefix of
      it, and keeps all of it up to its last non-space character. */
  lemma StripKeepsPrefix(s: string, k: nat)
    requires s != [] && !IsSpace(s[0])
    requires k < |s| && !IsSpace(s[k])
    ensures k < |Strip(s)| && Strip(s) == s[..|Strip(s)|]
  {
    assert TrimStart(s) == s;
  }

  /** A string that is already stripped is its own strip. */
  lemma StripStripped(s: string)
    requires s == [] || (!IsSpace(s[0]) && !IsSpace(s[|s| - 1]))
    ensures Strip(s) == s
  {
  }

  /** `s.replace(t, "")`: Python scans left to right and removes
      non-overlapping occurrences of `t`. */
  function RemoveAll(s: string, t: string): (r: string)
    requires t != []
    ensures |r| <= |s|
    ensures !Contains(s, t) ==> r == s
    decreases |s|
  {
    if |s| < |t| then s
    else if s[..|t|] == t then RemoveAll(s[|t|..], t)
    else [s[0]] + RemoveAll(s[1..], t)
  }

  /** The longest prefix of `s` free of whitespace. */
  function LeadingWord(s: string): (w: string)
    ensures |w| <= |s| && w == s[..|w|]
    ensures NoSpace(w)
    ensures |w| == |s| || IsSpace(s[|w|])
  {
    if s == [] || IsSpace(s[0]) then [] else [s[0]] + LeadingWord(s[1..])
  }

  /** `s.split()`: the maximal runs of non-whitespace, in order. */
  function SplitWords(s: string): (words: seq<string>)
    ensures forall i :: 0 <= i < |words| ==> words[i] != [] && NoSpace(words[i])
    decreases |s|
  {
    if s == [] then []
    else if IsSpace(s[0]) then SplitWords(s[1..])
    else
      var w := LeadingWord(s);
      [w] + SplitWords(s[|w|..])
  }

  /** The leading word of `a + x` is that of `a` when it ends inside `a`, or
      when `x` starts with whitespace. */
  lemma {:induction false} LeadingWordAppend(a: string, x: string)
    requires |LeadingWord(a)| < |a| || (x != [] && IsSpace(x[0]))
    ensures LeadingWord(a + x) == LeadingWord(a)
    decreases |a|
  {
    if a == [] {
      assert a + x == x;
    } else if !IsSpace(a[0]) {
      assert (a + x)[1..] == a[1..] + x;
      LeadingWordAppend(a[1..], x);
    }
  }

  /** `split()` finds no word exactly in all-whitespace text. */
  lemma {:induction false} SplitWordsEmpty(s: string)
    ensures SplitWords(s) == [] <==> AllSpace(s)
    decreases |s|
  {
    if s != [] && IsSpace(s[0]) {
      SplitWordsEmpty(s[1..]);
      assert AllSpace(s) <==> AllSpace(s[1..]) by {
        if AllSpace(s[1..]) {
          forall i | 0 < i < |s| ensures IsSpace(s[i]) {
            assert s[i] == s[1..][i - 1];
          }
        }
      }
    }
  }

  /** A non-empty run of non-whitespace is one word. */
  lemma SplitWordsWord(w: string)
    requires w != [] && NoSpace(w)
    ensures SplitWords(w) == [w]
  {
    assert LeadingWord(w) == w;
    assert w[|w|..] == [];
  }

  /** `split()` breaks at every whitespace character: what lies before it and
      what lies after it are split separately. With `SplitWordsEmpty` and
      `SplitWordsWord` this fixes `split()` on every string: its words are
      the maximal runs of non-whitespace, in order. */
  lemma SplitWordsAtSpace(a: string, c: char, b: string)
    requires IsSpace(c)
    ensures SplitWords(a + [c] + b) == SplitWords(a) + SplitWords(b)
  {
    var x := [c] + b;
    assert a + [c] + b == a + x;
    SplitWordsBeforeSpace(a, x);
    assert x[0] == c && x[1..] == b;
  }

  lemma {:induction false} SplitWordsBeforeSpace(a: string, x: string)
    requires x != [] && IsSpace(x[0])
    ensures SplitWords(a + x) == SplitWords(a) + SplitWords(x)
    decreases |a|
  {
    if a == [] {
      assert a + x == x;
    } else if IsSpace(a[0]) {
      assert (a + x)[0] == a[0] && (a + x)[1..] == a[1..] + x;
      SplitWordsBeforeSpace(a[1..], x);
    } else {
      var w := LeadingWord(a);
      assert (a + x)[0] == a[0] && w != [];
      LeadingWordAppend(a, x);
      assert (a + x)[|w|..] == a[|w|..] + x;
      SplitWordsBeforeSpace(a[|w|..], x);
    }
  }

  /** The characters of `s` that are not whitespace, in order. */
  function NonSpaceChars(s: string): (r: string)
    ensures NoSpace(r) && |r| <= |s|
  {
    if s == [] then []
    else (if IsSpace(s[0]) then [] else [s[0]]) + NonSpaceChars(s[1..])
  }

  lemma {:induction false} NonSpaceCharsAppend(a: string, b: string)
    ensures NonSpaceChars(a + b) == NonSpaceChars(a) + NonSpaceChars(b)
    decreases |a|
  {
    if a != [] {
      var head := if IsSpace(a[0]) then [] else [a[0]];
      assert (a + b)[0] == a[0] && (a + b)[1..] == a[1..] + b;
      assert NonSpaceChars(a + b) == head + NonSpaceChars(a[1..] + b);
      assert NonSpaceChars(a) == head + NonSpaceChars(a[1..]);
      NonSpaceCharsAppend(a[1..], b);
    } else {
      assert a + b == b;
    }
  }

  lemma {:induction false} NonSpaceCharsOfWord(w: string)
    requires NoSpace(w)
    ensures NonSpaceChars(w) == w
    decreases |w|
  {
    if w != [] {
      NonSpaceCharsOfWord(w[1..]);
    }
  }

  /** `"".join(words)`. */
  function Concat(words: seq<string>): string {
    if words == [] then "" else words[0] + Concat(words[1..])
  }

  /** The words of `split()`, run together, are the non-whitespace
      characters of the string: nothing but whitespace is dropped. */
  lemma {:induction false} SplitWordsKeepsNonSpace(s: string)
    ensures Concat(SplitWords(s)) == NonSpaceChars(s)
    decreases |s|
  {
    if s != [] {
      if IsSpace(s[0]) {
        SplitWordsKeepsNonSpace(s[1..]);
      } else {
        var w := LeadingWord(s);
        var rest := s[|w|..];
        SplitWordsKeepsNonSpace(rest);
        assert s == w + rest;
        NonSpaceCharsAppend(w, rest);
        NonSpaceCharsOfWord(w);
      }
    }
  }

  /** `" ".join(words)`. */
  function JoinWords(words: seq<string>): string {
    if words == [] then ""
    else if |words| == 1 then words[0]
    else words[0] + " " + JoinWords(words[1..])
  }

  /** A string in the shape `" ".join(s.split())` produces: the only
      whitespace is a single ' ' with a non-space character on each side. */
  predicate SingleSpaced(s: string) {
    forall i :: 0 <= i < |s| && IsSpace(s[i]) ==>
      s[i] == ' ' && 0 < i < |s| - 1 && !IsSpace(s[i + 1])
  }

  lemma {:induction false} JoinWordsStart(words: seq<string>)
    requires words != [] && words[0] != []
    ensures JoinWords(words) != [] && JoinWords(words)[0] == words[0][0]
  {
  }

  /** Joining non-empty, space-free words with single spaces gives a
      single-spaced string. */
  lemma {:induction false} JoinWordsSingleSpaced(words: seq<string>)
    requires forall i :: 0 <= i < |words| ==> words[i] != [] && NoSpace(words[i])
    ensures SingleSpaced(JoinWords(words))
    ensures words != [] ==> JoinWords(words) != [] && !IsSpace(JoinWords(words)[0])
  {
    if |words| == 1 {
    } else if |words| > 1 {
      var w, rest := words[0], JoinWords(words[1..]);
      JoinWordsSingleSpaced(words[1..]);
      JoinWordsStart(words[1..]);
      var s := JoinWords(words);
      assert s == w + " " + rest;
      forall i | 0 <= i < |w| ensures !IsSpace(s[i]) {
        assert s[i] == w[i];
      }
      forall i | 0 <= i < |s| && IsSpace(s[i])
        ensures s[i] == ' ' && 0 < i < |s| - 1 && !IsSpace(s[i + 1])
      {
        if i > |w| {
          assert s[i] == rest[i - |w| - 1];
          assert i + 1 < |s| ==> s[i + 1] == rest[i - |w|];
        }
      }
    }
  }

  /** Splitting the single-spaced join of words gives the words back. */
  lemma {:induction false} SplitJoinWords(words: seq<string>)
    requires forall i :: 0 <= i < |words| ==> words[i] != [] && NoSpace(words[i])
    ensures SplitWords(JoinWords(words)) == words
  {
    if |words| == 1 {
      SplitWordsWord(words[0]);
    } else if |words| > 1 {
      SplitJoinWords(words[1..]);
      SplitWordsWord(words[0]);
      SplitWordsAtSpace(words[0], ' ', JoinWords(words[1..]));
      assert words[0] + " " + JoinWords(words[1..]) == words[0] + [' '] + JoinWords(words[1..]);
      assert words == [words[0]] + words[1..];
    }
  }

  /** `" ".join(s.split())` leaves a single-spaced string as it is. */
  lemma {:induction false} JoinSplitSingleSpaced(s: string)
    requires SingleSpaced(s)
    ensures JoinWords(SplitWords(s)) == s
    decreases |s|
  {
    if s != [] {
      var w := LeadingWord(s);
      if |w| < |s| {
        var rest := s[|w| + 1..];
        assert s[|w|] == ' ';
        assert rest != [] && !IsSpace(rest[0]);
        forall i | 0 <= i < |rest| && IsSpace(rest[i])
          ensures rest[i] == ' ' && 0 < i < |rest| - 1 && !IsSpace(rest[i + 1])
        {
          assert rest[i] == s[|w| + 1 + i];
        }
        JoinSplitSingleSpaced(rest);
        assert s[|w|..][1..] == rest;
        assert SplitWords(s[|w|..]) == SplitWords(rest);
        assert SplitWords(rest) != [];
        assert SplitWords(s) == [w] + SplitWords(rest);
        assert s == w + " " + rest;
      } else {
        assert s[|w|..] == [];
        assert SplitWords(s) == [w];
      }
    }
  }

  /** `s.split(sep)`: never empty; the pieces between separators. */
  function SplitOn(s: string, sep: char): (parts: seq<string>)
    ensures |parts| >= 1
    ensures forall i :: 0 <= i < |parts| ==> sep !in parts[i]
  {
    if s == [] then [""]
    else
      var rest := SplitOn(s[1..], sep);
      if s[0] == sep then [""] + rest
      else [[s[0]] + rest[0]] + rest[1..]
  }

  /** `sep.join(parts)`. */
  function JoinOn(parts: seq<string>, sep: char): string
    requires |parts| >= 1
  {
    if |parts| == 1 then parts[0] else parts[0] + [sep] + JoinOn(parts[1..], sep)
  }

  /** Splitting and rejoining on the same separator gives the string back. */
  lemma {:induction false} JoinSplitOn(s: string, sep: char)
    ensures JoinOn(SplitOn(s, sep), sep) == s
  {
    if s != [] {
      JoinSplitOn(s[1..], sep);
      var rest := SplitOn(s[1..], sep);
      if s[0] != sep && |rest| > 1 {
        assert ([[s[0]] + rest[0]] + rest[1..])[1..] == rest[1..];
      }
    }
  }

  /** Joining separator-free pieces and splitting again gives the pieces back. */
  lemma {:induction false} SplitJoinOn(parts: seq<string>, sep: char)
    requires |parts| >= 1
    requires forall i :: 0 <= i < |parts| ==> sep !in parts[i]
    ensures SplitOn(JoinOn(parts, sep), sep) == parts
    decreases |parts|, |parts[0]|
  {
    var p := parts[0];
    if p != [] {
      var tail := [p[1..]] + parts[1..];
      SplitJoinOn(tail, sep);
      assert JoinOn(parts, sep)[1..] == JoinOn(tail, sep) by {
        if |parts| > 1 {
          assert tail[1..] == parts[1..];
        }
      }
      assert [p[0]] + p[1..] == p;
    } else if |parts| > 1 {
      SplitJoinOn(parts[1..], sep);
      assert JoinOn(parts, sep) == [sep] + JoinOn(parts[1..], sep);
      assert JoinOn(parts, sep)[1..] == JoinOn(parts[1..], sep);
    }
  }
}
