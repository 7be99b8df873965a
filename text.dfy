/** Strings and the handful of Python string operations the pipeline relies on:
    substring tests, `str.strip`, `' '.join`, `str.split(' ')` and `str.lower`. */
module Text {

  datatype Option<T> = None | Some(value: T)

  /** The Unicode character classes the source gets from Python, left abstract:
      `isSpace` stands for `str.isspace` and the regex class `\s`,
      `isDigit` for `str.isdigit`, `isWord` for the regex class `\w`. */
  datatype CharClasses = CharClasses(isSpace: char -> bool, isDigit: char -> bool, isWord: char -> bool)

  predicate IsPrefix(p: string, s: string) {
    |p| <= |s| && s[..|p|] == p
  }

  /** Python's `s.endswith(suffix)`. */
  predicate EndsWith(s: string, suffix: string) {
    |suffix| <= |s| && s[|s| - |suffix|..] == suffix
  }

  /** A suffix of a suffix is a suffix. */
  lemma EndsWithTrans(a: string, b: string, c: string)
    requires EndsWith(a, b) && EndsWith(b, c)
    ensures EndsWith(a, c)
  {
    assert a[|a| - |c|..] == a[|a| - |b|..][|b| - |c|..];
  }

  /** Python's `p in s` on strings: `p` occurs in `s` as a contiguous piece. */
  predicate Contains(s: string, p: string)
    decreases |s|
  {
    IsPrefix(p, s) || (|s| > 0 && Contains(s[1..], p))
  }

  /** `p` occurs in `s` starting at index `i`. */
  predicate OccursAt(s: string, p: string, i: nat) {
    i + |p| <= |s| && s[i..i + |p|] == p
  }

  /** `Contains` finds exactly the occurrences: it holds iff `p` occurs at some index. */
  lemma {:induction false} ContainsIff(s: string, p: string)
    ensures Contains(s, p) <==> exists i: nat :: OccursAt(s, p, i)
    decreases |s|
  {
    if Contains(s, p) {
      if IsPrefix(p, s) {
        assert OccursAt(s, p, 0);
      } else {
        ContainsIff(s[1..], p);
        var j: nat :| OccursAt(s[1..], p, j);
        assert s[j + 1..j + 1 + |p|] == s[1..][j..j + |p|];
        assert OccursAt(s, p, j + 1);
      }
    }
    if exists i: nat :: OccursAt(s, p, i) {
      var i: nat :| OccursAt(s, p, i);
      if i == 0 {
        assert IsPrefix(p, s);
      } else {
        assert s[1..][i - 1..i - 1 + |p|] == s[i..i + |p|];
        assert OccursAt(s[1..], p, i - 1);
        ContainsIff(s[1..], p);
      }
    }
  }

  /** Every character of a contained string occurs in the containing one. */
  lemma {:induction false} ContainedChars(s: string, p: string, c: char)
    requires Contains(s, p) && c in p
    ensures c in s
    decreases |s|
  {
    if IsPrefix(p, s) {
      var i :| 0 <= i < |p| && p[i] == c;
      assert s[..|p|][i] == c;
    } else {
      ContainedChars(s[1..], p, c);
    }
  }

  /** A string lacking one of the characters of `p` does not contain `p`. */
  lemma MissingCharNotContained(s: string, p: string, c: char)
    requires c in p && c !in s
    ensures !Contains(s, p)
  {
    if Contains(s, p) {
      ContainedChars(s, p, c);
    }
  }

  /** Every character of `s` is white space (so `s.strip()` is empty). */
  predicate IsBlank(s: string, isSpace: char -> bool) {
    forall i :: 0 <= i < |s| ==> isSpace(s[i])
  }

  /** Python's `s.lstrip()`: drop leading white space. */
  function TrimLeft(s: string, isSpace: char -> bool): (r: string)
    ensures |r| <= |s|
    decreases |s|
  {
    if |s| > 0 && isSpace(s[0]) then TrimLeft(s[1..], isSpace) else s
  }

  /** `lstrip` removes a blank prefix and leaves a suffix that does not start with white space. */
  lemma {:induction false} TrimLeftShape(s: string, isSpace: char -> bool)
    ensures var r := TrimLeft(s, isSpace);
            && r == s[|s| - |r|..]
            && (r == [] || !isSpace(r[0]))
            && IsBlank(s[..|s| - |r|], isSpace)
    decreases |s|
  {
    if |s| > 0 && isSpace(s[0]) {
      TrimLeftShape(s[1..], isSpace);
      var r := TrimLeft(s, isSpace);
      assert s[1..][|s| - 1 - |r|..] == s[|s| - |r|..];
      assert s[..|s| - |r|] == [s[0]] + s[1..][..|s| - 1 - |r|];
    }
  }

  /** Python's `s.rstrip()`: drop trailing white space. */
  function TrimRight(s: string, isSpace: char -> bool): (r: string)
    ensures |r| <= |s|
    decreases |s|
  {
    if |s| > 0 && isSpace(s[|s| - 1]) then TrimRight(s[..|s| - 1], isSpace) else s
  }

  /** `rstrip` removes a blank suffix and leaves a prefix that does not end with white space. */
  lemma {:induction false} TrimRightShape(s: string, isSpace: char -> bool)
    ensures var r := TrimRight(s, isSpace);
            && r == s[..|r|]
            && (r == [] || !isSpace(r[|r| - 1]))
            && IsBlank(s[|r|..], isSpace)
    decreases |s|
  {
    if |s| > 0 && isSpace(s[|s| - 1]) {
      var init := s[..|s| - 1];
      TrimRightShape(init, isSpace);
      var r := TrimRight(s, isSpace);
      assert init[..|r|] == s[..|r|];
      assert s[|r|..] == init[|r|..] + [s[|s| - 1]];
    }
  }

  /** Python's `s.strip()`. */
  function Strip(s: string, isSpace: char -> bool): string {
    TrimRight(TrimLeft(s, isSpace), isSpace)
  }

  /** A stripped string starts and ends with a non-space character, and it is
      empty exactly when the input was all white space. */
  lemma StripShape(s: string, isSpace: char -> bool)
    ensures var r := Strip(s, isSpace);
            |r| <= |s| && (r == [] || (!isSpace(r[0]) && !isSpace(r[|r| - 1])))
    ensures Strip(s, isSpace) == [] <==> IsBlank(s, isSpace)
  {
    var l := TrimLeft(s, isSpace);
    var r := TrimRight(l, isSpace);
    TrimLeftShape(s, isSpace);
    TrimRightShape(l, isSpace);
    if r != [] {
      assert r[0] == l[0];
    }
    if r == [] {
      assert l == [] by { assert l[0..] == l; }
      assert s[..|s|] == s;
    }
  }

  /** Stripping twice is the same as stripping once. */
  lemma StripIdempotent(s: string, isSpace: char -> bool)
    ensures Strip(Strip(s, isSpace), isSpace) == Strip(s, isSpace)
  {
    StripShape(s, isSpace);
  }

  /** Python's `' '.join(xs)`. */
  function JoinWords(xs: seq<string>): string
    decreases |xs|
  {
    if |xs| == 0 then "" else if |xs| == 1 then xs[0] else xs[0] + " " + JoinWords(xs[1..])
  }

  lemma JoinWordsCons(x: string, xs: seq<string>)
    requires xs != []
    ensures JoinWords([x] + xs) == x + " " + JoinWords(xs)
  {
    assert ([x] + xs)[1..] == xs;
  }

  /** Python's `s.split(' ')`: the pieces between single spaces, empty ones included. */
  function Split(s: string): (r: seq<string>)
    ensures |r| > 0
    decreases |s|
  {
    if |s| == 0 then [""]
    else if s[0] == ' ' then [""] + Split(s[1..])
    else var t := Split(s[1..]); [[s[0]] + t[0]] + t[1..]
  }

  lemma {:induction false} SplitWord(a: string, rest: string)
    requires ' ' !in a
    ensures Split(a + rest) == [a + Split(rest)[0]] + Split(rest)[1..]
    decreases |a|
  {
    if |a| > 0 {
      assert (a + rest)[1..] == a[1..] + rest;
      SplitWord(a[1..], rest);
      assert [a[0]] + (a[1..] + Split(rest)[0]) == a + Split(rest)[0];
    } else {
      assert a + rest == rest;
      assert a + Split(rest)[0] == Split(rest)[0];
      assert [Split(rest)[0]] + Split(rest)[1..] == Split(rest);
    }
  }

  /** Splitting a joined list of space-free words gives the words back. */
  lemma {:induction false} SplitJoin(xs: seq<string>)
    requires |xs| > 0
    requires forall i :: 0 <= i < |xs| ==> ' ' !in xs[i]
    ensures Split(JoinWords(xs)) == xs
    decreases |xs|
  {
    if |xs| == 1 {
      SplitWord(xs[0], "");
      assert xs[0] + "" == xs[0];
    } else {
      var tail := JoinWords(xs[1..]);
      SplitJoin(xs[1..]);
      assert xs[0] + " " + tail == xs[0] + (" " + tail);
      SplitWord(xs[0], " " + tail);
      assert (" " + tail)[1..] == tail;
      assert Split(" " + tail) == [""] + Split(tail);
      assert xs[0] + "" == xs[0];
      assert [xs[0]] + xs[1..] == xs;
    }
  }

  /** The joined text is blank exactly when every word is, provided the
      separator ' ' counts as white space. */
  lemma {:induction false} JoinWordsBlank(xs: seq<string>, isSpace: char -> bool)
    requires isSpace(' ')
    ensures IsBlank(JoinWords(xs), isSpace) <==> forall i :: 0 <= i < |xs| ==> IsBlank(xs[i], isSpace)
    decreases |xs|
  {
    if |xs| > 1 {
      var tail := JoinWords(xs[1..]);
      JoinWordsBlank(xs[1..], isSpace);
      var j := xs[0] + " " + tail;
      if IsBlank(j, isSpace) {
        assert IsBlank(xs[0], isSpace) by {
          forall k | 0 <= k < |xs[0]| ensures isSpace(xs[0][k]) { assert j[k] == xs[0][k]; }
        }
        assert IsBlank(tail, isSpace) by {
          forall k | 0 <= k < |tail| ensures isSpace(tail[k]) { assert j[|xs[0]| + 1 + k] == tail[k]; }
        }
        forall i | 0 <= i < |xs| ensures IsBlank(xs[i], isSpace) {
          if i > 0 { assert xs[1..][i - 1] == xs[i]; }
        }
      }
      if forall i :: 0 <= i < |xs| ==> IsBlank(xs[i], isSpace) {
        assert IsBlank(xs[0], isSpace);
        assert forall i :: 0 <= i < |xs[1..]| ==> IsBlank(xs[1..][i], isSpace) by {
          forall i | 0 <= i < |xs[1..]| ensures IsBlank(xs[1..][i], isSpace) { assert xs[1..][i] == xs[i + 1]; }
        }
        forall k | 0 <= k < |j| ensures isSpace(j[k]) {
          if k < |xs[0]| { assert j[k] == xs[0][k]; }
          else if k == |xs[0]| { assert j[k] == ' '; }
          else { assert j[k] == tail[k - |xs[0]| - 1]; }
        }
      }
    }
  }

  function LowerChar(c: char): char {
    if 'A' <= c <= 'Z' then (c as int + 32) as char else c
  }

  /** Python's `s.lower()` restricted to ASCII: upper-case ASCII letters map to
      lower case, every other character is kept. */
  function Lower(s: string): string
    decreases |s|
  {
    if |s| == 0 then "" else [LowerChar(s[0])] + Lower(s[1..])
  }

  /** Lower-casing keeps the length, leaves no ASCII capital and changes only
      ASCII capitals, each to the letter 32 code points above it. */
  lemma {:induction false} LowerShape(s: string)
    ensures |Lower(s)| == |s|
    ensures forall i :: 0 <= i < |s| ==> !('A' <= Lower(s)[i] <= 'Z')
    ensures forall i :: 0 <= i < |s| ==>
              (s[i] == Lower(s)[i] || ('A' <= s[i] <= 'Z' && Lower(s)[i] as int == s[i] as int + 32))
    decreases |s|
  {
    if |s| > 0 {
      LowerShape(s[1..]);
      var r := Lower(s);
      forall i | 0 < i < |s| ensures r[i] == Lower(s[1..])[i - 1] && s[i] == s[1..][i - 1] { }
    }
  }

  /** Lower-casing is idempotent. */
  lemma {:induction false} LowerIdempotent(s: string)
    ensures Lower(Lower(s)) == Lower(s)
    decreases |s|
  {
    if |s| > 0 {
      LowerIdempotent(s[1..]);
      assert Lower(s)[1..] == Lower(s[1..]);
    }
  }
}
