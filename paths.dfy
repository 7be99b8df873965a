/** Python's `os.path.join` for the two path flavours the program runs on. */
module Paths {
  import opened Text

  /** `posixpath` (separator '/') or `ntpath` (separator '\', which also accepts '/'). */
  datatype Flavour = Posix | Windows

  function Sep(f: Flavour): char {
    if f == Posix then '/' else '\\'
  }

  predicate IsSep(f: Flavour, c: char) {
    c == '/' || (f == Windows && c == '\\')
  }

  /** A component that does not start at the root, so joining appends it. */
  predicate Relative(f: Flavour, part: string) {
    |part| == 0 || !IsSep(f, part[0])
  }

  /** One step of `os.path.join(base, part)`: a rooted component replaces the
      path so far; otherwise it is appended, with a separator unless the path
      is empty or already ends with one. */
  function Join2(f: Flavour, base: string, part: string): string {
    if !Relative(f, part) then part
    else if |base| == 0 || IsSep(f, base[|base| - 1]) then base + part
    else base + [Sep(f)] + part
  }

  /** `os.path.join(base, *parts)`. */
  function JoinPath(f: Flavour, base: string, parts: seq<string>): string
    decreases |parts|
  {
    if parts == [] then base else JoinPath(f, Join2(f, base, parts[0]), parts[1..])
  }

  predicate AllRelative(f: Flavour, parts: seq<string>) {
    forall i :: 0 <= i < |parts| ==> Relative(f, parts[i])
  }

  /** The joined path always ends with the last component. */
  lemma {:induction false} JoinPathEndsWithLast(f: Flavour, base: string, parts: seq<string>)
    requires parts != []
    ensures EndsWith(JoinPath(f, base, parts), parts[|parts| - 1])
    decreases |parts|
  {
    if |parts| == 1 {
      var j := Join2(f, base, parts[0]);
      assert JoinPath(f, j, []) == j;
      assert j[|j| - |parts[0]|..] == parts[0];
    } else {
      JoinPathEndsWithLast(f, Join2(f, base, parts[0]), parts[1..]);
    }
  }

  /** Joining relative components only ever extends the path. */
  lemma {:induction false} JoinPathExtends(f: Flavour, base: string, parts: seq<string>)
    requires AllRelative(f, parts)
    ensures IsPrefix(base, JoinPath(f, base, parts))
    decreases |parts|
  {
    if parts != [] {
      var j := Join2(f, base, parts[0]);
      assert Relative(f, parts[0]);
      assert IsPrefix(base, j) by {
        assert j[..|base|] == base;
      }
      assert AllRelative(f, parts[1..]) by {
        forall i | 0 <= i < |parts[1..]| ensures Relative(f, parts[1..][i]) {
          assert parts[1..][i] == parts[i + 1];
        }
      }
      JoinPathExtends(f, j, parts[1..]);
      var r := JoinPath(f, j, parts[1..]);
      assert r[..|base|] == r[..|j|][..|base|];
    }
  }

  /** Joining in two steps is joining once. */
  lemma {:induction false} JoinPathConcat(f: Flavour, base: string, xs: seq<string>, ys: seq<string>)
    ensures JoinPath(f, base, xs + ys) == JoinPath(f, JoinPath(f, base, xs), ys)
    decreases |xs|
  {
    if xs == [] {
      assert xs + ys == ys;
    } else {
      assert (xs + ys)[0] == xs[0];
      assert (xs + ys)[1..] == xs[1..] + ys;
      JoinPathConcat(f, Join2(f, base, xs[0]), xs[1..], ys);
    }
  }

  /** If `JoinPath(base, xs)` is a non-empty path that does not end with a
      separator, every further relative component lands underneath it:
      the longer path starts with it followed by a separator. */
  lemma JoinPathUnder(f: Flavour, base: string, xs: seq<string>, ys: seq<string>)
    requires ys != [] && AllRelative(f, ys)
    requires var d := JoinPath(f, base, xs); |d| > 0 && !IsSep(f, d[|d| - 1])
    ensures IsPrefix(JoinPath(f, base, xs) + [Sep(f)], JoinPath(f, base, xs + ys))
  {
    var d := JoinPath(f, base, xs);
    JoinPathConcat(f, base, xs, ys);
    var j := Join2(f, d, ys[0]);
    assert Relative(f, ys[0]);
    assert j == d + [Sep(f)] + ys[0];
    assert AllRelative(f, ys[1..]) by {
      forall i | 0 <= i < |ys[1..]| ensures Relative(f, ys[1..][i]) {
        assert ys[1..][i] == ys[i + 1];
      }
    }
    JoinPathExtends(f, j, ys[1..]);
    var r := JoinPath(f, j, ys[1..]);
    assert r[..|d| + 1] == r[..|j|][..|d| + 1];
    assert j[..|d| + 1] == d + [Sep(f)];
  }
}
