/**
 * Values shared by the modules of the model: optional values (Python's `None`),
 * the few operations of Python's `str` and `pathlib` the program relies on, and
 * order-preserving filtering of a sequence.
 */
module Common {

  datatype Option<T> = None | Some(value: T)

  /** Python truthiness of an optional integer: `None` and `0` are false. */
  predicate Truthy(v: Option<int>)
  {
    v.Some? && v.value != 0
  }

  /** `s.endswith(suffix)`. */
  predicate EndsWith(s: string, suffix: string)
  {
    |suffix| <= |s| && s[|s| - |suffix|..] == suffix
  }

  /** `pattern` occurs in `s` starting at index `i`. */
  predicate OccursAt(s: string, pattern: string, i: int)
  {
    0 <= i <= |s| - |pattern| && s[i..i + |pattern|] == pattern
  }

  /** `pattern in s`, for a non-empty pattern or an empty one alike. */
  predicate Contains(s: string, pattern: string)
  {
    exists i | 0 <= i <= |s| - |pattern| :: OccursAt(s, pattern, i)
  }

  /** A string contains a pattern exactly when it splits around an occurrence of it. */
  lemma ContainsIffSplit(s: string, pattern: string)
    ensures Contains(s, pattern) <==> exists a: string, b: string :: s == a + pattern + b
  {
    if Contains(s, pattern) {
      var i :| 0 <= i <= |s| - |pattern| && OccursAt(s, pattern, i);
      assert s == s[..i] + pattern + s[i + |pattern|..];
    }
    if exists a: string, b: string :: s == a + pattern + b {
      var a: string, b: string :| s == a + pattern + b;
      assert s[|a|..|a| + |pattern|] == pattern;
      assert OccursAt(s, pattern, |a|);
    }
  }

  /** `s.rfind(c)`: the last index holding `c`, or -1. */
  function LastIndexOf(s: string, c: char): (r: int)
    ensures -1 <= r < |s|
    ensures r == -1 ==> c !in s
    ensures r >= 0 ==> s[r] == c && forall j | r < j < |s| :: s[j] != c
  {
    if |s| == 0 then -1
    else if s[|s| - 1] == c then |s| - 1
    else LastIndexOf(s[..|s| - 1], c)
  }

  /** A file system path: the directory it is in and its last component. */
  datatype Path = Path(parent: string, name: string)

  /**
   * `PurePath.stem` (Python 3.12): the name without its last suffix, where a
   * suffix starts at a dot that is neither the first nor the last character.
   */
  function Stem(name: string): (r: string)
    ensures r == name || (exists i | 0 < i < |name| - 1 :: name[i] == '.' && r == name[..i])
    ensures |r| <= |name| && r == name[..|r|]
  {
    var i := LastIndexOf(name, '.');
    if 0 < i < |name| - 1 then name[..i] else name
  }

  /** The elements of `s` that satisfy `p`, in their order in `s`. */
  function Filter<T(!new)>(p: T -> bool, s: seq<T>): (r: seq<T>)
    ensures |r| <= |s|
    ensures forall x :: x in r <==> x in s && p(x)
  {
    if |s| == 0 then []
    else Filter(p, s[..|s| - 1]) + (if p(s[|s| - 1]) then [s[|s| - 1]] else [])
  }

  lemma {:induction false} FilterAppend<T(!new)>(p: T -> bool, a: seq<T>, b: seq<T>)
    ensures Filter(p, a + b) == Filter(p, a) + Filter(p, b)
    decreases |b|
  {
    if |b| > 0 {
      var b' := b[..|b| - 1];
      assert (a + b)[..|a + b| - 1] == a + b';
      FilterAppend(p, a, b');
    } else {
      assert a + b == a;
    }
  }

  lemma {:induction false} FilterNone<T(!new)>(p: T -> bool, s: seq<T>)
    requires forall i | 0 <= i < |s| :: !p(s[i])
    ensures Filter(p, s) == []
  {
    if |s| > 0 {
      FilterNone(p, s[..|s| - 1]);
    }
  }

  lemma {:induction false} FilterAll<T(!new)>(p: T -> bool, s: seq<T>)
    requires forall i | 0 <= i < |s| :: p(s[i])
    ensures Filter(p, s) == s
  {
    if |s| > 0 {
      FilterAll(p, s[..|s| - 1]);
      assert s[..|s| - 1] + [s[|s| - 1]] == s;
    }
  }

  // ---------------------------------------------------------------------------
  // Splitting, joining, replacing and stripping strings

  /** `[f(x) for x in s]`. */
  function Map<A, B>(f: A -> B, s: seq<A>): (r: seq<B>)
    ensures |r| == |s| && forall i | 0 <= i < |s| :: r[i] == f(s[i])
  {
    if |s| == 0 then [] else Map(f, s[..|s| - 1]) + [f(s[|s| - 1])]
  }

  lemma {:induction false} MapAppend<A, B>(f: A -> B, a: seq<A>, b: seq<A>)
    ensures Map(f, a + b) == Map(f, a) + Map(f, b)
    decreases |b|
  {
    if |b| > 0 {
      var b' := b[..|b| - 1];
      assert (a + b)[..|a + b| - 1] == a + b';
      MapAppend(f, a, b');
    } else {
      assert a + b == a;
    }
  }

  /** `sep.join(pieces)`. */
  function Join(pieces: seq<string>, sep: string): string
  {
    if |pieces| == 0 then ""
    else if |pieces| == 1 then pieces[0]
    else pieces[0] + sep + Join(pieces[1..], sep)
  }

  /** `s.split(sep)` for a non-empty separator: the pieces between leftmost occurrences. */
  function Split(s: string, sep: string): (r: seq<string>)
    requires |sep| > 0
    ensures |r| >= 1
    decreases |s|
  {
    if |s| < |sep| then [s]
    else if s[..|sep|] == sep then [""] + Split(s[|sep|..], sep)
    else
      var rest := Split(s[1..], sep);
      [[s[0]] + rest[0]] + rest[1..]
  }

  /**
   * `s.replace(pattern, replacement)`: scanning from the left, every occurrence
   * of `pattern` that does not overlap an earlier one is replaced; an empty
   * `pattern` puts `replacement` before every character and at the end.
   */
  function Replace(s: string, pattern: string, replacement: string): string
    decreases |s|
  {
    if |pattern| == 0 then
      (if |s| == 0 then replacement else replacement + [s[0]] + Replace(s[1..], pattern, replacement))
    else if |s| < |pattern| then s
    else if s[..|pattern|] == pattern then replacement + Replace(s[|pattern|..], pattern, replacement)
    else [s[0]] + Replace(s[1..], pattern, replacement)
  }

  /** Joining pieces whose first one is extended at the front extends the joined string. */
  lemma JoinExtendFirst(p: string, rest: seq<string>, sep: string)
    requires |rest| >= 1
    ensures Join([p + rest[0]] + rest[1..], sep) == p + Join(rest, sep)
  {
    var x := [p + rest[0]] + rest[1..];
    if |rest| > 1 {
      assert x[1..] == rest[1..];
      calc {
        Join(x, sep);
        (p + rest[0]) + sep + Join(rest[1..], sep);
        p + (rest[0] + sep + Join(rest[1..], sep));
      }
    }
  }

  /** Joining pieces that start with an empty one puts a separator in front. */
  lemma JoinEmptyFirst(rest: seq<string>, sep: string)
    requires |rest| >= 1
    ensures Join([""] + rest, sep) == sep + Join(rest, sep)
  {
    assert ([""] + rest)[1..] == rest;
  }

  /** Joining the pieces of a split with the separator gives the string back. */
  lemma {:induction false} SplitJoin(s: string, sep: string)
    requires |sep| > 0
    ensures Join(Split(s, sep), sep) == s
    decreases |s|
  {
    if |s| < |sep| {
    } else if s[..|sep|] == sep {
      SplitJoin(s[|sep|..], sep);
      JoinEmptyFirst(Split(s[|sep|..], sep), sep);
      assert s == sep + s[|sep|..];
    } else {
      SplitJoin(s[1..], sep);
      JoinExtendFirst([s[0]], Split(s[1..], sep), sep);
      assert s == [s[0]] + s[1..];
    }
  }

  /** The first piece of a split is a prefix of the string. */
  lemma {:induction false} SplitFirst(s: string, sep: string)
    requires |sep| > 0
    ensures var r := Split(s, sep);
      |r[0]| <= |s| && s[..|r[0]|] == r[0]
    decreases |s|
  {
    if |s| >= |sep| && s[..|sep|] != sep {
      var tail := s[1..];
      var rest := Split(tail, sep);
      SplitFirst(tail, sep);
      var first := [s[0]] + rest[0];
      assert Split(s, sep)[0] == first;
      assert s[..|first|] == [s[0]] + tail[..|rest[0]|];
    }
  }

  /**
   * A prefix of `s` that does not start with the separator, and whose tail does not
   * contain it, does not contain it either.
   */
  lemma PrefixFree(s: string, first: string, sep: string)
    requires |sep| > 0 && |sep| <= |s| && s[..|sep|] != sep
    requires 1 <= |first| <= |s| && first == s[..|first|]
    requires !Contains(first[1..], sep)
    ensures !Contains(first, sep)
  {
    forall i | 0 <= i <= |first| - |sep|
      ensures !OccursAt(first, sep, i)
    {
      if i == 0 {
        assert first[..|sep|] == s[..|sep|];
      } else {
        var tail := first[1..];
        var a, b := first[i..i + |sep|], tail[i - 1..i - 1 + |sep|];
        assert forall k | 0 <= k < |sep| :: a[k] == b[k];
        assert a == b;
        assert !OccursAt(tail, sep, i - 1);
      }
    }
  }

  /** No piece of a split contains the separator: every occurrence was split at. */
  lemma {:induction false} SplitPiecesFree(s: string, sep: string)
    requires |sep| > 0
    ensures forall piece | piece in Split(s, sep) :: !Contains(piece, sep)
    decreases |s|
  {
    if |s| < |sep| {
      NoRoom(s, sep);
    } else if s[..|sep|] == sep {
      SplitPiecesFree(s[|sep|..], sep);
      NoRoom("", sep);
    } else {
      var rest := Split(s[1..], sep);
      SplitPiecesFree(s[1..], sep);
      SplitFirst(s[1..], sep);
      var first := [s[0]] + rest[0];
      assert rest[0] in rest;
      assert first[1..] == rest[0];
      assert s[..|first|] == first;
      PrefixFree(s, first, sep);
      assert forall piece | piece in rest[1..] :: piece in rest;
    }
  }

  lemma NoRoom(s: string, sep: string)
    requires |s| < |sep|
    ensures !Contains(s, sep)
  {}

  /** For a non-empty pattern, replacing is splitting at the pattern and joining with the replacement. */
  lemma {:induction false} ReplaceIsSplitJoin(s: string, pattern: string, replacement: string)
    requires |pattern| > 0
    ensures Replace(s, pattern, replacement) == Join(Split(s, pattern), replacement)
    decreases |s|
  {
    if |s| < |pattern| {
    } else if s[..|pattern|] == pattern {
      ReplaceIsSplitJoin(s[|pattern|..], pattern, replacement);
    } else {
      var rest := Split(s[1..], pattern);
      ReplaceIsSplitJoin(s[1..], pattern, replacement);
      if |rest| > 1 {
        assert ([[s[0]] + rest[0]] + rest[1..])[1..] == rest[1..];
      }
    }
  }

  /**
   * Every occurrence of a non-empty pattern is replaced: the result is the string's
   * pieces around the occurrences, none of which contains the pattern, joined by
   * the replacement.
   */
  lemma ReplaceEveryOccurrence(s: string, pattern: string, replacement: string)
    requires |pattern| > 0
    ensures exists pieces: seq<string> ::
      s == Join(pieces, pattern) && Replace(s, pattern, replacement) == Join(pieces, replacement) &&
      forall piece | piece in pieces :: !Contains(piece, pattern)
  {
    var pieces := Split(s, pattern);
    SplitJoin(s, pattern);
    ReplaceIsSplitJoin(s, pattern, replacement);
    SplitPiecesFree(s, pattern);
  }

  /** Replacing a non-empty pattern that occurs nowhere in a string leaves the string as it is. */
  lemma {:induction false} ReplaceAbsent(s: string, pattern: string, replacement: string)
    requires |pattern| > 0 && !Contains(s, pattern)
    ensures Replace(s, pattern, replacement) == s
    decreases |s|
  {
    if |s| >= |pattern| {
      assert !OccursAt(s, pattern, 0);
      var rest := s[1..];
      forall i | 0 <= i <= |rest| - |pattern|
        ensures !OccursAt(rest, pattern, i)
      {
        assert !OccursAt(s, pattern, i + 1);
        assert rest[i..i + |pattern|] == s[i + 1..i + 1 + |pattern|];
      }
      ReplaceAbsent(rest, pattern, replacement);
    }
  }

  /** `s.lstrip(c)` for a single character. */
  function StripLeft(s: string, c: char): (r: string)
    ensures |r| <= |s| && r == s[|s| - |r|..]
    ensures |r| == 0 || r[0] != c
    ensures forall i | 0 <= i < |s| - |r| :: s[i] == c
  {
    if |s| > 0 && s[0] == c then StripLeft(s[1..], c) else s
  }

  /** `s.rstrip(c)` for a single character. */
  function StripRight(s: string, c: char): (r: string)
    ensures |r| <= |s| && r == s[..|r|]
    ensures |r| == 0 || r[|r| - 1] != c
    ensures forall i | |r| <= i < |s| :: s[i] == c
  {
    if |s| > 0 && s[|s| - 1] == c then StripRight(s[..|s| - 1], c) else s
  }

  /** `s.strip(c)` for a single character. */
  function Strip(s: string, c: char): string
  {
    StripRight(StripLeft(s, c), c)
  }
}
