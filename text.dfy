/**
  The two Python string operations the test helpers rely on:
  `s.split(sep)` for a one-character separator and `s.replace(pat, rep)`.
  `Occurs` is this model's own "the pattern occurs in s" predicate, in which
  the laws of `replace` are stated.
 */
module Text {

  /** Number of occurrences of `c` in `s`. */
  function Count(s: string, c: char): (n: nat)
    ensures n > 0 <==> c in s
    ensures n <= |s|
  {
    if s == [] then 0 else (if s[0] == c then 1 else 0) + Count(s[1..], c)
  }

  /** Position of the first `c` in `s`. */
  function IndexOf(s: string, c: char): (i: nat)
    requires c in s
    ensures i < |s| && s[i] == c && c !in s[..i]
  {
    if s[0] == c then 0
    else
      var i := 1 + IndexOf(s[1..], c);
      assert s[..i] == [s[0]] + s[1..][..i - 1];
      i
  }

  /** `s.split(sep)`: the pieces between consecutive separators, in order. */
  function Split(s: string, sep: char): (parts: seq<string>)
    ensures |parts| == Count(s, sep) + 1
    ensures forall k :: 0 <= k < |parts| ==> sep !in parts[k]
    decreases |s|
  {
    if sep !in s then
      [s]
    else
      var i := IndexOf(s, sep);
      CountAppend(s[..i], s[i..], sep);
      assert s[i..] == [sep] + s[i + 1..];
      CountAppend([sep], s[i + 1..], sep);
      assert Count([sep], sep) == 1 + Count([], sep);
      assert s[..i] + s[i..] == s;
      [s[..i]] + Split(s[i + 1..], sep)
  }

  /** `sep.join(parts)`. */
  function Join(parts: seq<string>, sep: char): (s: string)
    requires |parts| >= 1
  {
    if |parts| == 1 then parts[0] else parts[0] + [sep] + Join(parts[1..], sep)
  }

  lemma {:induction false} CountAppend(a: string, b: string, c: char)
    ensures Count(a + b, c) == Count(a, c) + Count(b, c)
  {
    if a == [] {
      assert a + b == b;
    } else {
      assert (a + b)[1..] == a[1..] + b;
      CountAppend(a[1..], b, c);
    }
  }

  /** The first `c` in `a + [c] + b` is the one after `a` when `a` has none. */
  lemma IndexOfAfter(a: string, c: char, b: string)
    requires c !in a
    ensures IndexOf(a + [c] + b, c) == |a|
  {
    var s := a + [c] + b;
    assert s[|a|] == c;
  }

  /** Splitting at a separator that follows a separator-free prefix. */
  lemma SplitCons(a: string, b: string, sep: char)
    requires sep !in a
    ensures Split(a + [sep] + b, sep) == [a] + Split(b, sep)
  {
    var s := a + [sep] + b;
    IndexOfAfter(a, sep, b);
    assert s[..|a|] == a;
    assert s[|a| + 1..] == b;
  }

  /** `sep.join(s.split(sep)) == s`. */
  lemma {:induction false} JoinSplit(s: string, sep: char)
    ensures Join(Split(s, sep), sep) == s
    decreases |s|
  {
    if sep in s {
      var i := IndexOf(s, sep);
      var a, b := s[..i], s[i + 1..];
      assert s == a + [sep] + b;
      SplitCons(a, b, sep);
      JoinSplit(b, sep);
    }
  }

  /** `sep.join(parts).split(sep) == parts` when no part holds the separator. */
  lemma {:induction false} SplitJoin(parts: seq<string>, sep: char)
    requires |parts| >= 1
    requires forall k :: 0 <= k < |parts| ==> sep !in parts[k]
    ensures Split(Join(parts, sep), sep) == parts
  {
    if |parts| > 1 {
      var first, rest := parts[0], parts[1..];
      assert sep !in first;
      assert forall k :: 0 <= k < |rest| ==> sep !in rest[k] by {
        forall k | 0 <= k < |rest| ensures sep !in rest[k] {
          assert rest[k] == parts[k + 1];
        }
      }
      var tail := Join(rest, sep);
      assert Join(parts, sep) == first + [sep] + tail;
      calc {
        Split(Join(parts, sep), sep);
        Split(first + [sep] + tail, sep);
        { SplitCons(first, tail, sep); }
        [first] + Split(tail, sep);
        { SplitJoin(rest, sep); }
        [first] + rest;
        parts;
      }
    }
  }

  /** `(a + sep + b).split(sep) == a.split(sep) + b.split(sep)`. */
  lemma {:induction false} SplitAppend(a: string, b: string, sep: char)
    ensures Split(a + [sep] + b, sep) == Split(a, sep) + Split(b, sep)
    decreases |a|
  {
    if sep !in a {
      SplitCons(a, b, sep);
      assert Split(a, sep) == [a];
    } else {
      var i := IndexOf(a, sep);
      var x, y := a[..i], a[i + 1..];
      assert a == x + [sep] + y;
      var yb := y + [sep] + b;
      assert a + [sep] + b == x + [sep] + yb;
      calc {
        Split(a + [sep] + b, sep);
        { SplitCons(x, yb, sep); }
        [x] + Split(yb, sep);
        { SplitAppend(y, b, sep); }
        [x] + (Split(y, sep) + Split(b, sep));
        ([x] + Split(y, sep)) + Split(b, sep);
        { SplitCons(x, y, sep); }
        Split(a, sep) + Split(b, sep);
      }
    }
  }

  /** A common prefix does not change whether one string starts another. */
  lemma PrefixCancel(p: string, a: string, b: string)
    ensures p + a <= p + b <==> a <= b
  {
    if p + a <= p + b {
      assert a == (p + a)[|p|..];
      assert (p + b)[..|p + a|][|p|..] == b[..|a|];
    }
    if a <= b {
      assert (p + b)[..|p + a|] == p + b[..|a|];
    }
  }

  /** `pat` occurs somewhere in `s`. */
  predicate Occurs(s: string, pat: string)
    decreases |s|
  {
    pat <= s || (s != [] && Occurs(s[1..], pat))
  }

  /** A string that lacks one character of `pat` cannot contain `pat`. */
  lemma {:induction false} MissingCharNoOccurrence(s: string, pat: string, c: char)
    requires c in pat && c !in s
    ensures !Occurs(s, pat)
    decreases |s|
  {
    if s != [] {
      MissingCharNoOccurrence(s[1..], pat, c);
    }
  }

  /** Wherever an extension of `pre` occurs, `pre` occurs too. */
  lemma {:induction false} NoOccurrenceExtension(s: string, pre: string, pat: string)
    requires pre <= pat
    ensures Occurs(s, pat) ==> Occurs(s, pre)
    decreases |s|
  {
    if s != [] {
      NoOccurrenceExtension(s[1..], pre, pat);
    }
  }

  /** `s.replace(pat, rep)`: every non-overlapping occurrence of `pat`, scanning
      left to right, is replaced by `rep`. A string in which `pat` does not
      occur comes back unchanged, and a replacement as long as the pattern
      keeps the length. */
  function Replace(s: string, pat: string, rep: string): (r: string)
    requires |pat| > 0
    ensures !Occurs(s, pat) ==> r == s
    ensures |rep| == |pat| ==> |r| == |s|
    decreases |s|
  {
    if pat <= s then rep + Replace(s[|pat|..], pat, rep)
    else if s == [] then []
    else [s[0]] + Replace(s[1..], pat, rep)
  }

  /** An occurrence at the front is replaced, and the scan resumes after it. */
  lemma ReplaceFront(pat: string, t: string, rep: string)
    requires |pat| > 0
    ensures Replace(pat + t, pat, rep) == rep + Replace(t, pat, rep)
  {
    assert (pat + t)[|pat|..] == t;
  }

  /** A prefix at none of whose positions `pat` starts is copied unchanged. */
  lemma {:induction false} ReplaceSkip(p: string, t: string, pat: string, rep: string)
    requires |pat| > 0
    requires forall i :: 0 <= i < |p| ==> !(pat <= (p + t)[i..])
    ensures Replace(p + t, pat, rep) == p + Replace(t, pat, rep)
    decreases |p|
  {
    if p != [] {
      var s, rest := p + t, p[1..] + t;
      assert !(pat <= s) by {
        assert s[0..] == s;
      }
      assert s[1..] == rest;
      forall i | 0 <= i < |p[1..]|
        ensures !(pat <= rest[i..])
      {
        assert rest[i..] == s[i + 1..];
      }
      calc {
        Replace(s, pat, rep);
        [s[0]] + Replace(rest, pat, rep);
        { ReplaceSkip(p[1..], t, pat, rep); }
        [p[0]] + (p[1..] + Replace(t, pat, rep));
        p + Replace(t, pat, rep);
      }
    } else {
      assert p + t == t;
    }
  }
}
