/** The few Python string and list operations the models rely on:
    `str.split(sep)`, `str.split(sep, n)`, `str.rsplit(sep, n)`, `sep.join`,
    `list.index` and case folding, with the laws that tie them together. */
module Strings {
  import opened Values

  /** `s.split(sep)`: every part, empty parts included; never an empty list. */
  function Split(s: string, sep: char): (parts: seq<string>)
    ensures |parts| >= 1
    decreases |s|
  {
    if s == [] then [""]
    else
      var rest := Split(s[1..], sep);
      if s[0] == sep then [""] + rest
      else [[s[0]] + rest[0]] + rest[1..]
  }

  /** `sep.join(parts)`. */
  function Join(parts: seq<string>, sep: char): string
  {
    if parts == [] then ""
    else if |parts| == 1 then parts[0]
    else parts[0] + [sep] + Join(parts[1..], sep)
  }

  /** `s.split(sep, n)`: at most `n` splits, counted from the left. */
  function SplitMax(s: string, sep: char, n: nat): seq<string>
  {
    var parts := Split(s, sep);
    if |parts| <= n + 1 then parts else parts[..n] + [Join(parts[n..], sep)]
  }

  /** `s.rsplit(sep, n)`: at most `n` splits, counted from the right. */
  function RSplitMax(s: string, sep: char, n: nat): seq<string>
  {
    var parts := Split(s, sep);
    if |parts| <= n + 1 then parts else [Join(parts[..|parts| - n], sep)] + parts[|parts| - n..]
  }

  /** No part produced by `Split` contains the separator. */
  lemma {:induction false} SplitPartsFree(s: string, sep: char)
    ensures forall i :: 0 <= i < |Split(s, sep)| ==> sep !in Split(s, sep)[i]
    decreases |s|
  {
    if s != [] {
      SplitPartsFree(s[1..], sep);
      var rest := Split(s[1..], sep);
      if s[0] != sep {
        assert sep !in [s[0]] + rest[0];
      }
    }
  }

  /** Joining the parts of a split gives back the string. */
  lemma {:induction false} JoinSplit(s: string, sep: char)
    ensures Join(Split(s, sep), sep) == s
    decreases |s|
  {
    if s != [] {
      JoinSplit(s[1..], sep);
      var rest := Split(s[1..], sep);
      if s[0] == sep {
        assert Split(s, sep) == [""] + rest;
        assert Join([""] + rest, sep) == "" + [sep] + Join(rest, sep);
        assert [sep] + s[1..] == s;
      } else if |rest| == 1 {
        assert Split(s, sep) == [[s[0]] + rest[0]];
        assert [s[0]] + s[1..] == s;
      } else {
        var parts := [[s[0]] + rest[0]] + rest[1..];
        assert Split(s, sep) == parts;
        assert parts[1..] == rest[1..];
        assert Join(rest, sep) == rest[0] + [sep] + Join(rest[1..], sep);
        assert Join(parts, sep) == [s[0]] + rest[0] + [sep] + Join(rest[1..], sep);
        assert [s[0]] + s[1..] == s;
      }
    }
  }

  /** A string without the separator splits into itself alone. */
  lemma {:induction false} SplitFree(a: string, sep: char)
    requires sep !in a
    ensures Split(a, sep) == [a]
    decreases |a|
  {
    if a != [] {
      SplitFree(a[1..], sep);
      assert [a[0]] + a[1..] == a;
    }
  }

  /** Splitting at the first separator: the part before it comes out first. */
  lemma {:induction false} SplitAtFirst(a: string, sep: char, b: string)
    requires sep !in a
    ensures Split(a + [sep] + b, sep) == [a] + Split(b, sep)
    decreases |a|
  {
    if a == [] {
      assert a + [sep] + b == [sep] + b;
      assert ([sep] + b)[1..] == b;
    } else {
      var s := a + [sep] + b;
      assert s[0] == a[0] && s[1..] == a[1..] + [sep] + b;
      SplitAtFirst(a[1..], sep, b);
      assert [a[0]] + a[1..] == a;
    }
  }

  /** Splitting at the last separator: the part after it comes out last. */
  lemma {:induction false} SplitAtLast(a: string, sep: char, b: string)
    requires sep !in b
    ensures Split(a + [sep] + b, sep) == Split(a, sep) + [b]
    decreases |a|
  {
    if a == [] {
      assert a + [sep] + b == [sep] + b;
      assert ([sep] + b)[1..] == b;
      SplitFree(b, sep);
    } else {
      var s := a + [sep] + b;
      assert s[0] == a[0] && s[1..] == a[1..] + [sep] + b;
      SplitAtLast(a[1..], sep, b);
    }
  }

  /** Joining two non-empty lists of parts puts one separator between them. */
  lemma {:induction false} JoinAppend(a: seq<string>, b: seq<string>, sep: char)
    requires a != [] && b != []
    ensures Join(a + b, sep) == Join(a, sep) + [sep] + Join(b, sep)
    decreases |a|
  {
    if |a| == 1 {
      assert (a + b)[0] == a[0] && (a + b)[1..] == b;
    } else {
      JoinAppend(a[1..], b, sep);
      assert (a + b)[0] == a[0] && (a + b)[1..] == a[1..] + b;
    }
  }

  /** `split(sep, n)` keeps the whole string and yields at most `n + 1` parts. */
  lemma SplitMaxJoin(s: string, sep: char, n: nat)
    ensures 1 <= |SplitMax(s, sep, n)| <= n + 1
    ensures Join(SplitMax(s, sep, n), sep) == s
    ensures |SplitMax(s, sep, n)| <= n ==> SplitMax(s, sep, n) == Split(s, sep)
  {
    var parts := Split(s, sep);
    JoinSplit(s, sep);
    if |parts| > n + 1 {
      if n > 0 {
        JoinAppend(parts[..n], parts[n..], sep);
        assert parts[..n] + parts[n..] == parts;
        JoinAppend(parts[..n], [Join(parts[n..], sep)], sep);
      } else {
        assert parts[0..] == parts;
      }
    }
  }

  /** `s.split(sep, 1)`: the first part is the text before the first separator
      (the whole string when there is none); a second part exists exactly when
      the separator occurs, and it is the text after its first occurrence. */
  lemma SplitOnce(s: string, sep: char)
    ensures var p := SplitMax(s, sep, 1);
      && 1 <= |p| <= 2
      && sep !in p[0]
      && p[0] <= s
      && (|p| == 2 <==> sep in s)
      && (|p| == 1 ==> p[0] == s)
      && (|p| == 2 ==> s == p[0] + [sep] + p[1])
  {
    var parts := Split(s, sep);
    SplitPartsFree(s, sep);
    SplitMaxJoin(s, sep, 1);
    var p := SplitMax(s, sep, 1);
    assert p[0] == parts[0];
    if |p| == 2 {
      assert s == Join(p, sep) == p[0] + [sep] + p[1];
      assert s[|p[0]|] == sep;
    } else {
      assert p == parts;
      assert s == Join(p, sep) == p[0];
    }
  }

  /** A fullname `kind + "_" + id` splits once back into its kind and its id
      when the kind has no underscore. */
  lemma FullnameSplit(kind: string, id: string)
    requires '_' !in kind
    ensures SplitMax(kind + "_" + id, '_', 1) == [kind, id]
  {
    var s := kind + "_" + id;
    SplitAtFirst(kind, '_', id);
    var parts := Split(s, '_');
    assert parts == [kind] + Split(id, '_');
    if |parts| > 2 {
      assert parts[1..] == Split(id, '_');
      JoinSplit(id, '_');
    } else {
      assert Split(id, '_') == [parts[1]];
      JoinSplit(id, '_');
    }
  }

  /** Element 1 of `s.rsplit(sep, 4)`: the fourth part from the end when the
      string has at least four separators, else the second part; it exists
      exactly when the separator occurs. */
  lemma RSplitFourSecond(s: string, sep: char)
    ensures var parts := Split(s, sep); var r := RSplitMax(s, sep, 4);
      && (|r| >= 2 <==> |parts| >= 2)
      && (|parts| >= 5 ==> r[1] == parts[|parts| - 4])
      && (2 <= |parts| < 5 ==> r[1] == parts[1])
  {
  }

  /** The separator occurs in a string exactly when splitting yields two parts or more. */
  lemma {:induction false} SplitCount(s: string, sep: char)
    ensures |Split(s, sep)| >= 2 <==> sep in s
    decreases |s|
  {
    if s != [] {
      SplitCount(s[1..], sep);
      assert sep in s <==> s[0] == sep || sep in s[1..];
    }
  }

  /** `xs.index(x)`: the position of the first occurrence, `None` for `ValueError`. */
  function IndexOf<T(==)>(xs: seq<T>, x: T): (r: Option<nat>)
    ensures r.None? <==> x !in xs
    ensures r.Some? ==> r.value < |xs| && xs[r.value] == x && x !in xs[..r.value]
  {
    if xs == [] then None
    else if xs[0] == x then Some(0)
    else
      match IndexOf(xs[1..], x)
      case None => None
      case Some(i) =>
        assert xs[1..][..i] == xs[1..i + 1];
        assert xs[..i + 1] == [xs[0]] + xs[1..i + 1];
        Some(i + 1)
  }

  function LowerChar(c: char): char
  {
    if 'A' <= c <= 'Z' then (c as int + 32) as char else c
  }

  /** `s.lower()` on ASCII letters. */
  function Lower(s: string): (r: string)
    ensures |r| == |s|
    ensures forall i :: 0 <= i < |s| ==> r[i] == LowerChar(s[i])
  {
    seq(|s|, i requires 0 <= i < |s| => LowerChar(s[i]))
  }

  /** Case-insensitive equality of two identifiers. */
  predicate SameIgnoringCase(a: string, b: string)
  {
    Lower(a) == Lower(b)
  }

  /** Two strings are equal ignoring case exactly when they have the same
      length and agree letter by letter once folded. */
  lemma SameIgnoringCaseIff(a: string, b: string)
    ensures SameIgnoringCase(a, b) <==>
      |a| == |b| && forall i :: 0 <= i < |a| ==> LowerChar(a[i]) == LowerChar(b[i])
  {
    if |a| == |b| && forall i :: 0 <= i < |a| ==> LowerChar(a[i]) == LowerChar(b[i]) {
      assert forall i :: 0 <= i < |a| ==> Lower(a)[i] == Lower(b)[i];
    }
  }
}
