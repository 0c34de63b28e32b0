/**
 * Character-level string operations used to build monitoring labels:
 * single-character replacement (Java's `String.replace` with one-character
 * arguments), joining with a separator, and the matching split.
 */
module Text {

  /** `s` with every occurrence of `from` replaced by `to`. */
  function Replace(s: string, from: char, to: char): (r: string)
    ensures |r| == |s|
    ensures forall i :: 0 <= i < |s| ==> r[i] == (if s[i] == from then to else s[i])
  {
    if |s| == 0 then [] else [if s[0] == from then to else s[0]] + Replace(s[1..], from, to)
  }

  /** After replacing `from` by a different character, `from` no longer occurs. */
  lemma ReplaceRemoves(s: string, from: char, to: char)
    requires from != to
    ensures from !in Replace(s, from, to)
  {
    var r := Replace(s, from, to);
    forall i | 0 <= i < |r| ensures r[i] != from {
    }
  }

  /** The elements of `xs` separated by `sep`, with no separator at either end. */
  function Join(xs: seq<string>, sep: char): string
  {
    if |xs| == 0 then ""
    else if |xs| == 1 then xs[0]
    else xs[0] + [sep] + Join(xs[1..], sep)
  }

  /** Every element followed by `sep`: what a builder holds after appending
      each element and then the separator. */
  function Terminated(xs: seq<string>, sep: char): string
  {
    if |xs| == 0 then "" else xs[0] + [sep] + Terminated(xs[1..], sep)
  }

  lemma {:induction false} TerminatedAppend(xs: seq<string>, x: string, sep: char)
    ensures Terminated(xs + [x], sep) == Terminated(xs, sep) + x + [sep]
  {
    if |xs| > 0 {
      assert (xs + [x])[1..] == xs[1..] + [x];
      TerminatedAppend(xs[1..], x, sep);
    }
  }

  /** A terminated list is its join followed by one separator, so dropping the
      last character of a non-empty terminated list yields the join. */
  lemma {:induction false} TerminatedIsJoinPlusSep(xs: seq<string>, sep: char)
    requires |xs| > 0
    ensures Terminated(xs, sep) == Join(xs, sep) + [sep]
  {
    if |xs| > 1 {
      TerminatedIsJoinPlusSep(xs[1..], sep);
    }
  }

  /** Index of the first `sep` in `s`, or `|s|` when there is none. */
  function IndexOf(s: string, sep: char): (k: nat)
    ensures k <= |s|
    ensures k < |s| ==> s[k] == sep
    ensures forall i :: 0 <= i < k ==> s[i] != sep
  {
    if |s| == 0 then 0 else if s[0] == sep then 0 else 1 + IndexOf(s[1..], sep)
  }

  /** The fields of `s` between occurrences of `sep`, empty ones included,
      except that a trailing empty field (after a final `sep`, or the whole
      of an empty `s`) is dropped. */
  function Split(s: string, sep: char): seq<string>
    decreases |s|
  {
    if |s| == 0 then []
    else
      var k := IndexOf(s, sep);
      if k == |s| then [s] else [s[..k]] + Split(s[k + 1..], sep)
  }

  lemma IndexOfPrefix(x: string, rest: string, sep: char)
    requires sep !in x
    ensures IndexOf(x + rest, sep) == |x| + IndexOf(rest, sep)
  {
    if |x| == 0 {
      assert x + rest == rest;
    } else {
      assert (x + rest)[0] == x[0];
      assert (x + rest)[1..] == x[1..] + rest;
      IndexOfPrefix(x[1..], rest, sep);
    }
  }

  /** Splitting a join gives back the elements, provided none is empty and
      none contains the separator. */
  lemma {:induction false} SplitJoin(xs: seq<string>, sep: char)
    requires forall i :: 0 <= i < |xs| ==> xs[i] != "" && sep !in xs[i]
    ensures Split(Join(xs, sep), sep) == xs
  {
    if |xs| == 1 {
      IndexOfPrefix(xs[0], "", sep);
      assert xs[0] + "" == xs[0];
    } else if |xs| > 1 {
      var rest := Join(xs[1..], sep);
      var s := xs[0] + [sep] + rest;
      IndexOfPrefix(xs[0], [sep] + rest, sep);
      assert s == xs[0] + ([sep] + rest);
      assert s[..|xs[0]|] == xs[0];
      assert s[|xs[0]| + 1..] == rest;
      SplitJoin(xs[1..], sep);
    }
  }
}
