/** Joining and splitting strings on a one-character separator.
    `Join` is the model of Go's `strings.Join(parts, sep)`; `Split` is its
    inverse on parts that do not contain the separator, and is used only to
    state what information a joined name keeps. */
module Text {

  /** The combined length of the parts. */
  function TotalLength(parts: seq<string>): nat
  {
    if |parts| == 0 then 0 else |parts[0]| + TotalLength(parts[1..])
  }

  /** The parts, in order, with `sep` between each neighbouring pair: no
      parts give the empty string, one part gives itself, and more parts
      start with the first part and a separator. The result holds every
      character of every part plus one separator per gap. */
  function Join(parts: seq<string>, sep: char): (r: string)
    ensures |parts| == 0 ==> r == ""
    ensures |parts| == 1 ==> r == parts[0]
    ensures |parts| > 0 ==> |r| + 1 == TotalLength(parts) + |parts|
    ensures |parts| >= 2 ==> |r| > |parts[0]| && r[..|parts[0]|] == parts[0] && r[|parts[0]|] == sep
  {
    if |parts| == 0 then ""
    else if |parts| == 1 then parts[0]
    else parts[0] + [sep] + Join(parts[1..], sep)
  }

  /** The maximal separator-free pieces of `s`, in order. */
  function Split(s: string, sep: char): (parts: seq<string>)
    ensures |parts| > 0
  {
    if |s| == 0 then [""]
    else
      var rest := Split(s[1..], sep);
      if s[0] == sep then [""] + rest
      else [[s[0]] + rest[0]] + rest[1..]
  }

  /** No part contains the separator. */
  predicate SeparatorFree(parts: seq<string>, sep: char)
  {
    forall i :: 0 <= i < |parts| ==> sep !in parts[i]
  }

  lemma {:induction false} SplitPlain(a: string, sep: char)
    requires sep !in a
    ensures Split(a, sep) == [a]
  {
    if |a| > 0 {
      SplitPlain(a[1..], sep);
      assert [a[0]] + a[1..] == a;
    }
  }

  lemma {:induction false} SplitAtSeparator(a: string, sep: char, b: string)
    requires sep !in a
    ensures Split(a + [sep] + b, sep) == [a] + Split(b, sep)
  {
    if |a| == 0 {
      assert a + [sep] + b == [sep] + b;
      assert ([sep] + b)[1..] == b;
    } else {
      var s := a + [sep] + b;
      assert s[0] == a[0];
      assert s[1..] == a[1..] + [sep] + b;
      SplitAtSeparator(a[1..], sep, b);
      assert [a[0]] + a[1..] == a;
    }
  }

  /** Splitting a join gives the parts back, provided there is at least one
      part and none contains the separator. */
  lemma {:induction false} SplitJoin(parts: seq<string>, sep: char)
    requires |parts| > 0
    requires SeparatorFree(parts, sep)
    ensures Split(Join(parts, sep), sep) == parts
  {
    if |parts| == 1 {
      SplitPlain(parts[0], sep);
    } else {
      assert sep !in parts[0];
      SplitJoin(parts[1..], sep);
      SplitAtSeparator(parts[0], sep, Join(parts[1..], sep));
      assert [parts[0]] + parts[1..] == parts;
    }
  }

  /** Join is injective on non-empty separator-free part lists. */
  lemma JoinInjective(p: seq<string>, q: seq<string>, sep: char)
    requires |p| > 0 && |q| > 0
    requires SeparatorFree(p, sep) && SeparatorFree(q, sep)
    requires Join(p, sep) == Join(q, sep)
    ensures p == q
  {
    SplitJoin(p, sep);
    SplitJoin(q, sep);
  }
}
