/**
 * JavaScript `String.prototype.split("\n")` and `Array.prototype.join(sep)`,
 * the two string operations `drawTree` is built from.
 */
module Text {
  import opened Seqs

  /** Position of the first newline of `s`. */
  function FirstNewline(s: string): (i: nat)
    requires '\n' in s
    ensures i < |s| && s[i] == '\n'
    ensures forall k :: 0 <= k < i ==> s[k] != '\n'
    ensures '\n' !in s[..i]
  {
    if s[0] == '\n' then 0
    else
      assert '\n' in s[1..];
      var j := FirstNewline(s[1..]);
      assert s[..j + 1] == [s[0]] + s[1..][..j];
      j + 1
  }

  /** `s.split("\n")`: never empty, and "" splits into [""]. */
  function Split(s: string): (r: seq<string>)
    ensures |r| >= 1
    ensures forall l :: l in r ==> '\n' !in l
    decreases |s|
  {
    if '\n' !in s then [s]
    else
      var i := FirstNewline(s);
      [s[..i]] + Split(s[i + 1..])
  }

  /** `ls.join(sep)`: [] joins to "". */
  function Join(ls: seq<string>, sep: string): string
  {
    if |ls| == 0 then ""
    else if |ls| == 1 then ls[0]
    else ls[0] + sep + Join(ls[1..], sep)
  }

  /** The first newline is the one with no newline before it. */
  lemma FirstNewlineAt(s: string, i: nat)
    requires i < |s| && s[i] == '\n'
    requires forall k :: 0 <= k < i ==> s[k] != '\n'
    ensures FirstNewline(s) == i
  {
  }

  /** Splitting at a newline separates the two halves' lines. */
  lemma {:induction false} SplitConcat(a: string, b: string)
    ensures Split(a + "\n" + b) == Split(a) + Split(b)
    decreases |a|
  {
    if '\n' !in a {
      SplitFirstLine(a, b);
    } else {
      var i := FirstNewline(a);
      SplitInsideFirst(a, b, i);
      SplitConcat(a[i + 1..], b);
      SplitAt(a, i);
      FirstLineThenRest(Split(a + "\n" + b), Split(a), Split(b), a[..i],
                        Split(a[i + 1..]), Split(a[i + 1..] + "\n" + b));
    }
  }

  /** Both splits start with the same first line and agree after it. */
  lemma FirstLineThenRest(whole: seq<string>, left: seq<string>, right: seq<string>, first: string,
                          leftRest: seq<string>, wholeRest: seq<string>)
    requires whole == [first] + wholeRest && wholeRest == leftRest + right
    requires left == [first] + leftRest
    ensures whole == left + right
  {
  }

  /** Without a newline in `a`, `a` is the first line of `a + "\n" + b`. */
  lemma SplitFirstLine(a: string, b: string)
    requires '\n' !in a
    ensures Split(a + "\n" + b) == Split(a) + Split(b)
  {
    var s := a + "\n" + b;
    forall k | 0 <= k < |a| ensures s[k] != '\n' {
      assert s[k] == a[k];
    }
    SplitAt(s, |a|);
    assert s[..|a|] == a && s[|a| + 1..] == b;
  }

  /** With a first newline at `i` in `a`, the first line of `a + "\n" + b` is `a`'s. */
  lemma SplitInsideFirst(a: string, b: string, i: nat)
    requires '\n' in a && i == FirstNewline(a)
    ensures Split(a + "\n" + b) == [a[..i]] + Split(a[i + 1..] + "\n" + b)
  {
    var s := a + "\n" + b;
    forall k | 0 <= k < i ensures s[k] != '\n' {
      assert s[k] == a[k];
    }
    SplitAt(s, i);
    assert s[..i] == a[..i];
    assert s[i + 1..] == a[i + 1..] + "\n" + b;
  }

  /** The lines of `s` are what precedes its first newline, then the lines after it. */
  lemma SplitAt(s: string, i: nat)
    requires i < |s| && s[i] == '\n'
    requires forall k :: 0 <= k < i ==> s[k] != '\n'
    ensures Split(s) == [s[..i]] + Split(s[i + 1..])
  {
    FirstNewlineAt(s, i);
  }

  /** Joining the lines of `s` with "\n" gives back `s`. */
  lemma {:induction false} JoinSplit(s: string)
    ensures Join(Split(s), "\n") == s
    decreases |s|
  {
    if '\n' in s {
      var i := FirstNewline(s);
      JoinSplit(s[i + 1..]);
      JoinCons(s[..i], Split(s[i + 1..]), "\n");
      assert s == s[..i] + "\n" + s[i + 1..];
    }
  }

  /** Joining a line in front of at least one other adds it and one separator. */
  lemma JoinCons(x: string, rest: seq<string>, sep: string)
    requires |rest| >= 1
    ensures Join([x] + rest, sep) == x + sep + Join(rest, sep)
  {
    assert ([x] + rest)[1..] == rest;
  }

  /** The lines of a join are the lines of its parts, in order. */
  lemma {:induction false} SplitJoin(ls: seq<string>)
    requires |ls| >= 1
    ensures Split(Join(ls, "\n")) == Flatten(Map(ls, Split))
  {
    var m := Map(ls, Split);
    if |ls| == 1 {
      assert m == [Split(ls[0])];
      assert Flatten(m) == Split(ls[0]) + Flatten(m[1..]);
    } else {
      SplitConcat(ls[0], Join(ls[1..], "\n"));
      SplitJoin(ls[1..]);
      assert m[1..] == Map(ls[1..], Split);
    }
  }

  /** Joining newline-free lines and splitting again gives the same lines. */
  lemma {:induction false} SplitJoinLines(ls: seq<string>)
    requires |ls| >= 1
    requires forall i :: 0 <= i < |ls| ==> '\n' !in ls[i]
    ensures Split(Join(ls, "\n")) == ls
  {
    SplitJoin(ls);
    FlattenSingletons(ls);
  }

  lemma {:induction false} FlattenSingletons(ls: seq<string>)
    requires forall i :: 0 <= i < |ls| ==> '\n' !in ls[i]
    ensures Flatten(Map(ls, Split)) == ls
  {
    if ls != [] {
      var m := Map(ls, Split);
      assert m[1..] == Map(ls[1..], Split);
      FlattenSingletons(ls[1..]);
      assert ls == [ls[0]] + ls[1..];
    }
  }
}
