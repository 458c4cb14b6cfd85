/** Field paths: the component sequence of a FieldRef, its dotted rendering ('path.to.field')
    and the mutable FieldRef that the traversal extends and shrinks. */
module FieldPaths {

  /** The components of a dotted field path, in order from the document root. */
  type Path = seq<string>

  /** True when no component of the path contains the '.' separator. */
  predicate DotFree(p: Path)
  {
    forall i :: 0 <= i < |p| ==> '.' !in p[i]
  }

  /** The dotted rendering of a path: its components joined by '.'. The empty path renders as "". */
  function Dotted(p: Path): string
  {
    if |p| == 0 then ""
    else if |p| == 1 then p[0]
    else p[0] + "." + Dotted(p[1..])
  }

  /** The position of the first '.' in a string that has one. */
  function FirstDot(s: string): (i: nat)
    requires '.' in s
    ensures i < |s| && s[i] == '.' && '.' !in s[..i]
  {
    if s[0] == '.' then 0
    else
      assert '.' in s[1..] by { var j :| 0 <= j < |s| && s[j] == '.'; assert s[1..][j - 1] == '.'; }
      var k := FirstDot(s[1..]);
      assert s[..k + 1] == [s[0]] + s[1..][..k];
      k + 1
  }

  /** Splits a dotted string into its components, as a FieldRef parses a dotted field name. */
  function Split(s: string): (p: Path)
    decreases |s|
  {
    if '.' !in s then [s]
    else
      var i := FirstDot(s);
      [s[..i]] + Split(s[i + 1..])
  }

  /** Rendering the parts of a dotted string gives back the string, for every string. */
  lemma {:induction false} DottedSplit(s: string)
    ensures |Split(s)| >= 1
    ensures Dotted(Split(s)) == s
    decreases |s|
  {
    if '.' in s {
      var i := FirstDot(s);
      var rest := s[i + 1..];
      DottedSplit(rest);
      DottedCons(s[..i], Split(rest));
      AroundDot(s, i);
    }
  }

  /** Rendering a path of at least two components: its head, a dot, then the rest. */
  lemma DottedCons(head: string, tail: Path)
    requires |tail| >= 1
    ensures Dotted([head] + tail) == head + "." + Dotted(tail)
  {
    assert ([head] + tail)[1..] == tail;
  }

  /** A string is its text before a dot, the dot, and its text after it. */
  lemma AroundDot(s: string, i: nat)
    requires i < |s| && s[i] == '.'
    ensures s == s[..i] + "." + s[i + 1..]
  {
  }

  /** Splitting the dotted rendering of a non-empty path whose components hold no '.' gives back
      the path: on such paths the dotted key format loses nothing. */
  lemma {:induction false} SplitDotted(p: Path)
    requires |p| >= 1 && DotFree(p)
    ensures Split(Dotted(p)) == p
  {
    if |p| > 1 {
      var s := Dotted(p);
      assert s == p[0] + "." + Dotted(p[1..]);
      assert s[|p[0]|] == '.';
      assert s[..|p[0]|] == p[0];
      assert '.' in s;
      var i := FirstDot(s);
      assert i == |p[0]|;
      assert s[i + 1..] == Dotted(p[1..]);
      assert DotFree(p[1..]) by {
        forall j | 0 <= j < |p[1..]| ensures '.' !in p[1..][j] { assert p[1..][j] == p[j + 1]; }
      }
      SplitDotted(p[1..]);
    }
  }

  /** Two non-empty dot-free paths with the same dotted rendering are the same path. */
  lemma DottedInjective(p: Path, q: Path)
    requires |p| >= 1 && DotFree(p) && |q| >= 1 && DotFree(q)
    requires Dotted(p) == Dotted(q)
    ensures p == q
  {
    SplitDotted(p);
    SplitDotted(q);
  }

  /** The mutable path a traversal threads through the document (mongo's FieldRef). */
  class FieldRef {
    var parts: Path

    /** An empty path, the root of a document. */
    constructor ()
      ensures parts == []
    {
      parts := [];
    }

    /** The dotted rendering of the current path. */
    function DottedField(): string
      reads this
    {
      Dotted(parts)
    }

    method AppendPart(part: string)
      modifies this
      ensures parts == old(parts) + [part]
    {
      parts := parts + [part];
    }

    method RemoveLastPart()
      requires |parts| > 0
      modifies this
      ensures parts == old(parts)[..|old(parts)| - 1]
    {
      parts := parts[..|parts| - 1];
    }
  }
}
