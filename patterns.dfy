/** The two regular expressions of the extractor, `\{(.*)\}` for a
    `{title:value}` style label and `\((.*)\)` for the `(a,b)` alternatives
    of a JSON leaf. Go's engine returns the leftmost match; `.` does not
    match a newline and `.*` is greedy, so the match opens at the first
    opening bracket that has a closing bracket after it on the same line,
    and closes at the last closing bracket of that line. */
module Patterns {
  import opened Wrappers
  import opened GoText

  /** The text up to (not including) the first newline. */
  function LineOf(t: string): (l: string)
    ensures '\n' !in l
    ensures |l| <= |t| && l == t[..|l|]
    ensures |l| < |t| ==> t[|l|] == '\n'
  {
    var e := IndexOf(t, '\n');
    if e < 0 then t else t[..e]
  }

  /** Whether a closing bracket sits at or after position k, before the
      next newline. */
  predicate CloseAhead(s: string, close: char, k: nat)
    decreases |s| - k
  {
    k < |s| && s[k] != '\n' && (s[k] == close || CloseAhead(s, close, k + 1))
  }

  /** Whether an opening bracket at position i can start a match: a
      closing bracket follows it on the same line. */
  predicate CanOpen(s: string, open: char, close: char, i: nat)
    requires i < |s|
  {
    s[i] == open && CloseAhead(s, close, i + 1)
  }

  /** A line that does not start with a newline is its first character
      followed by the line of the rest. */
  lemma LineOfCons(t: string)
    requires |t| > 0 && t[0] != '\n'
    ensures LineOf(t) == [t[0]] + LineOf(t[1..])
  {
    var j := IndexOf(t[1..], '\n');
    assert IndexOf(t, '\n') == (if j < 0 then -1 else j + 1);
    if j < 0 {
      assert t == [t[0]] + t[1..];
    } else {
      assert t[..j + 1] == [t[0]] + t[1..][..j];
    }
  }

  /** CloseAhead reads the line after k. */
  lemma {:induction false} CloseAheadLine(s: string, close: char, k: nat)
    requires k <= |s|
    ensures CloseAhead(s, close, k) <==> close in LineOf(s[k..])
    decreases |s| - k
  {
    if k < |s| && s[k] != '\n' {
      CloseAheadLine(s, close, k + 1);
      LineOfCons(s[k..]);
      assert s[k..][1..] == s[k + 1..];
    } else if k < |s| {
      assert IndexOf(s[k..], '\n') == 0;
    }
  }

  /** An opening bracket can start a match exactly when the rest of its
      line holds a closing bracket. */
  lemma CanOpenIff(s: string, open: char, close: char, i: nat)
    requires i < |s|
    ensures CanOpen(s, open, close, i) <==> s[i] == open && close in LineOf(s[i + 1..])
  {
    CloseAheadLine(s, close, i + 1);
  }

  /** The first position at or after k that can start a match, or -1. */
  function OpenFrom(s: string, open: char, close: char, k: nat): (p: int)
    requires k <= |s|
    ensures p == -1 || (k <= p < |s| && CanOpen(s, open, close, p))
    ensures forall i :: k <= i < (if p == -1 then |s| else p) ==> !CanOpen(s, open, close, i)
    decreases |s| - k
  {
    if k == |s| then -1
    else if CanOpen(s, open, close, k) then k
    else OpenFrom(s, open, close, k + 1)
  }

  /** FindStringSubmatch(s)[1] for the pattern open (.*) close, or None
      when the pattern does not match: the match starts at the leftmost
      position that can open one, and the group runs to the last closing
      bracket of that line. */
  function Enclosed(s: string, open: char, close: char): Option<string> {
    var p := OpenFrom(s, open, close, 0);
    if p < 0 then None
    else
      CloseAheadLine(s, close, p + 1);
      var line := LineOf(s[p + 1..]);
      Some(line[..LastIndexOf(line, close)])
  }

  /** The pattern matches exactly when some opening bracket has a closing
      bracket after it on its line. */
  lemma EnclosedIff(s: string, open: char, close: char)
    ensures Enclosed(s, open, close).Some? <==> exists i :: 0 <= i < |s| && CanOpen(s, open, close, i)
  {
    if Enclosed(s, open, close).Some? {
      var p := EnclosedAt(s, open, close);
    } else {
      EnclosedNone(s, open, close);
    }
  }

  lemma EnclosedAt(s: string, open: char, close: char) returns (p: nat)
    requires Enclosed(s, open, close).Some?
    ensures p < |s| && CanOpen(s, open, close, p)
  {
    p := OpenFrom(s, open, close, 0);
  }

  lemma EnclosedNone(s: string, open: char, close: char)
    requires Enclosed(s, open, close).None?
    ensures forall i :: 0 <= i < |s| ==> !CanOpen(s, open, close, i)
  {
    var p := OpenFrom(s, open, close, 0);
  }

  /** The group never spans a line. */
  lemma EnclosedOneLine(s: string, open: char, close: char)
    requires Enclosed(s, open, close).Some?
    ensures '\n' !in Enclosed(s, open, close).value
  {
    var p := OpenFrom(s, open, close, 0);
    CloseAheadLine(s, close, p + 1);
    var line := LineOf(s[p + 1..]);
    NotInPrefix(line, LastIndexOf(line, close), '\n');
  }

  lemma NotInPrefix(t: string, q: nat, c: char)
    requires q <= |t| && c !in t
    ensures c !in t[..q]
  {
    assert forall k :: 0 <= k < q ==> t[..q][k] == t[k];
  }

  /** Where the match of Enclosed sits: it opens at the leftmost position
      that can open one, its group is followed by the closing bracket, and
      no closing bracket follows on that line (the greedy `.*`). */
  lemma EnclosedMatch(s: string, open: char, close: char) returns (p: nat, g: string)
    requires Enclosed(s, open, close).Some?
    ensures g == Enclosed(s, open, close).value
    ensures p < |s| && s[p] == open
    ensures forall i :: 0 <= i < p ==> !CanOpen(s, open, close, i)
    ensures p + |g| + 1 < |s| && s[p + 1..p + 1 + |g|] == g && s[p + 1 + |g|] == close
    ensures |g| < |LineOf(s[p + 1..])| && close !in LineOf(s[p + 1..])[|g| + 1..]
  {
    p := OpenFrom(s, open, close, 0);
    CanOpenIff(s, open, close, p);
    g := GroupInLine(s, p, close);
  }

  /** The group cut from the line after position p ends just before the
      last closing bracket of that line. */
  lemma GroupInLine(s: string, p: nat, close: char) returns (g: string)
    requires p < |s| && close in LineOf(s[p + 1..])
    ensures var line := LineOf(s[p + 1..]); g == line[..LastIndexOf(line, close)]
    ensures p + |g| + 1 < |s| && s[p + 1..p + 1 + |g|] == g && s[p + 1 + |g|] == close
    ensures |g| < |LineOf(s[p + 1..])| && close !in LineOf(s[p + 1..])[|g| + 1..]
  {
    var t := s[p + 1..];
    var line := LineOf(t);
    var q := LastIndexOf(line, close);
    g := line[..q];
    PrefixCut(t, line, q);
    SuffixSlice(s, p + 1, q);
    NoneAfter(line, q, close);
  }

  /** A cut of a prefix is a cut of the whole. */
  lemma PrefixCut(t: string, line: string, q: nat)
    requires |line| <= |t| && line == t[..|line|] && q < |line|
    ensures line[..q] == t[..q] && line[q] == t[q]
  {
  }

  /** Slicing after a suffix is slicing the whole, shifted. */
  lemma SuffixSlice(s: string, k: nat, q: nat)
    requires k + q < |s|
    ensures s[k..][..q] == s[k..k + q] && s[k..][q] == s[k + q]
  {
  }

  /** After the last occurrence nothing matches. */
  lemma NoneAfter(line: string, q: nat, c: char)
    requires q < |line| && forall k :: q < k < |line| ==> line[k] != c
    ensures c !in line[q + 1..]
  {
    var rest := line[q + 1..];
    assert forall k :: 0 <= k < |rest| ==> rest[k] == line[q + 1 + k];
  }

  /** The style label pattern `\{(.*)\}`: its capture group. */
  function StyleGroup(s: string): Option<string> {
    Enclosed(s, '{', '}')
  }

  /** The alternatives pattern `\((.*)\)`: its capture group. */
  function ValueGroup(s: string): Option<string> {
    Enclosed(s, '(', ')')
  }

  /** FindAllString(s, 1)[0] for `\{(.*)\}`: the whole match, brackets
      included. */
  function StyleMatch(s: string): (r: Option<string>)
    ensures r.Some? <==> StyleGroup(s).Some?
    ensures r.Some? ==> r.value == "{" + StyleGroup(s).value + "}"
  {
    match StyleGroup(s)
      case Some(g) => Some("{" + g + "}")
      case None => None
  }

  /** A selector made of one bracketed group, as in "{.rows-head:.rows-params}",
      captures everything between the outer brackets, closing brackets
      inside it included. */
  lemma StyleGroupOfBracketed(g: string)
    requires '\n' !in g
    ensures StyleGroup("{" + g + "}") == Some(g)
  {
    var s := "{" + g + "}";
    assert s[1..] == g + "}";
    assert LineOf(g + "}") == g + "}";
    assert CanOpen(s, '{', '}', 0) by {
      assert (g + "}")[|g|] == '}';
      CloseAheadLine(s, '}', 1);
    }
    assert LastIndexOf(g + "}", '}') == |g|;
    assert (g + "}")[..|g|] == g;
  }

  /** Greediness: the group runs to the last closing bracket of the line,
      over any closing brackets inside it, whatever follows the line. */
  lemma StyleGroupGreedy(g: string, t: string)
    requires '\n' !in g && '}' !in LineOf(t)
    ensures StyleGroup("{" + g + "}" + t) == Some(g)
  {
    var s := "{" + g + "}" + t;
    assert s[1..] == (g + "}") + t;
    NotInConcat('\n', g, "}");
    LineOfPrefix(g + "}", t);
    var line := g + "}" + LineOf(t);
    assert LineOf(s[1..]) == line;
    assert line[|g|] == '}';
    assert CanOpen(s, '{', '}', 0) by {
      CloseAheadLine(s, '}', 1);
    }
    var q := LastIndexOf(line, '}');
    assert q == |g|;
    assert line[..|g|] == g;
  }

  lemma NotInConcat(c: char, x: string, y: string)
    requires c !in x && c !in y
    ensures c !in x + y
  {
  }

  /** A line-break-free start is part of the line. */
  lemma {:induction false} LineOfPrefix(x: string, t: string)
    requires '\n' !in x
    ensures LineOf(x + t) == x + LineOf(t)
  {
    if |x| > 0 {
      assert (x + t)[0] == x[0];
      LineOfCons(x + t);
      assert (x + t)[1..] == x[1..] + t;
      LineOfPrefix(x[1..], t);
      assert [x[0]] + x[1..] == x;
    } else {
      assert x + t == t;
    }
  }
}
