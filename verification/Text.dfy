/** The std::string operations the parameter files go through. */
module Text {
  /** The position of the first `c`, |s| if there is none. */
  function Find(s: string, c: char): (pos: nat)
    ensures pos <= |s| && c !in s[..pos] && (pos < |s| ==> s[pos] == c)
    ensures pos == |s| <==> c !in s
  {
    if s == [] then 0 else if s[0] == c then 0 else 1 + Find(s[1..], c)
  }

  lemma {:induction false} FindIs(s: string, c: char, pos: nat)
    requires pos < |s| && s[pos] == c && c !in s[..pos]
    ensures Find(s, c) == pos
  {
    if pos > 0 {
      assert s[..pos][0] == s[0] && s[1..][..pos - 1] == s[..pos][1..];
      FindIs(s[1..], c, pos - 1);
    }
  }

  predicate Blank(c: char) {
    c == ' ' || c == '\t' || c == '\r' || c == '\n'
  }

  function TrimLeft(s: string): string {
    if s != [] && Blank(s[0]) then TrimLeft(s[1..]) else s
  }

  function TrimRight(s: string): string {
    if s != [] && Blank(s[|s| - 1]) then TrimRight(s[..|s| - 1]) else s
  }

  /** sdk/fins/agent/parameter_server.cpp:21-27. */
  function Trim(s: string): string {
    TrimRight(TrimLeft(s))
  }

  predicate AllBlank(s: string) {
    forall i :: 0 <= i < |s| ==> Blank(s[i])
  }

  /** Nothing to trim: empty, or no blank at either end. */
  predicate Tight(s: string) {
    s == [] || (!Blank(s[0]) && !Blank(s[|s| - 1]))
  }

  lemma {:induction false} TrimLeftBlank(blanks: string, s: string)
    requires AllBlank(blanks) && (s == [] || !Blank(s[0]))
    ensures TrimLeft(blanks + s) == s
  {
    if blanks == [] {
      assert blanks + s == s;
    } else {
      TrimLeftBlank(blanks[1..], s);
      assert (blanks + s)[1..] == blanks[1..] + s;
    }
  }

  lemma {:induction false} TrimRightBlank(s: string, blanks: string)
    requires AllBlank(blanks) && (s == [] || !Blank(s[|s| - 1]))
    ensures TrimRight(s + blanks) == s
  {
    if blanks == [] {
      assert s + blanks == s;
    } else {
      TrimRightBlank(s, blanks[..|blanks| - 1]);
      assert (s + blanks)[..|s + blanks| - 1] == s + blanks[..|blanks| - 1];
    }
  }

  /** Trim takes away exactly the blanks around a tight text. */
  lemma TrimIs(before: string, s: string, after: string)
    requires AllBlank(before) && AllBlank(after) && Tight(s)
    ensures Trim(before + s + after) == s
  {
    if s == [] {
      assert before + s + after == (before + after) + [];
      TrimLeftBlank(before + after, []);
    } else {
      assert before + s + after == before + (s + after);
      TrimLeftBlank(before, s + after);
      TrimRightBlank(s, after);
    }
  }

  /** What repeated std::getline calls give: the pieces between delimiters, a trailing empty piece left out. */
  function Split(s: string, delim: char): (pieces: seq<string>)
    decreases |s|
  {
    if s == [] then []
    else
      var pos := Find(s, delim);
      if pos == |s| then [s] else [s[..pos]] + Split(s[pos + 1..], delim)
  }

  /** A piece, its delimiter and the rest. */
  lemma SplitCons(piece: string, delim: char, rest: string)
    requires delim !in piece
    ensures Split(piece + [delim] + rest, delim) == [piece] + Split(rest, delim)
  {
    var s := piece + [delim] + rest;
    assert s[..|piece|] == piece && s[|piece|] == delim;
    FindIs(s, delim, |piece|);
    assert s[|piece| + 1..] == rest;
  }

  function Spaces(n: nat): (s: string)
    ensures |s| == n && forall i :: 0 <= i < n ==> s[i] == ' '
  {
    seq(n, _ => ' ')
  }
}
