/** The ids load_json gives to pipes, sdk/fins/nodelib.hpp:384-405: the connection text, an arrow, the receiving node, a
    slash and its input port, with nothing escaped. Two connections with one id share one pipe. */
module PipeNames {
  /** `conn` is the text that split_conn splits, `dest` and `port` are where it goes. */
  datatype Connection = Connection(conn: string, dest: string, port: string)

  function Target(c: Connection): string {
    c.dest + "/" + c.port
  }

  function PipeId(c: Connection): string {
    c.conn + "->" + Target(c)
  }

  /** The text up to the separator and the text after it. */
  lemma Halves(a: string, sep: string, b: string)
    ensures (a + sep + b)[..|a|] == a && (a + sep + b)[|a|..][..|sep|] == sep && (a + sep + b)[|a| + |sep|..] == b
  {
  }

  lemma Regroup(a: string, sep: string, x: string, b: string)
    ensures a + sep + (x + sep + b) == a + sep + x + sep + b
  {
  }

  /** With the shorter first part first: equal texts with different first parts differ by a second separator. */
  lemma ArrowSplit(a: string, b: string, a': string, b': string)
    requires |a| < |a'|
    ensures a + "->" + b == a' + "->" + b' <==> exists x :: a' == a + "->" + x && b == x + "->" + b'
  {
    var text, text' := a + "->" + b, a' + "->" + b';
    Halves(a, "->", b);
    Halves(a', "->", b');
    if text == text' {
      assert text[|a|] == '-' && text[|a| + 1] == '>' && text'[|a'|] == '-';
      assert |a'| != |a| + 1;
      var x := a'[|a| + 2..];
      assert a' == text[..|a'|] == a + "->" + x;
      assert b == text[|a| + 2..] == x + "->" + b';
    }
    if x :| a' == a + "->" + x && b == x + "->" + b' {
      Regroup(a, "->", x, b');
    }
  }

  lemma SlashSplit(a: string, b: string, a': string, b': string)
    requires |a| < |a'|
    ensures a + "/" + b == a' + "/" + b' <==> exists x :: a' == a + "/" + x && b == x + "/" + b'
  {
    var text, text' := a + "/" + b, a' + "/" + b';
    Halves(a, "/", b);
    Halves(a', "/", b');
    if text == text' {
      assert text[|a|] == '/';
      var x := a'[|a| + 1..];
      assert a' == text[..|a'|] == a + "/" + x;
      assert b == text[|a| + 1..] == x + "/" + b';
    }
    if x :| a' == a + "/" + x && b == x + "/" + b' {
      Regroup(a, "/", x, b');
    }
  }

  /** The same target, once more split at a slash inside the node id. */
  ghost predicate SlashShift(c: Connection, d: Connection) {
    exists x :: d.dest == c.dest + "/" + x && c.port == x + "/" + d.port
  }

  /** The connection text of `d` goes on with an arrow where that of `c` ends. */
  ghost predicate ArrowShift(c: Connection, d: Connection) {
    exists x :: d.conn == c.conn + "->" + x && Target(c) == x + "->" + Target(d)
  }

  lemma SameTargetIff(c: Connection, d: Connection)
    requires |c.dest| <= |d.dest|
    ensures Target(c) == Target(d) <==> (c.dest == d.dest && c.port == d.port) || SlashShift(c, d)
  {
    if |c.dest| < |d.dest| {
      SlashSplit(c.dest, c.port, d.dest, d.port);
    } else {
      Halves(c.dest, "/", c.port);
      Halves(d.dest, "/", d.port);
    }
  }

  /** Two connections get the same pipe if and only if they are the same, or their texts can be split in another place:
      at a slash inside a node id, or at an arrow inside a connection. */
  lemma SameIdIff(c: Connection, d: Connection)
    ensures PipeId(c) == PipeId(d)
            <==> c == d || (c.conn == d.conn && (SlashShift(c, d) || SlashShift(d, c)))
                 || ArrowShift(c, d) || ArrowShift(d, c)
  {
    if |c.conn| < |d.conn| {
      ArrowSplit(c.conn, Target(c), d.conn, Target(d));
    } else if |d.conn| < |c.conn| {
      ArrowSplit(d.conn, Target(d), c.conn, Target(c));
    } else {
      SameConnIff(c, d);
    }
  }

  lemma SameConnIff(c: Connection, d: Connection)
    requires |c.conn| == |d.conn|
    ensures PipeId(c) == PipeId(d) <==> c.conn == d.conn && (c == d || SlashShift(c, d) || SlashShift(d, c))
    ensures !ArrowShift(c, d) && !ArrowShift(d, c)
  {
    Halves(c.conn, "->", Target(c));
    Halves(d.conn, "->", Target(d));
    if |c.dest| <= |d.dest| {
      SameTargetIff(c, d);
    } else {
      SameTargetIff(d, c);
    }
    if |c.dest| == |d.dest| {
      SameTargetIff(d, c);
    }
  }

  predicate HasArrow(s: string) {
    exists i :: 0 <= i < |s| - 1 && s[i] == '-' && s[i + 1] == '>'
  }

  /** So without an arrow in a connection and a slash in a node id, every connection has a pipe of its own. */
  lemma PlainIdsAreOwn(c: Connection, d: Connection)
    requires !HasArrow(c.conn) && !HasArrow(d.conn) && '/' !in c.dest && '/' !in d.dest
    ensures PipeId(c) == PipeId(d) <==> c == d
  {
    SameIdIff(c, d);
    NoShift(c, d);
    NoShift(d, c);
  }

  lemma NoShift(c: Connection, d: Connection)
    requires !HasArrow(d.conn) && '/' !in d.dest
    ensures !SlashShift(c, d) && !ArrowShift(c, d)
  {
    forall x ensures d.dest != c.dest + "/" + x {
      assert (c.dest + "/" + x)[|c.dest|] == '/';
    }
    forall x ensures d.conn != c.conn + "->" + x {
      var text := c.conn + "->" + x;
      assert text[|c.conn|] == '-' && text[|c.conn| + 1] == '>';
    }
  }

  /** Port o of node a to port i of a node x->b, and port o->x of node a to port i of node b, share one pipe. */
  lemma SharedPipe()
    ensures var c, d := Connection("a/o", "x->b", "i"), Connection("a/o->x", "b", "i");
            c != d && PipeId(c) == PipeId(d) == "a/o->x->b/i"
  {
  }
}
