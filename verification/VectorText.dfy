/** Int vectors as text: printing (sdk/fins/type/string_convert.hpp:19-31), reading back
    (sdk/fins/agent/parameter_server.hpp:120-128 and 229-256), and the way through a parameter file in between. */
module VectorText {
  import opened Text
  import opened Wrappers
  import opened ParameterServer

  const INT_MIN: int := -0x8000_0000
  const INT_MAX: int := 0x7FFF_FFFF

  predicate IsInt(n: int) {
    INT_MIN <= n <= INT_MAX
  }

  // ---------- one number ----------

  predicate IsDigit(c: char) {
    '0' <= c <= '9'
  }

  function DigitChar(d: nat): (c: char)
    requires d < 10
    ensures IsDigit(c) && DigitValue(c) == d
  {
    "0123456789"[d]
  }

  function DigitValue(c: char): (d: nat)
    requires IsDigit(c)
    ensures d < 10
  {
    c as int - '0' as int
  }

  function Digits(n: nat): (s: string)
    ensures s != [] && AllDigits(s)
  {
    if n < 10 then [DigitChar(n)] else Digits(n / 10) + [DigitChar(n % 10)]
  }

  predicate AllDigits(s: string) {
    forall i :: 0 <= i < |s| ==> IsDigit(s[i])
  }

  function NatValue(s: string): nat
    requires AllDigits(s)
  {
    if s == [] then 0 else 10 * NatValue(s[..|s| - 1]) + DigitValue(s[|s| - 1])
  }

  /** operator<< of an int. */
  function IntText(n: int): string {
    if n < 0 then "-" + Digits(-n) else Digits(n)
  }

  predicate IsSpace(c: char) {
    c == ' ' || '\t' <= c <= '\r'
  }

  function SkipSpaces(s: string): string {
    if s != [] && IsSpace(s[0]) then SkipSpaces(s[1..]) else s
  }

  /** The longest prefix of digits. */
  function LeadingDigits(s: string): (digits: string)
    ensures AllDigits(digits) && digits <= s
  {
    if s != [] && IsDigit(s[0]) then [s[0]] + LeadingDigits(s[1..]) else []
  }

  /** std::stoi: leading white space, a sign, digits, anything after them; it throws without digits or out of range. */
  function Stoi(s: string): (r: Option<int>) {
    var t := SkipSpaces(s);
    if t != [] && t[0] == '-' then Signed(-1, t[1..])
    else if t != [] && t[0] == '+' then Signed(1, t[1..])
    else Signed(1, t)
  }

  function Signed(sign: int, s: string): (r: Option<int>)
    ensures r.Some? ==> IsInt(r.value)
  {
    var digits := LeadingDigits(s);
    if digits == [] || !IsInt(sign * NatValue(digits)) then None else Some(sign * NatValue(digits))
  }

  lemma {:induction false} DigitsValue(n: nat)
    ensures NatValue(Digits(n)) == n
  {
    if n >= 10 {
      DigitsValue(n / 10);
      assert Digits(n)[..|Digits(n)| - 1] == Digits(n / 10);
    } else {
      assert [DigitChar(n)][..0] == [];
    }
  }

  lemma {:induction false} AllLeading(s: string)
    requires AllDigits(s)
    ensures LeadingDigits(s) == s
  {
    if s != [] {
      AllLeading(s[1..]);
    }
  }

  lemma SignedDigits(sign: int, n: nat)
    requires IsInt(sign * n)
    ensures Signed(sign, Digits(n)) == Some(sign * n)
  {
    DigitsValue(n);
    AllLeading(Digits(n));
  }

  lemma NegativeRoundTrip(n: int)
    requires n < 0 && IsInt(n)
    ensures Parses("-" + Digits(-n), n)
  {
    var digits := Digits(-n);
    SignedDigits(-1, -n);
    NegativeParses(digits, n);
  }

  lemma NegativeParses(digits: string, n: int)
    requires Signed(-1, digits) == Some(n)
    ensures Parses("-" + digits, n)
  {
    NegativeText(digits);
  }

  lemma PositiveRoundTrip(n: nat)
    requires IsInt(n)
    ensures Parses(Digits(n), n)
  {
    PlainStart(Digits(n));
    SignedDigits(1, n);
  }

  ghost predicate Parses(s: string, n: int) {
    Stoi(s) == Some(n)
  }

  /** Every int survives printing and parsing. */
  lemma IntRoundTrip(n: int)
    requires IsInt(n)
    ensures Parses(IntText(n), n)
  {
    if n < 0 {
      NegativeRoundTrip(n);
    } else {
      PositiveRoundTrip(n);
    }
  }

  lemma NegativeText(digits: string)
    ensures Stoi("-" + digits) == Signed(-1, digits)
  {
    var text := "-" + digits;
    assert SkipSpaces(text) == text && text[1..] == digits;
  }

  lemma PlainStart(digits: string)
    requires digits != [] && AllDigits(digits)
    ensures Stoi(digits) == Signed(1, digits)
  {
    assert IsDigit(digits[0]);
    assert SkipSpaces(digits) == digits;
  }

  lemma {:induction false} SpacesSkipped(spaces: string, s: string)
    requires (forall c :: c in spaces ==> IsSpace(c)) && (s == [] || !IsSpace(s[0]))
    ensures SkipSpaces(spaces + s) == s
  {
    if spaces == [] {
      assert spaces + s == s;
    } else {
      assert (spaces + s)[0] == spaces[0] && (spaces + s)[1..] == spaces[1..] + s;
      SpacesSkipped(spaces[1..], s);
    }
  }

  lemma {:induction false} LeadingStops(digits: string, rest: string)
    requires AllDigits(digits) && (rest == [] || !IsDigit(rest[0]))
    ensures LeadingDigits(digits + rest) == digits
  {
    if digits == [] {
      assert digits + rest == rest;
    } else {
      assert (digits + rest)[0] == digits[0] && (digits + rest)[1..] == digits[1..] + rest;
      LeadingStops(digits[1..], rest);
      assert digits == [digits[0]] + digits[1..];
    }
  }

  lemma SignedReads(sign: int, digits: string, rest: string)
    requires AllDigits(digits) && (rest == [] || !IsDigit(rest[0]))
    ensures var n := sign * NatValue(digits);
            Signed(sign, digits + rest) == if digits != [] && IsInt(n) then Some(n) else None
  {
    LeadingStops(digits, rest);
  }

  /** std::stoi reads a number after white space and a sign, whatever follows its digits, and refuses a text without
      digits there or with a number out of range. */
  lemma StoiMinus(spaces: string, digits: string, rest: string)
    requires forall c :: c in spaces ==> IsSpace(c)
    requires AllDigits(digits) && (rest == [] || !IsDigit(rest[0]))
    ensures var n := -1 * NatValue(digits);
            Stoi(spaces + ("-" + (digits + rest))) == if digits != [] && IsInt(n) then Some(n) else None
  {
    var text := digits + rest;
    SignedReads(-1, digits, rest);
    SpacesDoNotCount(spaces, "-" + text);
    assert Stoi("-" + text) == Signed(-1, text) by {
      NegativeText(text);
    }
  }

  lemma StoiPlus(spaces: string, digits: string, rest: string)
    requires forall c :: c in spaces ==> IsSpace(c)
    requires AllDigits(digits) && (rest == [] || !IsDigit(rest[0]))
    ensures var n: int := NatValue(digits);
            Stoi(spaces + ("+" + (digits + rest))) == if digits != [] && IsInt(n) then Some(n) else None
  {
    SignedReads(1, digits, rest);
    PositiveText(digits + rest);
    SpacesDoNotCount(spaces, "+" + (digits + rest));
  }

  lemma PositiveText(text: string)
    ensures Stoi("+" + text) == Signed(1, text)
  {
    var signed := "+" + text;
    assert SkipSpaces(signed) == signed && signed[1..] == text;
  }

  lemma SpacesDoNotCount(spaces: string, s: string)
    requires (forall c :: c in spaces ==> IsSpace(c)) && (s == [] || !IsSpace(s[0]))
    ensures Stoi(spaces + s) == Stoi(s)
  {
    SpacesSkipped(spaces, s);
    assert SkipSpaces(s) == s;
  }

  lemma StoiUnsigned(spaces: string, digits: string, rest: string)
    requires forall c :: c in spaces ==> IsSpace(c)
    requires AllDigits(digits) && digits != [] && (rest == [] || !IsDigit(rest[0]))
    ensures var n: int := NatValue(digits);
            Stoi(spaces + (digits + rest)) == if IsInt(n) then Some(n) else None
  {
    var text := digits + rest;
    SignedReads(1, digits, rest);
    assert text[0] == digits[0] && IsDigit(digits[0]);
    SpacesDoNotCount(spaces, text);
    assert SkipSpaces(text) == text;
  }

  lemma StoiRefuses(spaces: string, rest: string)
    requires forall c :: c in spaces ==> IsSpace(c)
    requires rest == [] || !(IsSpace(rest[0]) || IsDigit(rest[0]) || rest[0] == '-' || rest[0] == '+')
    ensures Stoi(spaces + rest) == None
  {
    SpacesSkipped(spaces, rest);
  }

  // ---------- the vector ----------

  /** The numbers, separated by ", ". */
  function Items(v: seq<int>): string {
    if v == [] then "" else if |v| == 1 then IntText(v[0]) else IntText(v[0]) + ", " + Items(v[1..])
  }

  function VectorString(v: seq<int>): string {
    "[" + Items(v) + "]"
  }

  method ToString(vec: seq<int>) returns (ss: string)
    ensures ss == VectorString(vec)
  {
    ss := "[";
    for i := 0 to |vec|
      invariant ss + Items(vec[i..]) == "[" + Items(vec)
    {
      assert vec[i..][1..] == vec[i + 1..];
      ss := ss + IntText(vec[i]);
      if i < |vec| - 1 {
        ss := ss + ", ";
      }
    }
    ss := ss + "]";
  }

  /** What one piece between commas contributes: nothing if it is blank or stoi throws. */
  function ItemOf(piece: string): seq<int> {
    var clean := Trim(piece);
    if clean == "" then []
    else
      match Stoi(clean)
      case Some(n) => [n]
      case None => []
  }

  function ItemsOf(pieces: seq<string>): seq<int> {
    if pieces == [] then [] else ItemOf(pieces[0]) + ItemsOf(pieces[1..])
  }

  /** The text between the first brackets; if they are the wrong way round, the length wraps around and everything
      after the opening one is taken. */
  function Bracketed(val: string): (r: Option<string>)
    ensures r.Some? <==> '[' in val && ']' in val
  {
    var start, end := Find(val, '['), Find(val, ']');
    if start == |val| || end == |val| then None
    else if start < end then Some(val[start + 1..end])
    else Some(val[start + 1..])
  }

  function IntsOf(val: string): seq<int> {
    match Bracketed(val)
    case None => []
    case Some(s) => ItemsOf(Split(s, ','))
  }

  /** A piece that is blank, or that std::stoi refuses once trimmed, contributes nothing; any other its number. */
  lemma PieceContributes(piece: string)
    ensures AllBlank(piece) ==> ItemOf(piece) == []
    ensures Trim(piece) != "" ==>
              |ItemOf(piece)| <= 1 && (ItemOf(piece) == [] <==> Stoi(Trim(piece)).None?)
              && forall n :: n in ItemOf(piece) ==> Stoi(Trim(piece)) == Some(n)
  {
    if AllBlank(piece) {
      TrimIs(piece, [], []);
      assert piece + [] + [] == piece;
    }
  }

  /** What is read lies between the first opening and the first closing bracket, if those come in that order. */
  lemma BracketsFound(before: string, inside: string, after: string)
    requires '[' !in before && ']' !in before && ']' !in inside
    ensures Bracketed(before + "[" + inside + "]" + after) == Some(inside)
  {
    var val := before + "[" + inside + "]" + after;
    var end := |before| + 1 + |inside|;
    assert val[..|before|] == before && val[|before|] == '[';
    FindIs(val, '[', |before|);
    assert val[..end] == before + "[" + inside && val[end] == ']';
    FindIs(val, ']', end);
    assert val[|before| + 1..end] == inside;
  }

  lemma ItemsOfStep(pieces: seq<string>, i: nat)
    requires i < |pieces|
    ensures ItemsOf(pieces[i..]) == ItemOf(pieces[i]) + ItemsOf(pieces[i + 1..])
  {
    assert pieces[i..][1..] == pieces[i + 1..];
  }

  method ConvertItem(item: string) returns (n: Option<int>)
    ensures ItemOf(item) == if n.Some? then [n.value] else []
  {
    var cleanItem := Trim(item);
    if cleanItem == "" {
      return None;
    }
    n := Stoi(cleanItem);
  }

  ghost predicate SoFar(res: seq<int>, pieces: seq<string>, i: nat)
    requires i <= |pieces|
  {
    res + ItemsOf(pieces[i..]) == ItemsOf(pieces)
  }

  lemma SoFarStep(res: seq<int>, pieces: seq<string>, i: nat)
    requires i < |pieces| && SoFar(res, pieces, i)
    ensures SoFar(res + ItemOf(pieces[i]), pieces, i + 1)
  {
    ItemsOfStep(pieces, i);
  }

  method ConvertPieces(pieces: seq<string>) returns (res: seq<int>)
    ensures res == ItemsOf(pieces)
  {
    res := [];
    assert pieces[0..] == pieces;
    for i := 0 to |pieces|
      invariant SoFar(res, pieces, i)
    {
      SoFarStep(res, pieces, i);
      var n := ConvertItem(pieces[i]);
      if n.Some? {
        res := res + [n.value];
      } else {
        assert res + [] == res;
      }
    }
    assert pieces[|pieces|..] == [];
  }

  method ConvertInts(val: string) returns (res: seq<int>)
    ensures res == IntsOf(val)
  {
    var s := Bracketed(val);
    if s.None? {
      return [];
    }
    res := ConvertPieces(Split(s.value, ','));
  }

  /** No blank, bracket, comma or other mark but the sign. */
  predicate NumberChars(s: string) {
    forall i :: 0 <= i < |s| ==> IsDigit(s[i]) || s[i] == '-'
  }

  lemma IntTextChars(n: int)
    ensures IntText(n) != [] && NumberChars(IntText(n)) && Tight(IntText(n)) && ',' !in IntText(n)
  {
  }

  lemma ItemRoundTrip(n: int, gap: string)
    requires IsInt(n) && (gap == "" || gap == " ")
    ensures ItemOf(gap + IntText(n)) == [n]
  {
    IntTextChars(n);
    TrimBefore(gap, IntText(n));
    IntRoundTrip(n);
  }

  lemma ItemsOfCons(piece: string, pieces: seq<string>)
    ensures ItemsOf([piece] + pieces) == ItemOf(piece) + ItemsOf(pieces)
  {
    assert ([piece] + pieces)[1..] == pieces;
  }

  lemma PieceChars(n: int, gap: string)
    requires gap == "" || gap == " "
    ensures gap + IntText(n) != [] && ',' !in gap + IntText(n)
  {
    IntTextChars(n);
  }

  ghost predicate ReadsBack(s: string, v: seq<int>) {
    ItemsOf(Split(s, ',')) == v
  }

  lemma LastPiece(piece: string, n: int)
    requires ',' !in piece && piece != "" && ItemOf(piece) == [n]
    ensures ReadsBack(piece, [n])
  {
    ItemsOfCons(piece, []);
    assert [piece] + [] == [piece];
  }

  lemma FirstPiece(piece: string, rest: string, n: int, v: seq<int>)
    requires ',' !in piece && ItemOf(piece) == [n] && ReadsBack(rest, v)
    ensures ReadsBack(piece + [','] + rest, [n] + v)
  {
    SplitCons(piece, ',', rest);
    ItemsOfCons(piece, Split(rest, ','));
  }

  lemma {:induction false} ItemsRoundTrip(v: seq<int>, gap: string)
    requires (forall n :: n in v ==> IsInt(n)) && (gap == "" || gap == " ") && v != []
    ensures ReadsBack(gap + Items(v), v)
  {
    var piece := gap + IntText(v[0]);
    PieceChars(v[0], gap);
    ItemRoundTrip(v[0], gap);
    if |v| == 1 {
      LastPiece(piece, v[0]);
      assert [v[0]] == v;
    } else {
      ItemsRoundTrip(v[1..], " ");
      FirstPiece(piece, " " + Items(v[1..]), v[0], v[1..]);
      ItemsSplit(v, gap);
      assert [v[0]] + v[1..] == v;
    }
  }

  lemma ItemsSplit(v: seq<int>, gap: string)
    requires |v| > 1
    ensures gap + Items(v) == gap + IntText(v[0]) + [','] + (" " + Items(v[1..]))
  {
    var first, rest := IntText(v[0]), Items(v[1..]);
    assert ", " == [','] + " ";
    assert Items(v) == first + ", " + rest;
    CommaRegroup(gap, first, rest);
  }

  lemma CommaRegroup(gap: string, first: string, rest: string)
    ensures gap + (first + ([','] + " ") + rest) == gap + first + [','] + (" " + rest)
  {
  }

  /** The marks of a printed vector: isolated single spaces, no comment, brackets only around it. */
  ghost predicate PlainText(s: string) {
    && '#' !in s && '[' !in s && ']' !in s && '\n' !in s
    && BlanksIsolated(s)
  }

  /** Every blank has a non-blank character on either side. */
  ghost predicate BlanksIsolated(s: string) {
    forall i :: 0 <= i < |s| && Blank(s[i]) ==> 0 < i < |s| - 1 && !Blank(s[i - 1]) && !Blank(s[i + 1])
  }

  lemma {:induction false} ItemsPlain(v: seq<int>)
    ensures PlainText(Items(v)) && (v != [] ==> Items(v) != [])
  {
    if v != [] {
      IntTextChars(v[0]);
      if |v| > 1 {
        ItemsPlain(v[1..]);
        JoinPlain(IntText(v[0]), Items(v[1..]));
      }
    }
  }

  lemma JoinPlain(number: string, rest: string)
    requires NumberChars(number) && number != [] && PlainText(rest) && rest != []
    ensures PlainText(number + ", " + rest)
  {
    var s := number + ", " + rest;
    assert s[|number|] == ',' && s[|number| + 1] == ' ';
    assert forall i :: 0 <= i < |number| ==> s[i] == number[i];
    assert forall i :: 0 <= i < |rest| ==> s[|number| + 2 + i] == rest[i];
    forall i | 0 <= i < |s| && Blank(s[i])
      ensures 0 < i < |s| - 1 && !Blank(s[i - 1]) && !Blank(s[i + 1])
    {
      if i == |number| + 1 {
        assert s[i + 1] == rest[0] && !Blank(rest[0]);
      } else {
        var k := i - |number| - 2;
        assert s[i] == rest[k] && s[i - 1] == rest[k - 1] && s[i + 1] == rest[k + 1];
      }
    }
  }

  /** The brackets of a printed vector are found, and only its numbers are between them. */
  lemma VectorBrackets(v: seq<int>)
    ensures Bracketed(VectorString(v)) == Some(Items(v))
  {
    ItemsPlain(v);
    var s := VectorString(v);
    assert s[0] == '[' && s[|s| - 1] == ']' && s[..|s| - 1] == "[" + Items(v);
    FindIs(s, '[', 0);
    FindIs(s, ']', |s| - 1);
    assert s[1..|s| - 1] == Items(v);
  }

  /** Printing a vector and reading it back gives the vector, the empty one included. */
  lemma VectorRoundTrip(v: seq<int>)
    requires forall n :: n in v ==> IsInt(n)
    ensures IntsOf(VectorString(v)) == v
  {
    VectorBrackets(v);
    if v != [] {
      ItemsRoundTrip(v, "");
      assert "" + Items(v) == Items(v);
    }
  }

  // ---------- through a parameter file ----------

  /** `t` is `s` with some of its spaces turned into line breaks. */
  ghost predicate BrokenAt(s: string, t: string) {
    |t| == |s| && forall i :: 0 <= i < |s| ==> t[i] == s[i] || (s[i] == ' ' && t[i] == '\n')
  }

  function Rejoined(t: string): (s: string)
    ensures |s| == |t| && forall i :: 0 <= i < |t| ==> s[i] == if t[i] == '\n' then ' ' else t[i]
  {
    seq(|t|, i requires 0 <= i < |t| => if t[i] == '\n' then ' ' else t[i])
  }

  /** The rest of a broken vector: it ends at its only closing bracket. */
  ghost predicate Ending(u: string) {
    u != [] && u[|u| - 1] == ']' && ']' !in u[..|u| - 1] && '#' !in u && BlanksIsolated(u)
  }

  lemma EndingTail(u: string, pos: nat)
    requires Ending(u) && pos < |u| && u[pos] == '\n'
    ensures 0 < pos < |u| - 1 && Ending(u[pos + 1..])
    ensures Tight(u[..pos]) && '#' !in u[..pos] && ']' !in u[..pos]
  {
    var tail := u[pos + 1..];
    assert forall i :: 0 <= i < |tail| ==> tail[i] == u[pos + 1 + i];
    forall i | 0 <= i < |tail| && Blank(tail[i])
      ensures 0 < i < |tail| - 1 && !Blank(tail[i - 1]) && !Blank(tail[i + 1])
    {
      assert tail[i] == u[pos + 1 + i];
      assert i > 0;
      assert tail[i - 1] == u[pos + i] && tail[i + 1] == u[pos + 2 + i];
    }
    assert forall i :: 0 <= i < |tail| - 1 ==> tail[i] == u[..|u| - 1][pos + 1 + i];
    assert forall i :: 0 <= i < pos ==> u[..pos][i] == u[..|u| - 1][i];
  }

  lemma RejoinedSplit(u: string, pos: nat)
    requires pos < |u| && u[pos] == '\n' && '\n' !in u[..pos]
    ensures Rejoined(u) == u[..pos] + " " + Rejoined(u[pos + 1..])
  {
    assert forall i :: 0 <= i < pos ==> u[..pos][i] == u[i];
    var tail := u[pos + 1..];
    assert forall i :: 0 <= i < |tail| ==> tail[i] == u[pos + 1 + i];
  }

  lemma TrimTight(s: string)
    requires Tight(s)
    ensures Trim(s) == s
  {
    TrimBefore("", s);
    assert "" + s == s;
  }

  lemma MoreLoads(st: Loader, line: string)
    requires st.multiline && line != "" && Tight(line) && '#' !in line
    ensures LoadLine(st, line) == LoadMore(st, line)
  {
    TrimTight(line);
    assert WithoutComment(line) == line;
  }

  lemma LoadCons(st: Loader, line: string, lines: seq<string>)
    ensures LoadLines(st, [line] + lines) == LoadLines(LoadLine(st, line), lines)
  {
    LoadConcat(st, [line], lines);
    assert [line][..0] == [];
    assert LoadLines(st, []) == st;
  }

  /** Loading the lines of `u` collects them, joined by spaces, and stores the value under the pending key. */
  ghost predicate Collects(st: Loader, u: string) {
    LoadLines(st, Split(u, '\n')).params == st.params[st.pendingKey := st.pendingValue + " " + Rejoined(u)]
  }

  lemma LastLineCollects(st: Loader, u: string)
    requires st.multiline && Ending(u) && '\n' !in u
    ensures Collects(st, u)
  {
    assert Rejoined(u) == u;
    MoreLoads(st, u);
    LoadCons(st, u, []);
    assert [u] + [] == [u];
    assert u[|u| - 1] in u;
  }

  lemma NextLineLoads(st: Loader, line: string, tail: string)
    requires st.multiline && line != "" && Tight(line) && '#' !in line && ']' !in line && '\n' !in line
    ensures LoadLines(st, Split(line + ['\n'] + tail, '\n'))
            == LoadLines(st.(pendingValue := st.pendingValue + " " + line), Split(tail, '\n'))
  {
    SplitCons(line, '\n', tail);
    MoreLoads(st, line);
    LoadCons(st, line, Split(tail, '\n'));
  }

  lemma SplitAtBreak(u: string, pos: nat)
    requires pos < |u| && u[pos] == '\n'
    ensures u == u[..pos] + ['\n'] + u[pos + 1..]
  {
  }

  lemma Regroup(a: string, b: string, c: string, d: string)
    ensures a + b + c + d == a + (b + c + d)
  {
  }

  lemma NextLineCollects(st: Loader, u: string, pos: nat)
    requires st.multiline && Ending(u) && pos < |u| && u[pos] == '\n' && '\n' !in u[..pos]
    requires Collects(st.(pendingValue := st.pendingValue + " " + u[..pos]), u[pos + 1..])
    ensures Collects(st, u)
  {
    var line, tail := u[..pos], u[pos + 1..];
    EndingTail(u, pos);
    SplitAtBreak(u, pos);
    NextLineLoads(st, line, tail);
    RejoinedSplit(u, pos);
    Regroup(st.pendingValue + " ", line, " ", Rejoined(tail));
  }

  lemma {:induction false} RestCollects(st: Loader, u: string)
    requires st.multiline && Ending(u)
    ensures Collects(st, u)
    decreases |u|
  {
    var pos := Find(u, '\n');
    if pos == |u| {
      LastLineCollects(st, u);
    } else {
      EndingTail(u, pos);
      RestCollects(st.(pendingValue := st.pendingValue + " " + u[..pos]), u[pos + 1..]);
      NextLineCollects(st, u, pos);
    }
  }

  /** Breaking a printed vector at spaces keeps the marks it is read back by. */
  lemma BrokenVector(v: seq<int>, t: string)
    requires BrokenAt(VectorString(v), t)
    ensures Ending(t) && t[0] == '[' && Rejoined(t) == VectorString(v)
  {
    var s := VectorString(v);
    ItemsPlain(v);
    assert forall i :: 0 < i < |s| - 1 ==> s[i] == Items(v)[i - 1];
    forall i | 0 <= i < |t| && Blank(t[i]) ensures 0 < i < |t| - 1 && !Blank(t[i - 1]) && !Blank(t[i + 1]) {
      var items := Items(v);
      assert Blank(s[i]) && 0 < i < |s| - 1 && s[i] == items[i - 1];
      assert 0 < i - 1 < |items| - 1;
      assert s[i - 1] == items[i - 2] && s[i + 1] == items[i];
    }
    forall i | 0 <= i < |t| - 1 ensures t[i] != ']' && t[i] != '#' {
      assert i > 0 ==> s[i] in Items(v);
    }
  }

  /** The first line of the text: the key and the vector up to its first line break. */
  lemma FirstLineLoads(st: Loader, key: string, value: string)
    requires st == Fresh(st.params) && SafeKey(key) && Tight(value) && value != "" && '#' !in value
    ensures LoadLine(st, key + ": " + value) == LoadKey(st, 0, key, value)
  {
    var line := key + ": " + value;
    assert line == Spaces(0) + key + ":" + (" " + value);
    KeyLineParts(line, 0, key, " ", value);
    LoadsAsKey(st, line, 0, key, value);
  }

  lemma RootPath(params: map<string, string>, key: string, value: string)
    requires value != ""
    ensures var st := LoadKey(Fresh(params), 0, key, value);
            if OpensArray(value)
            then st.multiline && st.pendingKey == key && st.pendingValue == value && st.params == params
            else st.params == params[key := value]
  {
    var stack := [Scope(0, key)];
    assert PopTo([], 0) + [Scope(0, key)] == stack;
    assert stack[..|stack| - 1] == [] && Keys(stack) == [key];
    assert Path(stack) == key;
  }

  lemma WholeVectorLoads(params: map<string, string>, key: string, t: string)
    requires SafeKey(key) && Ending(t) && t[0] == '[' && '\n' !in t
    ensures LoadLine(Fresh(params), key + ": " + t).params == params[key := t]
  {
    FirstLineLoads(Fresh(params), key, t);
    assert t[|t| - 1] in t;
    RootPath(params, key, t);
  }

  lemma OneLineLoads(params: map<string, string>, line: string)
    requires '\n' !in line
    ensures Loaded(params, line) == LoadLine(Fresh(params), line).params
  {
    LoadCons(Fresh(params), line, []);
    assert [line] + [] == [line];
  }

  lemma BrokenOffLoads(params: map<string, string>, key: string, t: string, pos: nat)
    requires SafeKey(key) && Ending(t) && t[0] == '[' && pos < |t| && t[pos] == '\n' && '\n' !in t[..pos]
    ensures var st := LoadKey(Fresh(params), 0, key, t[..pos]);
            && Loaded(params, key + ": " + t) == LoadLines(st, Split(t[pos + 1..], '\n')).params
            && st.multiline && st.pendingKey == key && st.pendingValue == t[..pos] && st.params == params
  {
    var head, tail := t[..pos], t[pos + 1..];
    var line := key + ": " + head;
    EndingTail(t, pos);
    SplitAtBreak(t, pos);
    Regroup(key + ": ", head, ['\n'], tail);
    SplitCons(line, '\n', tail);
    FirstLineLoads(Fresh(params), key, head);
    LoadCons(Fresh(params), line, Split(tail, '\n'));
    assert head[0] in head;
    RootPath(params, key, head);
  }

  /** A vector printed under a key, broken over lines at any of its spaces, is loaded as it was printed. */
  lemma BrokenVectorLoads(params: map<string, string>, key: string, v: seq<int>, t: string)
    requires SafeKey(key) && BrokenAt(VectorString(v), t)
    ensures Loaded(params, key + ": " + t) == params[key := VectorString(v)]
  {
    BrokenVector(v, t);
    var pos := Find(t, '\n');
    if pos == |t| {
      assert Rejoined(t) == t;
      OneLineLoads(params, key + ": " + t);
      WholeVectorLoads(params, key, t);
    } else {
      BrokenOffLoads(params, key, t, pos);
      EndingTail(t, pos);
      RestCollects(LoadKey(Fresh(params), 0, key, t[..pos]), t[pos + 1..]);
      RejoinedSplit(t, pos);
    }
  }

  /** Print, break over lines, load under a key, read back: the same vector. */
  lemma VectorFileRoundTrip(params: map<string, string>, key: string, v: seq<int>, t: string)
    requires SafeKey(key) && BrokenAt(VectorString(v), t) && forall n :: n in v ==> IsInt(n)
    ensures var loaded := Loaded(params, key + ": " + t);
            && key in loaded && Resolves(loaded, key, Some(loaded[key])) && IntsOf(loaded[key]) == v
            && forall other :: other != key ==> (other in loaded <==> other in params)
                                                && (other in params ==> loaded[other] == params[other])
  {
    BrokenVectorLoads(params, key, v, t);
    VectorRoundTrip(v);
  }
}
