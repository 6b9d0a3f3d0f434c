/** Loading a parameter text, sdk/fins/agent/parameter_server.cpp: a YAML-like subset in which indentation nests keys,
    full keys are dotted paths, and a bracketed value may go on over several lines. */
module ParameterServer {
  import opened Sequences
  import opened Text
  import opened Wrappers

  datatype Scope = Scope(indent: nat, key: string)

  /** The variables of load_string between two lines. */
  datatype Loader = Loader(
    stack: seq<Scope>, multiline: bool, pendingKey: string, pendingValue: string, params: map<string, string>)

  function Fresh(params: map<string, string>): Loader {
    Loader([], false, "", "", params)
  }

  /** The spaces at the start of a line. */
  function Indent(line: string): (n: nat)
    ensures n <= |line| && (forall i :: 0 <= i < n ==> line[i] == ' ') && (n < |line| ==> line[n] != ' ')
  {
    if line != [] && line[0] == ' ' then 1 + Indent(line[1..]) else 0
  }

  /** The scopes a line of this indent is nested in. */
  function PopTo(stack: seq<Scope>, indent: nat): (r: seq<Scope>)
    ensures r <= stack && (r != [] ==> r[|r| - 1].indent < indent)
  {
    if stack != [] && indent <= stack[|stack| - 1].indent then PopTo(stack[..|stack| - 1], indent) else stack
  }

  function Keys(stack: seq<Scope>): (names: seq<string>) {
    if stack == [] then [] else Keys(stack[..|stack| - 1]) + [stack[|stack| - 1].key]
  }

  /** Names joined by dots. */
  function Dotted(names: seq<string>): string {
    if names == [] then ""
    else if |names| == 1 then names[0]
    else Dotted(names[..|names| - 1]) + "." + names[|names| - 1]
  }

  function Path(stack: seq<Scope>): string {
    Dotted(Keys(stack))
  }

  predicate OpensArray(value: string) {
    '[' in value && ']' !in value
  }

  /** A line with a key: indent, key and value, the last two trimmed. */
  function LoadKey(st: Loader, indent: nat, key: string, value: string): Loader {
    var stack := PopTo(st.stack, indent) + [Scope(indent, key)];
    var st1 := st.(stack := stack);
    if value == "" then st1
    else if OpensArray(value) then st1.(multiline := true, pendingKey := Path(stack), pendingValue := value)
    else st1.(params := st.params[Path(stack) := value])
  }

  /** A further line of a bracketed value. */
  function LoadMore(st: Loader, trimmed: string): Loader {
    var value := st.pendingValue + " " + trimmed;
    if ']' in trimmed
    then st.(multiline := false, pendingKey := "", pendingValue := "", params := st.params[st.pendingKey := value])
    else st.(pendingValue := value)
  }

  function WithoutComment(raw: string): string {
    raw[..Find(raw, '#')]
  }

  function LoadLine(st: Loader, raw: string): Loader {
    var line := WithoutComment(raw);
    if Trim(line) == "" then st
    else if st.multiline then LoadMore(st, Trim(line))
    else if ':' !in line then st
    else
      var colon := Find(line, ':');
      LoadKey(st, Indent(line), Trim(line[..colon]), Trim(line[colon + 1..]))
  }

  function LoadLines(st: Loader, lines: seq<string>): Loader {
    if lines == [] then st else LoadLine(LoadLines(st, lines[..|lines| - 1]), lines[|lines| - 1])
  }

  /** The parameters after loading a text. */
  function Loaded(params: map<string, string>, text: string): map<string, string> {
    LoadLines(Fresh(params), Split(text, '\n')).params
  }

  // ---------- looking a parameter up ----------

  /** The order of std::map keys: by the first character that differs. */
  predicate Before(a: string, b: string) {
    b != [] && (a == [] || a[0] < b[0] || (a[0] == b[0] && Before(a[1..], b[1..])))
  }

  /** A proper prefix comes first; otherwise the first character that differs decides. */
  lemma {:induction false} BeforeIff(a: string, b: string)
    ensures Before(a, b) <==>
            a < b || exists k :: 0 <= k < |a| && k < |b| && a[..k] == b[..k] && a[k] < b[k]
  {
    if a != [] && b != [] && a[0] == b[0] {
      BeforeIff(a[1..], b[1..]);
      if k :| 0 <= k < |a[1..]| && k < |b[1..]| && a[1..][..k] == b[1..][..k] && a[1..][k] < b[1..][k] {
        assert a[..k + 1] == [a[0]] + a[1..][..k] && b[..k + 1] == [b[0]] + b[1..][..k];
        assert a[k + 1] < b[k + 1];
      }
      if k :| 0 <= k < |a| && k < |b| && a[..k] == b[..k] && a[k] < b[k] {
        assert k > 0;
        assert a[1..][..k - 1] == a[..k][1..] && b[1..][..k - 1] == b[..k][1..];
        assert a[1..][k - 1] < b[1..][k - 1];
      }
      assert a < b <==> a[1..] < b[1..] by {
        assert a == [a[0]] + a[1..] && b == [b[0]] + b[1..];
      }
    } else if a != [] && b != [] && a[0] < b[0] {
      assert a[..0] == b[..0];
    }
  }

  ghost predicate MapOrder(order: seq<string>, params: map<string, string>) {
    && (forall key :: key in order <==> key in params)
    && (forall i, j :: 0 <= i < j < |order| ==> Before(order[i], order[j]))
  }

  predicate EndsWith(key: string, suffix: string) {
    |suffix| <= |key| && key[|key| - |suffix|..] == suffix
  }

  /** The key without its first segment. */
  function SubKey(key: string): string {
    if '.' in key then key[Find(key, '.') + 1..] else ""
  }

  /** The first segment goes up to the first dot. */
  lemma SubKeyIs(first: string, rest: string)
    requires '.' !in first
    ensures SubKey(first + "." + rest) == rest
  {
    var key := first + "." + rest;
    assert key[..|first|] == first && key[|first|] == '.';
    FindIs(key, '.', |first|);
    assert key[|first| + 1..] == rest;
  }

  /** What follows the first '#' of a line is not read. */
  lemma CommentIsIgnored(st: Loader, line: string, comment: string)
    requires '#' !in line
    ensures LoadLine(st, line + "#" + comment) == LoadLine(st, line)
  {
    var raw := line + "#" + comment;
    assert raw[..|line|] == line && raw[|line|] == '#';
    FindIs(raw, '#', |line|);
    assert WithoutComment(raw) == line == WithoutComment(line);
  }

  /** Blank lines change nothing, and outside an array neither do lines without a colon. */
  lemma LineIsIgnored(st: Loader, line: string)
    requires '#' !in line
    ensures AllBlank(line) ==> LoadLine(st, line) == st
    ensures !st.multiline && ':' !in line ==> LoadLine(st, line) == st
  {
    assert WithoutComment(line) == line;
    if AllBlank(line) {
      TrimIs(line, [], []);
      assert line + [] + [] == line;
    }
  }

  /** The first parameter, in map order, whose key ends like this. */
  predicate FirstMatch(params: map<string, string>, suffix: string, key: string) {
    && key in params && EndsWith(key, suffix)
    && (forall other :: other in params && EndsWith(other, suffix) ==> other == key || Before(key, other))
  }

  /** What get_impl finds: the parameter of that very key; without one, and with a dot in the key, the first one that
      ends like the rest of the key after its first dot; else nothing. */
  ghost predicate Resolves(params: map<string, string>, key: string, found: Option<string>) {
    if key in params then found == Some(params[key])
    else if '.' !in key || (forall other :: other in params ==> !EndsWith(other, SubKey(key))) then found == None
    else found.Some? && exists first :: FirstMatch(params, SubKey(key), first) && params[first] == found.value
  }

  lemma {:induction false} BeforeIsStrict(a: string, b: string)
    requires Before(a, b)
    ensures !Before(b, a)
  {
    if a != [] && a[0] == b[0] {
      BeforeIsStrict(a[1..], b[1..]);
    }
  }

  /** Nothing but the parameters and the key decides what is found. */
  lemma ResolvesOne(params: map<string, string>, key: string, a: Option<string>, b: Option<string>)
    requires Resolves(params, key, a) && Resolves(params, key, b)
    ensures a == b
  {
    if a.Some? && b.Some? && key !in params {
      var x :| FirstMatch(params, SubKey(key), x) && params[x] == a.value;
      var y :| FirstMatch(params, SubKey(key), y) && params[y] == b.value;
      if x != y {
        BeforeIsStrict(x, y);
      }
    }
  }

  lemma {:induction false} BeforeIsTotal(a: string, b: string)
    ensures a == b || Before(a, b) || Before(b, a)
  {
    if a != [] && b != [] && a[0] == b[0] {
      BeforeIsTotal(a[1..], b[1..]);
      assert a == [a[0]] + a[1..] && b == [b[0]] + b[1..];
    }
  }

  lemma {:induction false} BeforeIsTransitive(a: string, b: string, c: string)
    requires Before(a, b) && Before(b, c)
    ensures Before(a, c)
  {
    if a != [] && a[0] == b[0] && b[0] == c[0] {
      BeforeIsTransitive(a[1..], b[1..], c[1..]);
    }
  }

  lemma {:induction false} FirstOf(keys: set<string>) returns (first: string)
    requires keys != {}
    ensures first in keys && forall other :: other in keys ==> other == first || Before(first, other)
    decreases |keys|
  {
    first :| first in keys;
    if keys != {first} {
      var rest := FirstOf(keys - {first});
      BeforeIsTotal(first, rest);
      if Before(rest, first) {
        first := rest;
      } else {
        forall other | other in keys && other != first ensures Before(first, other) {
          if other != rest {
            BeforeIsTransitive(first, rest, other);
          }
        }
      }
    }
  }

  /** There is always an answer; ResolvesOne says that there is only one. */
  lemma ResolvesSome(params: map<string, string>, key: string) returns (found: Option<string>)
    ensures Resolves(params, key, found)
  {
    var matches := set other | other in params && EndsWith(other, SubKey(key));
    if key in params {
      found := Some(params[key]);
    } else if '.' !in key || matches == {} {
      found := None;
      assert forall other :: other in params ==> other !in matches || '.' !in key;
    } else {
      var first := FirstOf(matches);
      assert FirstMatch(params, SubKey(key), first);
      found := Some(params[first]);
    }
  }

  /** The suffix is the whole key or starts after one of its dots. */
  predicate WholeSegments(key: string, suffix: string) {
    key == suffix || EndsWith(key, "." + suffix)
  }

  /** One parameter with the right ending answers whatever stands in front of it. */
  lemma OneParameterAnswers(name: string, key: string, value: string)
    requires name != key && '.' in key && EndsWith(name, SubKey(key))
    ensures Resolves(map[name := value], key, Some(value))
  {
    assert FirstMatch(map[name := value], SubKey(key), name);
  }

  /** It answers even if the match starts inside one of its segments. */
  lemma InsideSegmentAnswers(name: string, key: string, suffix: string, value: string)
    requires name != key && '.' in key && SubKey(key) == suffix
    requires |suffix| < |name| && name[|name| - |suffix|..] == suffix && name[|name| - |suffix| - 1] != '.'
    ensures Resolves(map[name := value], key, Some(value)) && !WholeSegments(name, suffix)
  {
    OneParameterAnswers(name, key, value);
    assert name[|name| - |suffix| - 1..][0] != '.';
  }

  lemma SubKeyExample()
    ensures '.' in "a.c" && SubKey("a.c") == "c"
  {
    var key := "a.c";
    assert key[1] == '.';
    FindIs(key, '.', 1);
    assert key[2..] == "c";
  }

  /** A lookup can cross the border of a segment: a.c is answered by a parameter bc. */
  lemma AnswerInsideSegment(value: string)
    ensures Resolves(map["bc" := value], "a.c", Some(value)) && !WholeSegments("bc", "c")
  {
    SubKeyExample();
    assert "bc"[1..] == "c";
    InsideSegmentAnswers("bc", "a.c", "c", value);
  }

  /** Every parameter with the suffix inside a segment comes, in map order, after this one. */
  ghost predicate AheadOfInsideMatches(params: map<string, string>, suffix: string, key: string) {
    forall other :: other in params && EndsWith(other, suffix) && !WholeSegments(other, suffix) ==> Before(key, other)
  }

  /** The parameter that answers a lookup by suffix ends in whole segments. */
  ghost predicate FromWholeSegments(params: map<string, string>, suffix: string, value: string) {
    exists first :: FirstMatch(params, suffix, first) && WholeSegments(first, suffix) && params[first] == value
  }

  /** Some parameter that ends in whole segments comes, in map order, before all that have the suffix inside one. */
  ghost predicate WholeSegmentsFirst(params: map<string, string>, suffix: string) {
    exists k :: k in params && WholeSegments(k, suffix) && AheadOfInsideMatches(params, suffix, k)
  }

  /** A lookup by suffix is answered by whole segments if and only if a parameter that ends in them comes first. */
  lemma AnswersWholeSegmentsIff(params: map<string, string>, key: string, found: Option<string>)
    ensures key !in params && Resolves(params, key, found) && found.Some? ==>
              (FromWholeSegments(params, SubKey(key), found.value) <==> WholeSegmentsFirst(params, SubKey(key)))
  {
    if key !in params && Resolves(params, key, found) && found.Some? {
      var suffix := SubKey(key);
      var first :| FirstMatch(params, suffix, first) && params[first] == found.value;
      FirstMatchIsOnly(params, suffix, first);
      if WholeSegments(first, suffix) {
        assert AheadOfInsideMatches(params, suffix, first);
      } else if k :| k in params && WholeSegments(k, suffix) && AheadOfInsideMatches(params, suffix, k) {
        AheadMeansFirst(params, suffix, first, k);
        assert false;
      }
    }
  }

  lemma FirstMatchIsOnly(params: map<string, string>, suffix: string, first: string)
    requires FirstMatch(params, suffix, first)
    ensures forall other :: FirstMatch(params, suffix, other) ==> other == first
  {
    forall other | FirstMatch(params, suffix, other) ensures other == first {
      if other != first {
        BeforeIsStrict(first, other);
      }
    }
  }

  lemma AheadMeansFirst(params: map<string, string>, suffix: string, first: string, k: string)
    requires FirstMatch(params, suffix, first) && k in params && WholeSegments(k, suffix)
    requires AheadOfInsideMatches(params, suffix, k)
    ensures WholeSegments(first, suffix)
  {
    WholeSegmentsEnd(k, suffix);
    if !WholeSegments(first, suffix) {
      BeforeIsStrict(k, first);
    }
  }

  lemma WholeSegmentsEnd(key: string, suffix: string)
    requires WholeSegments(key, suffix)
    ensures EndsWith(key, suffix)
  {
    if key != suffix {
      assert key[|key| - |suffix| - 1..][1..] == key[|key| - |suffix|..];
      assert ("." + suffix)[1..] == suffix;
    } else {
      assert key[0..] == key;
    }
  }

  // ---------- the class ----------

  class ParameterServer {
    var params: map<string, string>

    constructor ()
      ensures params == map[]
    {
      params := map[];
    }

    method CountIndent(line: string) returns (indent: nat)
      ensures indent == Indent(line)
    {
      indent := 0;
      while indent < |line| && line[indent] == ' '
        invariant indent <= |line| && Indent(line) == indent + Indent(line[indent..])
      {
        assert line[indent..][1..] == line[indent + 1..];
        indent := indent + 1;
      }
    }

    method PopScopes(stack0: seq<Scope>, indent: nat) returns (stack: seq<Scope>)
      ensures stack == PopTo(stack0, indent)
    {
      stack := stack0;
      while stack != [] && indent <= stack[|stack| - 1].indent
        invariant PopTo(stack, indent) == PopTo(stack0, indent)
      {
        stack := stack[..|stack| - 1];
      }
    }

    method JoinKeys(stack: seq<Scope>) returns (fullKey: string)
      requires stack != []
      ensures fullKey == Path(stack)
    {
      fullKey := "";
      for i := 0 to |stack|
        invariant fullKey == Path(stack[..i]) + if 0 < i < |stack| then "." else ""
      {
        assert stack[..i + 1][..i] == stack[..i];
        fullKey := fullKey + stack[i].key;
        if i < |stack| - 1 {
          fullKey := fullKey + ".";
        }
      }
      assert stack[..|stack|] == stack;
    }

    /** A line with a key: the second half of the loop body of load_string. */
    method ReadKey(indent: nat, key: string, value: string, stack0: seq<Scope>, pendingKey0: string,
                   pendingValue0: string)
      returns (stack: seq<Scope>, inMultiline: bool, pendingKey: string, pendingValue: string)
      modifies this
      ensures Loader(stack, inMultiline, pendingKey, pendingValue, params)
              == LoadKey(Loader(stack0, false, pendingKey0, pendingValue0, old(params)), indent, key, value)
    {
      inMultiline, pendingKey, pendingValue := false, pendingKey0, pendingValue0;
      stack := PopScopes(stack0, indent);
      stack := stack + [Scope(indent, key)];
      var fullKey := JoinKeys(stack);
      if value == "" {
        return;
      }
      if '[' in value && ']' !in value {
        inMultiline, pendingKey, pendingValue := true, fullKey, value;
      } else {
        params := params[fullKey := value];
      }
    }

    /** One line: the loop body of load_string, on its variables. */
    method ReadLine(raw: string, stack0: seq<Scope>, inMultiline0: bool, pendingKey0: string, pendingValue0: string)
      returns (stack: seq<Scope>, inMultiline: bool, pendingKey: string, pendingValue: string)
      modifies this
      ensures Loader(stack, inMultiline, pendingKey, pendingValue, params)
              == LoadLine(Loader(stack0, inMultiline0, pendingKey0, pendingValue0, old(params)), raw)
    {
      stack, inMultiline, pendingKey, pendingValue := stack0, inMultiline0, pendingKey0, pendingValue0;
      var line := raw;
      var commentPos := Find(line, '#');
      if commentPos < |line| {
        line := line[..commentPos];
      }
      assert line == WithoutComment(raw);
      var trimmedLine := Trim(line);
      if trimmedLine == "" {
        return;
      }
      if inMultiline {
        pendingValue := pendingValue + " " + trimmedLine;
        if ']' in trimmedLine {
          params := params[pendingKey := pendingValue];
          inMultiline, pendingValue, pendingKey := false, "", "";
        }
        return;
      }
      var indent := CountIndent(line);
      var colonPos := Find(line, ':');
      if colonPos == |line| {
        return;
      }
      assert ':' in line;
      var key, value := Trim(line[..colonPos]), Trim(line[colonPos + 1..]);
      stack, inMultiline, pendingKey, pendingValue := ReadKey(indent, key, value, stack, pendingKey, pendingValue);
    }

    method LoadString(str: string)
      modifies this
      ensures params == Loaded(old(params), str)
    {
      var lines := Split(str, '\n');
      var stack: seq<Scope> := [];
      var pendingValue, pendingKey, inMultiline := "", "", false;
      ghost var start := Fresh(params);
      for i := 0 to |lines|
        invariant Loader(stack, inMultiline, pendingKey, pendingValue, params) == LoadLines(start, lines[..i])
      {
        assert lines[..i + 1][..i] == lines[..i];
        stack, inMultiline, pendingKey, pendingValue :=
          ReadLine(lines[i], stack, inMultiline, pendingKey, pendingValue);
      }
      assert lines[..|lines|] == lines;
    }

    /** get_impl, sdk/fins/agent/parameter_server.hpp:54-84, up to the conversion; `order` is how the map iterates. */
    method Get(key: string, order: seq<string>) returns (found: Option<string>)
      requires MapOrder(order, params)
      ensures Resolves(params, key, found)
    {
      if key in params {
        return Some(params[key]);
      }
      if '.' !in key {
        return None;
      }
      found := FindSuffix(SubKey(key), order);
    }

    method FindSuffix(subKey: string, order: seq<string>) returns (found: Option<string>)
      requires MapOrder(order, params)
      ensures found.None? ==> forall other :: other in params ==> !EndsWith(other, subKey)
      ensures found.Some? ==> exists first :: FirstMatch(params, subKey, first) && params[first] == found.value
    {
      for i := 0 to |order|
        invariant forall j :: 0 <= j < i ==> !EndsWith(order[j], subKey)
      {
        if EndsWith(order[i], subKey) {
          assert FirstMatch(params, subKey, order[i]);
          return Some(params[order[i]]);
        }
      }
      return None;
    }
  }

  // ---------- the scope stack ----------

  /** The line changes the scope stack: it is read as a key line. */
  predicate IsKeyLine(st: Loader, raw: string) {
    Trim(WithoutComment(raw)) != "" && !st.multiline && ':' in WithoutComment(raw)
  }

  function KeyOf(raw: string): Scope {
    var line := WithoutComment(raw);
    Scope(Indent(line), Trim(line[..Find(line, ':')]))
  }

  /** The key lines among the lines loaded so far. */
  function KeyLines(start: Loader, lines: seq<string>): seq<Scope> {
    if lines == [] then []
    else
      var front, last := lines[..|lines| - 1], lines[|lines| - 1];
      KeyLines(start, front) + if IsKeyLine(LoadLines(start, front), last) then [KeyOf(last)] else []
  }

  /** The nearest of the first `n` key lines with a smaller indent, -1 if there is none. */
  function Nearest(keys: seq<Scope>, n: nat, indent: nat): (j: int)
    requires n <= |keys|
    ensures -1 <= j < n
  {
    if n == 0 then -1 else if keys[n - 1].indent < indent then n - 1 else Nearest(keys, n - 1, indent)
  }

  /** Key line `j` under the chain of its ancestors, each the nearest earlier key line with a smaller indent. */
  function Chain(keys: seq<Scope>, j: int): (chain: seq<Scope>)
    requires -1 <= j < |keys|
    decreases j + 1
  {
    if j < 0 then [] else Chain(keys, Nearest(keys, j, keys[j].indent)) + [keys[j]]
  }

  ghost predicate IndentsIncrease(stack: seq<Scope>) {
    forall i, j :: 0 <= i < j < |stack| ==> stack[i].indent < stack[j].indent
  }

  ghost predicate IsNearest(keys: seq<Scope>, n: nat, indent: nat, j: int)
    requires n <= |keys|
  {
    && -1 <= j < n && (j >= 0 ==> keys[j].indent < indent)
    && (forall k :: j < k < n ==> indent <= keys[k].indent)
  }

  lemma {:induction false} NearestMeets(keys: seq<Scope>, n: nat, indent: nat)
    requires n <= |keys|
    ensures IsNearest(keys, n, indent, Nearest(keys, n, indent))
  {
    if n > 0 && indent <= keys[n - 1].indent {
      NearestMeets(keys, n - 1, indent);
    }
  }

  lemma {:induction false} NearestIs(keys: seq<Scope>, n: nat, indent: nat, j: int)
    requires n <= |keys| && IsNearest(keys, n, indent, j)
    ensures Nearest(keys, n, indent) == j
  {
    if n > 0 && j < n - 1 {
      NearestIs(keys, n - 1, indent, j);
    }
  }

  lemma ChainUnfold(keys: seq<Scope>, j: nat)
    requires j < |keys|
    ensures var rest := Chain(keys, Nearest(keys, j, keys[j].indent));
            Chain(keys, j) == rest + [keys[j]] && Chain(keys, j)[..|Chain(keys, j)| - 1] == rest
  {
  }

  /** Past a key line that is indented too far, the search goes on from its parent. */
  lemma NearestSkips(keys: seq<Scope>, j: nat, indent: nat)
    requires j < |keys| && indent <= keys[j].indent
    ensures Nearest(keys, Nearest(keys, j, keys[j].indent) + 1, indent) == Nearest(keys, j + 1, indent)
  {
    var parent := Nearest(keys, j, keys[j].indent);
    NearestMeets(keys, j, keys[j].indent);
    NearestMeets(keys, parent + 1, indent);
    NearestIs(keys, j + 1, indent, Nearest(keys, parent + 1, indent));
  }

  lemma NearestHere(keys: seq<Scope>, j: nat, indent: nat)
    requires j < |keys| && keys[j].indent < indent
    ensures Nearest(keys, j + 1, indent) == j
  {
  }

  lemma PopOne(stack: seq<Scope>, scope: Scope, indent: nat)
    ensures PopTo(stack + [scope], indent) == if indent <= scope.indent then PopTo(stack, indent) else stack + [scope]
  {
    assert (stack + [scope])[..|stack|] == stack;
  }

  ghost predicate PopsToNearest(keys: seq<Scope>, j: int, indent: nat)
    requires -1 <= j < |keys|
  {
    PopTo(Chain(keys, j), indent) == Chain(keys, Nearest(keys, j + 1, indent))
  }

  lemma PopPast(keys: seq<Scope>, j: nat, indent: nat)
    requires j < |keys| && indent <= keys[j].indent
    requires PopsToNearest(keys, Nearest(keys, j, keys[j].indent), indent)
    ensures PopsToNearest(keys, j, indent)
  {
    ChainUnfold(keys, j);
    PopOne(Chain(keys, Nearest(keys, j, keys[j].indent)), keys[j], indent);
    NearestSkips(keys, j, indent);
  }

  lemma PopHere(keys: seq<Scope>, j: nat, indent: nat)
    requires j < |keys| && keys[j].indent < indent
    ensures PopsToNearest(keys, j, indent)
  {
    ChainUnfold(keys, j);
    PopOne(Chain(keys, Nearest(keys, j, keys[j].indent)), keys[j], indent);
    NearestHere(keys, j, indent);
  }

  lemma {:induction false} PopChain(keys: seq<Scope>, j: int, indent: nat)
    requires -1 <= j < |keys|
    ensures PopsToNearest(keys, j, indent)
    decreases j + 1
  {
    if j >= 0 {
      if indent <= keys[j].indent {
        PopChain(keys, Nearest(keys, j, keys[j].indent), indent);
        PopPast(keys, j, indent);
      } else {
        PopHere(keys, j, indent);
      }
    }
  }

  lemma {:induction false} ChainIncreases(keys: seq<Scope>, j: int)
    requires -1 <= j < |keys|
    ensures IndentsIncrease(Chain(keys, j))
    ensures j >= 0 ==> Chain(keys, j) != [] && Chain(keys, j)[|Chain(keys, j)| - 1] == keys[j]
    decreases j + 1
  {
    if j >= 0 {
      NearestMeets(keys, j, keys[j].indent);
      ChainIncreases(keys, Nearest(keys, j, keys[j].indent));
    }
  }

  lemma {:induction false} ChainPrefix(keys: seq<Scope>, more: seq<Scope>, j: int)
    requires -1 <= j < |keys|
    ensures Chain(keys + more, j) == Chain(keys, j)
    decreases j + 1
  {
    if j >= 0 {
      var parent := Nearest(keys, j, keys[j].indent);
      NearestMeets(keys, j, keys[j].indent);
      NearestIs(keys + more, j, keys[j].indent, parent);
      ChainPrefix(keys, more, parent);
    }
  }

  /** The stack as a function of the key lines alone. */
  function StackOf(keys: seq<Scope>): seq<Scope> {
    if keys == [] then []
    else PopTo(StackOf(keys[..|keys| - 1]), keys[|keys| - 1].indent) + [keys[|keys| - 1]]
  }

  lemma StackOfAppend(keys: seq<Scope>, scope: Scope)
    ensures StackOf(keys + [scope]) == PopTo(StackOf(keys), scope.indent) + [scope]
  {
    assert (keys + [scope])[..|keys + [scope]| - 1] == keys;
  }

  lemma StackAfterLine(st: Loader, raw: string)
    ensures LoadLine(st, raw).stack ==
            if IsKeyLine(st, raw) then PopTo(st.stack, KeyOf(raw).indent) + [KeyOf(raw)] else st.stack
  {
  }

  lemma OneLine(st: Loader, keys: seq<Scope>, raw: string)
    requires st.stack == StackOf(keys)
    ensures LoadLine(st, raw).stack == StackOf(keys + if IsKeyLine(st, raw) then [KeyOf(raw)] else [])
  {
    StackAfterLine(st, raw);
    StackOfAppend(keys, KeyOf(raw));
    assert keys + [] == keys;
  }

  lemma {:induction false} StackIsOfKeyLines(start: Loader, lines: seq<string>)
    requires start.stack == []
    ensures LoadLines(start, lines).stack == StackOf(KeyLines(start, lines))
  {
    if lines != [] {
      var front := lines[..|lines| - 1];
      StackIsOfKeyLines(start, front);
      OneLine(LoadLines(start, front), KeyLines(start, front), lines[|lines| - 1]);
    }
  }

  lemma ChainGrows(keys: seq<Scope>, scope: Scope)
    ensures Chain(keys + [scope], |keys|) == PopTo(Chain(keys, |keys| - 1), scope.indent) + [scope]
  {
    PopChain(keys, |keys| - 1, scope.indent);
    var parent := Nearest(keys, |keys|, scope.indent);
    ChainPrefix(keys, [scope], parent);
    NearestMeets(keys, |keys|, scope.indent);
    NearestIs(keys + [scope], |keys|, scope.indent, parent);
  }

  ghost predicate StackIsChain(keys: seq<Scope>) {
    StackOf(keys) == Chain(keys, |keys| - 1)
  }

  lemma StackChainStep(front: seq<Scope>, last: Scope)
    requires StackIsChain(front)
    ensures StackIsChain(front + [last])
  {
    ChainGrows(front, last);
    StackOfAppend(front, last);
  }

  lemma {:induction false} StackOfIsChain(keys: seq<Scope>)
    ensures StackIsChain(keys)
  {
    if keys != [] {
      var front, last := keys[..|keys| - 1], keys[|keys| - 1];
      StackOfIsChain(front);
      assert keys == front + [last];
      StackChainStep(front, last);
    }
  }

  /** After any lines, the scope stack is the last key line under the chain of nearest smaller-indent key lines
      before it, with strictly increasing indents. */
  lemma ScopeStackIsChain(params: map<string, string>, lines: seq<string>)
    ensures var keys := KeyLines(Fresh(params), lines);
            var stack := LoadLines(Fresh(params), lines).stack;
            stack == Chain(keys, |keys| - 1) && IndentsIncrease(stack)
  {
    var keys := KeyLines(Fresh(params), lines);
    StackIsOfKeyLines(Fresh(params), lines);
    StackOfIsChain(keys);
    ChainIncreases(keys, |keys| - 1);
  }

  // ---------- loading a rendered tree ----------

  /** A key with an optional value ("" for none) and nested keys. */
  datatype Tree = Tree(key: string, value: string, children: seq<Tree>)

  predicate SafeKey(key: string) {
    Tight(key) && ':' !in key && '#' !in key && '\n' !in key
  }

  predicate SafeValue(value: string) {
    Tight(value) && '#' !in value && '\n' !in value && !OpensArray(value)
  }

  ghost predicate Safe(tree: Tree) {
    SafeKey(tree.key) && SafeValue(tree.value) && forall child :: child in tree.children ==> Safe(child)
  }

  function KeyLine(indent: nat, key: string, value: string): string {
    Spaces(indent) + key + ":" + if value == "" then "" else " " + value
  }

  /** One line for the key, then its children, each level `width` spaces further in. */
  function Render(tree: Tree, depth: nat, width: nat): (lines: seq<string>)
    decreases tree
  {
    [KeyLine(depth * width, tree.key, tree.value)] + RenderAll(tree.children, depth + 1, width)
  }

  function RenderAll(trees: seq<Tree>, depth: nat, width: nat): (lines: seq<string>)
    decreases trees
  {
    if trees == [] then []
    else RenderAll(trees[..|trees| - 1], depth, width) + Render(trees[|trees| - 1], depth, width)
  }

  /** The dotted path and value of every key that has a value, in order. */
  function Flatten(prefix: seq<string>, tree: Tree): (entries: seq<(string, string)>)
    decreases tree
  {
    var path := prefix + [tree.key];
    (if tree.value == "" then [] else [(Dotted(path), tree.value)]) + FlattenAll(path, tree.children)
  }

  function FlattenAll(prefix: seq<string>, trees: seq<Tree>): (entries: seq<(string, string)>)
    decreases trees
  {
    if trees == [] then []
    else FlattenAll(prefix, trees[..|trees| - 1]) + Flatten(prefix, trees[|trees| - 1])
  }

  /** Writing the entries one after the other: the last write wins, other parameters stay. */
  function Written(params: map<string, string>, entries: seq<(string, string)>): map<string, string> {
    if entries == [] then params
    else Written(params, entries[..|entries| - 1])[entries[|entries| - 1].0 := entries[|entries| - 1].1]
  }

  lemma {:induction false} WrittenConcat(params: map<string, string>, a: seq<(string, string)>,
                                         b: seq<(string, string)>)
    ensures Written(params, a + b) == Written(Written(params, a), b)
  {
    if b == [] {
      assert a + b == a;
    } else {
      WrittenConcat(params, a, b[..|b| - 1]);
      SplitLast(a, b);
    }
  }

  lemma {:induction false} LoadConcat(st: Loader, a: seq<string>, b: seq<string>)
    ensures LoadLines(st, a + b) == LoadLines(LoadLines(st, a), b)
  {
    if b == [] {
      assert a + b == a;
    } else {
      LoadConcat(st, a, b[..|b| - 1]);
      SplitLast(a, b);
    }
  }

  lemma {:induction false} IndentIs(n: nat, rest: string)
    requires rest != [] && rest[0] != ' '
    ensures Indent(Spaces(n) + rest) == n
  {
    if n > 0 {
      assert (Spaces(n) + rest)[1..] == Spaces(n - 1) + rest;
      IndentIs(n - 1, rest);
    } else {
      assert Spaces(0) + rest == rest;
    }
  }

  /** A rendered key line is read back as its indent, key and value. */
  lemma KeyLineLoads(st: Loader, indent: nat, key: string, value: string)
    requires !st.multiline && SafeKey(key) && SafeValue(value)
    ensures LoadLine(st, KeyLine(indent, key, value)) == LoadKey(st, indent, key, value)
  {
    var gap := if value == "" then "" else " ";
    var line := Spaces(indent) + key + ":" + (gap + value);
    assert line == KeyLine(indent, key, value);
    KeyLineParts(line, indent, key, gap, value);
    LoadsAsKey(st, line, indent, key, value);
  }

  /** The line consists of an indent, a key, its colon and a value, blanks aside. */
  ghost predicate ReadsAs(line: string, indent: nat, key: string, value: string) {
    var colon := indent + |key|;
    && colon < |line| && line[colon] == ':' && Find(line, ':') == colon && '#' !in line
    && Indent(line) == indent && Trim(line[..colon]) == key && Trim(line[colon + 1..]) == value
  }

  lemma LoadsAsKey(st: Loader, line: string, indent: nat, key: string, value: string)
    requires !st.multiline && ReadsAs(line, indent, key, value)
    ensures LoadLine(st, line) == LoadKey(st, indent, key, value)
  {
    TrimKeepsSolid(line, indent + |key|);
    assert WithoutComment(line) == line;
  }

  lemma KeyLineParts(line: string, indent: nat, key: string, gap: string, value: string)
    requires SafeKey(key) && Tight(value) && '#' !in value && AllBlank(gap) && '#' !in gap
    requires line == Spaces(indent) + key + ":" + (gap + value)
    ensures ReadsAs(line, indent, key, value)
  {
    HeadAndTail(line, Spaces(indent) + key, gap + value);
    KeyStart(indent, key, gap + value);
    TrimBefore(gap, value);
    TrimBefore(Spaces(indent), key);
  }

  lemma TrimBefore(blanks: string, s: string)
    requires AllBlank(blanks) && Tight(s)
    ensures Trim(blanks + s) == s
  {
    TrimIs(blanks, s, "");
    assert blanks + s + "" == blanks + s;
  }

  lemma KeyStart(indent: nat, key: string, tail: string)
    requires Tight(key)
    ensures Indent(Spaces(indent) + key + ":" + tail) == indent
  {
    var rest := key + ":" + tail;
    assert rest[0] == if key == "" then ':' else key[0];
    IndentIs(indent, rest);
    assert Spaces(indent) + key + ":" + tail == Spaces(indent) + rest;
  }

  lemma HeadAndTail(line: string, head: string, tail: string)
    requires line == head + ":" + tail && '#' !in head && '#' !in tail
    requires ':' !in head
    ensures '#' !in line && Find(line, ':') == |head|
    ensures line[..|head|] == head && line[|head|] == ':' && line[|head| + 1..] == tail
  {
    FindIs(line, ':', |head|);
  }

  /** A text with a non-blank character does not trim to nothing. */
  lemma TrimKeepsSolid(s: string, i: nat)
    requires i < |s| && !Blank(s[i])
    ensures Trim(s) != ""
  {
    var k := TrimLeftKeeps(s, i);
    TrimRightKeeps(TrimLeft(s), k);
  }

  lemma {:induction false} TrimLeftKeeps(s: string, i: nat) returns (k: nat)
    requires i < |s| && !Blank(s[i])
    ensures k < |TrimLeft(s)| && !Blank(TrimLeft(s)[k])
  {
    if Blank(s[0]) {
      k := TrimLeftKeeps(s[1..], i - 1);
    } else {
      k := 0;
    }
  }

  lemma {:induction false} TrimRightKeeps(s: string, i: nat)
    requires i < |s| && !Blank(s[i])
    ensures |TrimRight(s)| > 0
  {
    if Blank(s[|s| - 1]) {
      TrimRightKeeps(s[..|s| - 1], i);
    }
  }

  lemma {:induction false} PopPop(stack: seq<Scope>, outer: nat, inner: nat)
    requires outer <= inner
    ensures PopTo(PopTo(stack, inner), outer) == PopTo(stack, outer)
  {
    if stack != [] && inner <= stack[|stack| - 1].indent {
      PopPop(stack[..|stack| - 1], outer, inner);
    }
  }

  lemma KeysAppend(stack: seq<Scope>, scope: Scope)
    ensures Keys(stack + [scope]) == Keys(stack) + [scope.key]
  {
    assert (stack + [scope])[..|stack + [scope]| - 1] == stack;
  }

  /** What loading rendered lines at indent `indent` under the scopes `prefix` must do. */
  ghost predicate Wrote(st: Loader, st': Loader, prefix: seq<Scope>, indent: nat, entries: seq<(string, string)>) {
    !st'.multiline && PopTo(st'.stack, indent) == prefix && st'.params == Written(st.params, entries)
  }

  lemma LoadKeyWrites(st: Loader, prefix: seq<Scope>, indent: nat, key: string, value: string)
    requires !st.multiline && PopTo(st.stack, indent) == prefix && SafeValue(value)
    ensures var st' := LoadKey(st, indent, key, value);
            !st'.multiline && st'.stack == prefix + [Scope(indent, key)]
            && st'.params == Written(st.params, if value == "" then [] else [(Dotted(Keys(prefix) + [key]), value)])
  {
    KeysAppend(prefix, Scope(indent, key));
    var entries := [(Dotted(Keys(prefix) + [key]), value)];
    assert entries[..0] == [];
    assert Written(st.params, entries) == Written(st.params, [])[entries[0].0 := value];
  }

  lemma {:induction false} LoadTree(st: Loader, tree: Tree, depth: nat, width: nat, prefix: seq<Scope>)
    requires Safe(tree) && width > 0 && !st.multiline && PopTo(st.stack, depth * width) == prefix
    ensures Wrote(st, LoadLines(st, Render(tree, depth, width)), prefix, depth * width, Flatten(Keys(prefix), tree))
    decreases tree
  {
    var indent, inner := depth * width, (depth + 1) * width;
    assert inner == indent + width;
    var header := KeyLine(indent, tree.key, tree.value);
    KeyLineLoads(st, indent, tree.key, tree.value);
    LoadKeyWrites(st, prefix, indent, tree.key, tree.value);
    var st1 := LoadKey(st, indent, tree.key, tree.value);
    assert LoadLines(st, [header]) == st1 by {
      assert [header][..0] == [];
      assert LoadLines(st, []) == st;
    }
    var scopes := prefix + [Scope(indent, tree.key)];
    KeysAppend(prefix, Scope(indent, tree.key));
    LoadForest(st1, tree.children, depth + 1, width, scopes);
    LoadConcat(st, [header], RenderAll(tree.children, depth + 1, width));
    var st2 := LoadLines(st1, RenderAll(tree.children, depth + 1, width));
    PopPop(st2.stack, indent, inner);
    PopPop(st.stack, indent, indent);
    assert scopes[..|scopes| - 1] == prefix;
    WrittenConcat(st.params, if tree.value == "" then [] else [(Dotted(Keys(prefix) + [tree.key]), tree.value)],
                  FlattenAll(Keys(scopes), tree.children));
  }

  lemma {:induction false} LoadForest(st: Loader, trees: seq<Tree>, depth: nat, width: nat, prefix: seq<Scope>)
    requires (forall tree :: tree in trees ==> Safe(tree)) && width > 0
    requires !st.multiline && PopTo(st.stack, depth * width) == prefix
    ensures Wrote(st, LoadLines(st, RenderAll(trees, depth, width)), prefix, depth * width,
                  FlattenAll(Keys(prefix), trees))
    decreases trees
  {
    if trees != [] {
      var front, last := trees[..|trees| - 1], trees[|trees| - 1];
      LoadForest(st, front, depth, width, prefix);
      var st1 := LoadLines(st, RenderAll(front, depth, width));
      LoadTree(st1, last, depth, width, prefix);
      LoadConcat(st, RenderAll(front, depth, width), Render(last, depth, width));
      WrittenConcat(st.params, FlattenAll(Keys(prefix), front), Flatten(Keys(prefix), last));
    }
  }

  function Unlines(lines: seq<string>): string {
    if lines == [] then "" else lines[0] + "\n" + Unlines(lines[1..])
  }

  lemma {:induction false} SplitUnlines(lines: seq<string>)
    requires forall line :: line in lines ==> '\n' !in line
    ensures Split(Unlines(lines), '\n') == lines
  {
    if lines != [] {
      SplitUnlines(lines[1..]);
      assert lines[0] + "\n" + Unlines(lines[1..]) == lines[0] + ['\n'] + Unlines(lines[1..]);
      SplitCons(lines[0], '\n', Unlines(lines[1..]));
    }
  }

  lemma {:induction false} RenderOneLineEach(tree: Tree, depth: nat, width: nat)
    requires Safe(tree)
    ensures forall line :: line in Render(tree, depth, width) ==> '\n' !in line
    decreases tree
  {
    RenderAllOneLineEach(tree.children, depth + 1, width);
  }

  lemma {:induction false} RenderAllOneLineEach(trees: seq<Tree>, depth: nat, width: nat)
    requires forall tree :: tree in trees ==> Safe(tree)
    ensures forall line :: line in RenderAll(trees, depth, width) ==> '\n' !in line
    decreases trees
  {
    if trees != [] {
      RenderAllOneLineEach(trees[..|trees| - 1], depth, width);
      RenderOneLineEach(trees[|trees| - 1], depth, width);
    }
  }

  /** Loading the rendering of any trees writes exactly their flattening: paths by nesting, last write winning,
      every other parameter untouched. */
  lemma TreesRoundTrip(params: map<string, string>, trees: seq<Tree>, width: nat)
    requires (forall tree :: tree in trees ==> Safe(tree)) && width > 0
    ensures Loaded(params, Unlines(RenderAll(trees, 0, width))) == Written(params, FlattenAll([], trees))
  {
    RenderAllOneLineEach(trees, 0, width);
    SplitUnlines(RenderAll(trees, 0, width));
    LoadForest(Fresh(params), trees, 0, width, []);
  }
}
