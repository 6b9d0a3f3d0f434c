/** Loading a dataflow, sdk/fins/nodelib.hpp:283-468, from an already parsed node list: creating the steps, connecting
    the pipes while building the dependency graph, and Kahn's algorithm with its fallback for cyclic graphs. */
module NodeLib {
  import opened Wrappers
  import opened Topology
  import Text

  datatype Result<T, E> = Ok(value: T) | Err(error: E)

  datatype Port = Port(name: string, portType: string, id: int)
  datatype Meta = Meta(inputs: seq<Port>, outputs: seq<Port>)

  /** An input of a node, and where it is connected to, if anywhere. */
  datatype Input = Input(port: string, connect: Option<string>)
  datatype NodeSpec = NodeSpec(id: Id, fullKey: string, inputs: seq<Input>)

  /** The classes that can be created with the ports of their nodes, and the ports their plugins advertise. */
  datatype Library = Library(registry: map<string, Meta>, capabilities: map<string, Meta>)

  datatype LoadError =
    | NodeNotCreated(fullKey: string)
    | StepExists(id: Id)
    | InvalidConnection(conn: string)
    | SourceNotFound(id: Id)
    | InputPortNotFound(port: string)
    | OutputPortNotFound(port: string)
    | OutputPortOutOfRange
    | InputPortOutOfRange
    | TypeMismatch

  datatype Loaded = Loaded(order: seq<Id>, hasCycle: bool)

  // ---------- connections ----------

  /** "source/output", split at the first slash. */
  function SplitConn(conn: string): (r: Result<(Id, string), LoadError>)
    ensures r.Ok? ==> r.value.0 + "/" + r.value.1 == conn && '/' !in r.value.0
    ensures r.Err? <==> '/' !in conn
  {
    var pos := Text.Find(conn, '/');
    if pos == |conn| then
      assert conn[..pos] == conn;
      Err(InvalidConnection(conn))
    else Ok((conn[..pos], conn[pos + 1..]))
  }

  ghost predicate FirstNamed(ports: seq<Port>, name: string, k: int) {
    0 <= k < |ports| && ports[k].name == name && forall j :: 0 <= j < k ==> ports[j].name != name
  }

  /** The id of the first port of that name, -1 if the class or the port is unknown. */
  function PortIdx(lib: Library, fullKey: string, name: string, isInput: bool): int {
    if fullKey !in lib.capabilities then -1
    else
      var meta := lib.capabilities[fullKey];
      PortId(if isInput then meta.inputs else meta.outputs, name)
  }

  function PortId(ports: seq<Port>, name: string): (id: int)
    ensures (exists k :: FirstNamed(ports, name, k) && id == ports[k].id)
            || (id == -1 && forall k :: 0 <= k < |ports| ==> ports[k].name != name)
  {
    if ports == [] then -1
    else if ports[0].name == name then
      assert FirstNamed(ports, name, 0);
      ports[0].id
    else
      var id := PortId(ports[1..], name);
      assert forall k :: FirstNamed(ports[1..], name, k) ==> FirstNamed(ports, name, k + 1);
      id
  }

  method FindPortIdx(lib: Library, fullKey: string, name: string, isInput: bool) returns (idx: int)
    ensures idx == PortIdx(lib, fullKey, name, isInput)
  {
    if fullKey !in lib.capabilities {
      return -1;
    }
    var ports := if isInput then lib.capabilities[fullKey].inputs else lib.capabilities[fullKey].outputs;
    for i := 0 to |ports|
      invariant PortId(ports, name) == PortId(ports[i..], name)
    {
      if ports[i].name == name {
        return ports[i].id;
      }
      assert ports[i..][1..] == ports[i + 1..];
    }
    return -1;
  }

  /** The ports of the node created for a step; a class that cannot be created has none. */
  function MetaOf(lib: Library, fullKey: string): Meta {
    if fullKey in lib.registry then lib.registry[fullKey] else Meta([], [])
  }

  /** Studio::add_pipe's checks, sdk/fins/studio.hpp:72-93. */
  function PipeError(from: Meta, to: Meta, fromPort: int, toPort: int): Option<LoadError> {
    if !(0 <= fromPort < |from.outputs|) then Some(OutputPortOutOfRange)
    else if !(0 <= toPort < |to.inputs|) then Some(InputPortOutOfRange)
    else if from.outputs[fromPort].portType != to.inputs[toPort].portType then Some(TypeMismatch)
    else None
  }

  /** The edge one connected input gives, or why it is refused. */
  function EdgeOf(lib: Library, keys: map<Id, string>, dest: NodeSpec, port: string, conn: string)
    : (r: Result<Edge, LoadError>)
    ensures r.Ok? ==>
              r.value.0 in keys && r.value.1 == dest.id && SplitConn(conn).Ok? && SplitConn(conn).value.0 == r.value.0
  {
    match SplitConn(conn)
    case Err(e) => Err(e)
    case Ok((src, out)) =>
      if src !in keys then Err(SourceNotFound(src))
      else
        var inIdx := PortIdx(lib, dest.fullKey, port, true);
        var outIdx := PortIdx(lib, keys[src], out, false);
        if inIdx == -1 then Err(InputPortNotFound(port))
        else if outIdx == -1 then Err(OutputPortNotFound(out))
        else
          match PipeError(MetaOf(lib, keys[src]), MetaOf(lib, dest.fullKey), outIdx, inIdx)
          case Some(e) => Err(e)
          case None => Ok((src, dest.id))
  }

  /** The edges of one node's inputs, in order, up to the first refusal. */
  function NodeEdges(lib: Library, keys: map<Id, string>, dest: NodeSpec, inputs: seq<Input>)
    : Result<seq<Edge>, LoadError>
  {
    if inputs == [] then Ok([])
    else
      match NodeEdges(lib, keys, dest, inputs[..|inputs| - 1])
      case Err(e) => Err(e)
      case Ok(edges) =>
        var last := inputs[|inputs| - 1];
        if last.connect.None? then Ok(edges)
        else
          match EdgeOf(lib, keys, dest, last.port, last.connect.value)
          case Err(e) => Err(e)
          case Ok(edge) => Ok(edges + [edge])
  }

  /** The edges of the whole dataflow, or the error the second pass throws. */
  function GraphEdges(lib: Library, keys: map<Id, string>, nodes: seq<NodeSpec>): Result<seq<Edge>, LoadError> {
    if nodes == [] then Ok([])
    else
      match GraphEdges(lib, keys, nodes[..|nodes| - 1])
      case Err(e) => Err(e)
      case Ok(edges) =>
        match NodeEdges(lib, keys, nodes[|nodes| - 1], nodes[|nodes| - 1].inputs)
        case Err(e) => Err(e)
        case Ok(more) => Ok(edges + more)
  }

  function Ids(nodes: seq<NodeSpec>): (ids: seq<Id>)
    ensures |ids| == |nodes| && forall i :: 0 <= i < |nodes| ==> ids[i] == nodes[i].id
  {
    if nodes == [] then [] else Ids(nodes[..|nodes| - 1]) + [nodes[|nodes| - 1].id]
  }

  /** Which class each id was last declared with. */
  function KeyMap(nodes: seq<NodeSpec>): (keys: map<Id, string>)
    ensures forall id :: id in keys <==> id in Ids(nodes)
  {
    if nodes == [] then map[] else KeyMap(nodes[..|nodes| - 1])[nodes[|nodes| - 1].id := nodes[|nodes| - 1].fullKey]
  }

  /** The error the first pass throws: an unknown class, or an id that is taken. */
  function CreateError(lib: Library, nodes: seq<NodeSpec>): Option<LoadError> {
    if nodes == [] then None
    else
      var front, last := nodes[..|nodes| - 1], nodes[|nodes| - 1];
      if CreateError(lib, front).Some? then CreateError(lib, front)
      else if last.fullKey !in lib.registry then Some(NodeNotCreated(last.fullKey))
      else if last.id in Ids(front) then Some(StepExists(last.id))
      else None
  }

  /** Step ids are unique once the first pass has succeeded. */
  lemma {:induction false} CreatedIdsDistinct(lib: Library, nodes: seq<NodeSpec>)
    requires CreateError(lib, nodes).None?
    ensures NoDuplicates(Ids(nodes))
    ensures forall i :: 0 <= i < |nodes| ==> nodes[i].fullKey in lib.registry
  {
    if nodes != [] {
      CreatedIdsDistinct(lib, nodes[..|nodes| - 1]);
    }
  }

  lemma {:induction false} NodeEdgesWithin(lib: Library, keys: map<Id, string>, dest: NodeSpec, inputs: seq<Input>)
    requires NodeEdges(lib, keys, dest, inputs).Ok?
    ensures forall e :: e in NodeEdges(lib, keys, dest, inputs).value ==> e.0 in keys && e.1 == dest.id
  {
    if inputs != [] {
      NodeEdgesWithin(lib, keys, dest, inputs[..|inputs| - 1]);
    }
  }

  lemma {:induction false} GraphEdgesWithin(lib: Library, keys: map<Id, string>, nodes: seq<NodeSpec>)
    requires GraphEdges(lib, keys, nodes).Ok?
    ensures forall e :: e in GraphEdges(lib, keys, nodes).value ==> e.0 in keys && e.1 in Ids(nodes)
  {
    if nodes != [] {
      var front, last := nodes[..|nodes| - 1], nodes[|nodes| - 1];
      GraphEdgesWithin(lib, keys, front);
      NodeEdgesWithin(lib, keys, last, last.inputs);
      assert Ids(nodes) == Ids(front) + [last.id];
    }
  }

  // ---------- what the passes accept, by the declarations alone ----------

  /** The connection text names `src` as its source. */
  predicate StartsAt(conn: string, src: Id) {
    '/' !in src && |src| < |conn| && conn[..|src|] == src && conn[|src|] == '/'
  }

  lemma StartsAtSplit(conn: string, src: Id)
    ensures StartsAt(conn, src) <==> SplitConn(conn).Ok? && SplitConn(conn).value.0 == src
  {
    if StartsAt(conn, src) {
      Text.FindIs(conn, '/', |src|);
    }
  }

  /** Input `j` of node `i` is connected to an output of `src`. */
  ghost predicate Feeds(nodes: seq<NodeSpec>, i: int, j: int, src: Id) {
    && 0 <= i < |nodes| && 0 <= j < |nodes[i].inputs| && nodes[i].inputs[j].connect.Some?
    && StartsAt(nodes[i].inputs[j].connect.value, src)
  }

  ghost predicate IsConnection(nodes: seq<NodeSpec>, e: Edge) {
    exists i, j :: Feeds(nodes, i, j, e.0) && nodes[i].id == e.1
  }

  /** The edges are the connections of the declared nodes. */
  ghost predicate Lists(edges: seq<Edge>, nodes: seq<NodeSpec>) {
    forall e :: e in edges <==> IsConnection(nodes, e)
  }

  /** How many of the inputs are connected to an output of `src`. */
  function ConnectedTo(inputs: seq<Input>, src: Id): nat {
    if inputs == [] then 0
    else
      var last := inputs[|inputs| - 1];
      ConnectedTo(inputs[..|inputs| - 1], src)
      + if last.connect.Some? && StartsAt(last.connect.value, src) then 1 else 0
  }

  /** How many inputs of nodes declared as e.1 are connected to an output of e.0. */
  function ConnectionCount(nodes: seq<NodeSpec>, e: Edge): nat {
    if nodes == [] then 0
    else
      var last := nodes[|nodes| - 1];
      ConnectionCount(nodes[..|nodes| - 1], e) + if last.id == e.1 then ConnectedTo(last.inputs, e.0) else 0
  }

  lemma {:induction false} NodeEdgesExact(lib: Library, keys: map<Id, string>, dest: NodeSpec, inputs: seq<Input>,
                                          e: Edge)
    requires NodeEdges(lib, keys, dest, inputs).Ok?
    ensures multiset(NodeEdges(lib, keys, dest, inputs).value)[e]
            == if dest.id == e.1 then ConnectedTo(inputs, e.0) else 0
  {
    if inputs != [] {
      var front, last := inputs[..|inputs| - 1], inputs[|inputs| - 1];
      NodeEdgesExact(lib, keys, dest, front, e);
      if last.connect.Some? {
        StartsAtSplit(last.connect.value, e.0);
      }
    }
  }

  /** An accepted graph has each edge as often as an input is connected that way, and no others. */
  lemma {:induction false} GraphEdgesExact(lib: Library, keys: map<Id, string>, nodes: seq<NodeSpec>, e: Edge)
    requires GraphEdges(lib, keys, nodes).Ok?
    ensures multiset(GraphEdges(lib, keys, nodes).value)[e] == ConnectionCount(nodes, e)
  {
    if nodes != [] {
      var front, last := nodes[..|nodes| - 1], nodes[|nodes| - 1];
      GraphEdgesExact(lib, keys, front, e);
      NodeEdgesExact(lib, keys, last, last.inputs, e);
    }
  }

  lemma {:induction false} ConnectedToSome(inputs: seq<Input>, src: Id)
    ensures ConnectedTo(inputs, src) > 0 <==>
            exists j :: 0 <= j < |inputs| && inputs[j].connect.Some? && StartsAt(inputs[j].connect.value, src)
  {
    if inputs != [] {
      ConnectedToSome(inputs[..|inputs| - 1], src);
    }
  }

  lemma {:induction false} CountedMeansConnection(nodes: seq<NodeSpec>, e: Edge)
    ensures ConnectionCount(nodes, e) > 0 <==> IsConnection(nodes, e)
  {
    if nodes != [] {
      var n := |nodes| - 1;
      var front := nodes[..n];
      CountedMeansConnection(front, e);
      ConnectedToSome(nodes[n].inputs, e.0);
      if IsConnection(front, e) {
        var i, j :| Feeds(front, i, j, e.0) && front[i].id == e.1;
        assert Feeds(nodes, i, j, e.0);
      }
      if ConnectedTo(nodes[n].inputs, e.0) > 0 {
        var j :| 0 <= j < |nodes[n].inputs| && nodes[n].inputs[j].connect.Some?
                 && StartsAt(nodes[n].inputs[j].connect.value, e.0);
        assert Feeds(nodes, n, j, e.0);
      }
      if IsConnection(nodes, e) {
        var i, j :| Feeds(nodes, i, j, e.0) && nodes[i].id == e.1;
        assert i < n ==> Feeds(front, i, j, e.0);
      }
    }
  }

  lemma GraphEdgesList(lib: Library, keys: map<Id, string>, nodes: seq<NodeSpec>)
    requires GraphEdges(lib, keys, nodes).Ok?
    ensures Lists(GraphEdges(lib, keys, nodes).value, nodes)
  {
    var edges := GraphEdges(lib, keys, nodes).value;
    forall e ensures e in edges <==> IsConnection(nodes, e) {
      GraphEdgesExact(lib, keys, nodes, e);
      CountedMeansConnection(nodes, e);
      assert e in edges <==> multiset(edges)[e] > 0;
    }
  }

  /** The ports a plugin advertises for a class. */
  function PortsOf(lib: Library, fullKey: string, isInput: bool): seq<Port> {
    if fullKey !in lib.capabilities then []
    else if isInput then lib.capabilities[fullKey].inputs
    else lib.capabilities[fullKey].outputs
  }

  /** The port of that name, the first one, has this number. */
  ghost predicate PortNumber(lib: Library, fullKey: string, name: string, isInput: bool, id: int) {
    exists k :: FirstNamed(PortsOf(lib, fullKey, isInput), name, k) && PortsOf(lib, fullKey, isInput)[k].id == id
  }

  ghost predicate NoPort(lib: Library, fullKey: string, name: string, isInput: bool) {
    forall p :: p in PortsOf(lib, fullKey, isInput) ==> p.name != name
  }

  lemma PortIdxIs(lib: Library, fullKey: string, name: string, isInput: bool)
    ensures NoPort(lib, fullKey, name, isInput) ==> PortIdx(lib, fullKey, name, isInput) == -1
    ensures forall id :: PortNumber(lib, fullKey, name, isInput, id) ==> PortIdx(lib, fullKey, name, isInput) == id
    ensures NoPort(lib, fullKey, name, isInput)
            || PortNumber(lib, fullKey, name, isInput, PortIdx(lib, fullKey, name, isInput))
  {
    PortIdIs(PortsOf(lib, fullKey, isInput), name);
    assert PortIdx(lib, fullKey, name, isInput) == PortId(PortsOf(lib, fullKey, isInput), name);
  }

  lemma PortIdIs(ports: seq<Port>, name: string)
    ensures (forall p :: p in ports ==> p.name != name) ==> PortId(ports, name) == -1
    ensures forall k :: FirstNamed(ports, name, k) ==> PortId(ports, name) == ports[k].id
    ensures (forall p :: p in ports ==> p.name != name)
            || exists k :: FirstNamed(ports, name, k) && ports[k].id == PortId(ports, name)
  {
    forall j, k | FirstNamed(ports, name, j) && FirstNamed(ports, name, k) ensures j == k {}
    if p :| p in ports && p.name == name {
      var k :| 0 <= k < |ports| && ports[k] == p;
      FirstOfName(ports, name, k);
    }
  }

  lemma {:induction false} FirstOfName(ports: seq<Port>, name: string, k: nat)
    requires k < |ports| && ports[k].name == name
    ensures exists j :: FirstNamed(ports, name, j)
  {
    if j :| 0 <= j < k && ports[j].name == name {
      FirstOfName(ports, name, j);
    } else {
      assert FirstNamed(ports, name, k);
    }
  }

  /** The outcome of one connection from `src` to node `dest`: the first of these checks that fails, else the edge. */
  lemma EdgeOfCases(lib: Library, keys: map<Id, string>, dest: NodeSpec, port: string, src: Id, out: string)
    requires '/' !in src
    ensures var r := EdgeOf(lib, keys, dest, port, src + "/" + out);
            && (src !in keys ==> r == Err(SourceNotFound(src)))
            && (src in keys && NoPort(lib, dest.fullKey, port, true) ==> r == Err(InputPortNotFound(port)))
            && forall i, o :: src in keys && i != -1 && PortNumber(lib, dest.fullKey, port, true, i) ==>
                 && (NoPort(lib, keys[src], out, false) ==> r == Err(OutputPortNotFound(out)))
                 && (o != -1 && PortNumber(lib, keys[src], out, false, o) ==>
                       var outs, ins := MetaOf(lib, keys[src]).outputs, MetaOf(lib, dest.fullKey).inputs;
                       r == if o < 0 || |outs| <= o then Err(OutputPortOutOfRange)
                            else if i < 0 || |ins| <= i then Err(InputPortOutOfRange)
                            else if outs[o].portType == ins[i].portType then Ok((src, dest.id))
                            else Err(TypeMismatch))
  {
    var conn := src + "/" + out;
    assert conn[..|src|] == src && conn[|src|] == '/' && conn[|src| + 1..] == out;
    Text.FindIs(conn, '/', |src|);
    PortIdxIs(lib, dest.fullKey, port, true);
    if src in keys {
      PortIdxIs(lib, keys[src], out, false);
    }
  }

  /** The first pass refuses node `i`, its class being unknown or its id taken. */
  ghost predicate Uncreated(lib: Library, nodes: seq<NodeSpec>, i: int)
    requires 0 <= i < |nodes|
  {
    nodes[i].fullKey !in lib.registry || exists j :: 0 <= j < i && nodes[j].id == nodes[i].id
  }

  /** The error of the first pass is that of the first node it refuses, the class being checked first. */
  lemma {:induction false} CreateErrorIsFirst(lib: Library, nodes: seq<NodeSpec>)
    ensures CreateError(lib, nodes).None? <==> forall i :: 0 <= i < |nodes| ==> !Uncreated(lib, nodes, i)
    ensures CreateError(lib, nodes).Some? ==>
              exists i :: 0 <= i < |nodes| && FirstUncreated(lib, nodes, i, CreateError(lib, nodes).value)
  {
    if nodes != [] {
      var n := |nodes| - 1;
      var front := nodes[..n];
      CreateErrorIsFirst(lib, front);
      forall i | 0 <= i < n ensures Uncreated(lib, nodes, i) == Uncreated(lib, front, i) {
        assert forall j :: 0 <= j < i ==> front[j] == nodes[j];
      }
      assert nodes[n].id in Ids(front) <==> exists j :: 0 <= j < n && nodes[j].id == nodes[n].id by {
        assert forall j :: 0 <= j < n ==> Ids(front)[j] == nodes[j].id;
      }
      if CreateError(lib, front).Some? {
        var e := CreateError(lib, front).value;
        var i :| 0 <= i < |front| && FirstUncreated(lib, front, i, e);
        assert FirstUncreated(lib, nodes, i, e);
      } else if CreateError(lib, nodes).Some? {
        assert FirstUncreated(lib, nodes, n, CreateError(lib, nodes).value);
      }
    }
  }

  ghost predicate FirstUncreated(lib: Library, nodes: seq<NodeSpec>, i: int, e: LoadError)
    requires 0 <= i < |nodes|
  {
    && Uncreated(lib, nodes, i) && (forall j :: 0 <= j < i ==> !Uncreated(lib, nodes, j))
    && e == if nodes[i].fullKey in lib.registry then StepExists(nodes[i].id) else NodeNotCreated(nodes[i].fullKey)
  }

  /** With unique ids each one stands for the class it was declared with. */
  lemma {:induction false} KeyMapIs(nodes: seq<NodeSpec>, i: nat)
    requires i < |nodes| && NoDuplicates(Ids(nodes))
    ensures nodes[i].id in KeyMap(nodes) && KeyMap(nodes)[nodes[i].id] == nodes[i].fullKey
  {
    var n := |nodes| - 1;
    if i < n {
      KeyMapIs(nodes[..n], i);
      assert Ids(nodes)[i] != Ids(nodes)[n];
    }
  }

  // ---------- degrees ----------

  /** The targets of `u`'s edges, one for each edge. */
  function Targets(edges: seq<Edge>, u: Id): (targets: seq<Id>) {
    if edges == [] then []
    else Targets(edges[..|edges| - 1], u) + if edges[|edges| - 1].0 == u then [edges[|edges| - 1].1] else []
  }

  /** The number of edges into `v` whose source is not in `done`. */
  function Remaining(edges: seq<Edge>, done: set<Id>, v: Id): nat {
    if edges == [] then 0
    else
      var e := edges[|edges| - 1];
      Remaining(edges[..|edges| - 1], done, v) + if e.1 == v && e.0 !in done then 1 else 0
  }

  function Times(s: seq<Id>, v: Id): nat {
    if s == [] then 0 else Times(s[..|s| - 1], v) + if s[|s| - 1] == v then 1 else 0
  }

  lemma {:induction false} RemainingZero(edges: seq<Edge>, done: set<Id>, v: Id)
    ensures Remaining(edges, done, v) == 0 <==> forall e :: e in edges && e.1 == v ==> e.0 in done
  {
    if edges != [] {
      var front, last := edges[..|edges| - 1], edges[|edges| - 1];
      RemainingZero(front, done, v);
      assert edges == front + [last];
    }
  }

  /** Taking `u` out of the graph takes away as many edges into `v` as `u` has to `v`. */
  lemma {:induction false} RemainingWithout(edges: seq<Edge>, done: set<Id>, u: Id, v: Id)
    requires u !in done
    ensures Remaining(edges, done, v) == Remaining(edges, done + {u}, v) + Times(Targets(edges, u), v)
  {
    if edges != [] {
      var front, last := edges[..|edges| - 1], edges[|edges| - 1];
      RemainingWithout(front, done, u, v);
      if last.0 == u {
        assert Targets(edges, u)[..|Targets(edges, u)| - 1] == Targets(front, u);
      } else {
        assert Targets(edges, u) == Targets(front, u);
      }
    }
  }

  lemma {:induction false} TimesSplit(s: seq<Id>, k: nat, v: Id)
    requires k < |s|
    ensures Times(s[..k + 1], v) == Times(s[..k], v) + if s[k] == v then 1 else 0
    ensures Times(s[..k + 1], v) <= Times(s, v)
  {
    assert s[..k + 1][..k] == s[..k];
    if k < |s| - 1 {
      TimesSplit(s[..|s| - 1], k, v);
      assert s[..|s| - 1][..k + 1] == s[..k + 1] && s[..|s| - 1][..k] == s[..k];
    } else {
      assert s[..k + 1] == s;
    }
  }

  lemma {:induction false} TargetsAreTargets(edges: seq<Edge>, u: Id)
    ensures forall v :: v in Targets(edges, u) ==> (u, v) in edges
  {
    if edges != [] {
      TargetsAreTargets(edges[..|edges| - 1], u);
    }
  }

  // ---------- the second pass ----------

  function Adjacent(adj: map<Id, seq<Id>>, u: Id): seq<Id> {
    if u in adj then adj[u] else []
  }

  /** adj and in_degree describe the edges. */
  ghost predicate Built(ids: seq<Id>, edges: seq<Edge>, adj: map<Id, seq<Id>>, inDegree: map<Id, int>) {
    && (forall u :: Adjacent(adj, u) == Targets(edges, u))
    && (forall v :: v in ids ==> v in inDegree && inDegree[v] == Remaining(edges, {}, v))
  }

  method ConnectInput(lib: Library, keys: map<Id, string>, dest: NodeSpec, port: string, conn: string)
    returns (r: Result<Edge, LoadError>)
    ensures r == EdgeOf(lib, keys, dest, port, conn)
  {
    var split := SplitConn(conn);
    if split.Err? {
      return Err(split.error);
    }
    var (src, out) := split.value;
    if src !in keys {
      return Err(SourceNotFound(src));
    }
    var inIdx := FindPortIdx(lib, dest.fullKey, port, true);
    if inIdx == -1 {
      return Err(InputPortNotFound(port));
    }
    var outIdx := FindPortIdx(lib, keys[src], out, false);
    if outIdx == -1 {
      return Err(OutputPortNotFound(out));
    }
    var refused := PipeError(MetaOf(lib, keys[src]), MetaOf(lib, dest.fullKey), outIdx, inIdx);
    return if refused.Some? then Err(refused.value) else Ok((src, dest.id));
  }

  lemma OneMoreEdge(edges: seq<Edge>, e: Edge, u: Id)
    ensures Targets(edges + [e], u) == Targets(edges, u) + if e.0 == u then [e.1] else []
    ensures Remaining(edges + [e], {}, u) == Remaining(edges, {}, u) + if e.1 == u then 1 else 0
  {
    assert (edges + [e])[..|edges + [e]| - 1] == edges;
  }

  lemma AddEdgeBuilds(ids: seq<Id>, edges: seq<Edge>, adj: map<Id, seq<Id>>, inDegree: map<Id, int>, e: Edge)
    requires Built(ids, edges, adj, inDegree) && e.1 in ids
    ensures Built(ids, edges + [e], adj[e.0 := Adjacent(adj, e.0) + [e.1]], inDegree[e.1 := inDegree[e.1] + 1])
  {
    var adj' := adj[e.0 := Adjacent(adj, e.0) + [e.1]];
    forall u ensures Adjacent(adj', u) == Targets(edges + [e], u) {
      OneMoreEdge(edges, e, u);
      assert Adjacent(adj, u) == Targets(edges, u);
    }
    forall v ensures Remaining(edges + [e], {}, v) == Remaining(edges, {}, v) + if e.1 == v then 1 else 0 {
      OneMoreEdge(edges, e, v);
    }
  }

  lemma NodeEdgesStep(lib: Library, keys: map<Id, string>, dest: NodeSpec, j: nat)
    requires j < |dest.inputs| && NodeEdges(lib, keys, dest, dest.inputs[..j]).Ok?
    ensures var edges := NodeEdges(lib, keys, dest, dest.inputs[..j]).value;
            var input := dest.inputs[j];
            NodeEdges(lib, keys, dest, dest.inputs[..j + 1]) ==
              if input.connect.None? then Ok(edges)
              else
                var edge := EdgeOf(lib, keys, dest, input.port, input.connect.value);
                if edge.Err? then Err(edge.error) else Ok(edges + [edge.value])
  {
    assert dest.inputs[..j + 1][..j] == dest.inputs[..j];
  }

  /** What the graph under construction and the inputs read so far have to do with each other. */
  ghost predicate Connected(lib: Library, keys: map<Id, string>, dest: NodeSpec, ids: seq<Id>, before: seq<Edge>,
                            j: nat, adj: map<Id, seq<Id>>, inDegree: map<Id, int>)
    requires j <= |dest.inputs|
  {
    var edges := NodeEdges(lib, keys, dest, dest.inputs[..j]);
    edges.Ok? && Built(ids, before + edges.value, adj, inDegree)
  }

  lemma ConnectedStep(lib: Library, keys: map<Id, string>, dest: NodeSpec, ids: seq<Id>, before: seq<Edge>, j: nat,
                      adj: map<Id, seq<Id>>, inDegree: map<Id, int>, edge: Edge)
    requires j < |dest.inputs| && Connected(lib, keys, dest, ids, before, j, adj, inDegree) && edge.1 in ids
    requires NodeEdges(lib, keys, dest, dest.inputs[..j + 1])
             == Ok(NodeEdges(lib, keys, dest, dest.inputs[..j]).value + [edge])
    ensures Connected(lib, keys, dest, ids, before, j + 1,
                      adj[edge.0 := Adjacent(adj, edge.0) + [edge.1]], inDegree[edge.1 := inDegree[edge.1] + 1])
  {
    var edges := NodeEdges(lib, keys, dest, dest.inputs[..j]).value;
    AddEdgeBuilds(ids, before + edges, adj, inDegree, edge);
    assert before + edges + [edge] == before + (edges + [edge]);
  }

  /** One node of the second pass: for every connected input, adj[src].push_back(dest) and in_degree[dest]++. */
  method ConnectNode(lib: Library, keys: map<Id, string>, dest: NodeSpec, ids: seq<Id>, ghost before: seq<Edge>,
                     adj0: map<Id, seq<Id>>, inDegree0: map<Id, int>)
    returns (r: Result<(map<Id, seq<Id>>, map<Id, int>), LoadError>)
    requires dest.id in ids && Built(ids, before, adj0, inDegree0)
    ensures r.Err? ==> NodeEdges(lib, keys, dest, dest.inputs) == Err(r.error)
    ensures r.Ok? ==> NodeEdges(lib, keys, dest, dest.inputs).Ok?
                      && Built(ids, before + NodeEdges(lib, keys, dest, dest.inputs).value, r.value.0, r.value.1)
  {
    var adj, inDegree := adj0, inDegree0;
    assert before + [] == before;
    for j := 0 to |dest.inputs|
      invariant Connected(lib, keys, dest, ids, before, j, adj, inDegree)
    {
      NodeEdgesStep(lib, keys, dest, j);
      var input := dest.inputs[j];
      if input.connect.Some? {
        var edge := ConnectInput(lib, keys, dest, input.port, input.connect.value);
        if edge.Err? {
          RefusedNode(lib, keys, dest, dest.inputs, j + 1);
          return Err(edge.error);
        }
        var (src, dst) := edge.value;
        ConnectedStep(lib, keys, dest, ids, before, j, adj, inDegree, edge.value);
        adj := adj[src := Adjacent(adj, src) + [dst]];
        inDegree := inDegree[dst := inDegree[dst] + 1];
      }
    }
    assert dest.inputs[..|dest.inputs|] == dest.inputs;
    return Ok((adj, inDegree));
  }

  /** The second pass over all nodes. */
  method BuildGraph(lib: Library, nodes: seq<NodeSpec>, keys: map<Id, string>, inDegree0: map<Id, int>)
    returns (r: Result<(map<Id, seq<Id>>, map<Id, int>), LoadError>)
    requires forall v :: v in Ids(nodes) ==> v in inDegree0 && inDegree0[v] == 0
    ensures r.Err? ==> GraphEdges(lib, keys, nodes) == Err(r.error)
    ensures r.Ok? ==> GraphEdges(lib, keys, nodes).Ok?
                      && Built(Ids(nodes), GraphEdges(lib, keys, nodes).value, r.value.0, r.value.1)
  {
    var adj: map<Id, seq<Id>> := map[];
    var inDegree := inDegree0;
    for i := 0 to |nodes|
      invariant GraphEdges(lib, keys, nodes[..i]).Ok?
      invariant Built(Ids(nodes), GraphEdges(lib, keys, nodes[..i]).value, adj, inDegree)
    {
      assert nodes[..i + 1][..i] == nodes[..i];
      assert Ids(nodes)[i] == nodes[i].id;
      var step := ConnectNode(lib, keys, nodes[i], Ids(nodes), GraphEdges(lib, keys, nodes[..i]).value, adj, inDegree);
      if step.Err? {
        RefusedGraph(lib, keys, nodes, i + 1);
        return Err(step.error);
      }
      adj, inDegree := step.value.0, step.value.1;
    }
    assert nodes[..|nodes|] == nodes;
    return Ok((adj, inDegree));
  }

  lemma {:induction false} RefusedNode(lib: Library, keys: map<Id, string>, dest: NodeSpec, inputs: seq<Input>, k: nat)
    requires k <= |inputs| && NodeEdges(lib, keys, dest, inputs[..k]).Err?
    ensures NodeEdges(lib, keys, dest, inputs) == NodeEdges(lib, keys, dest, inputs[..k])
  {
    if k == |inputs| {
      assert inputs[..k] == inputs;
    } else {
      assert inputs[..|inputs| - 1][..k] == inputs[..k];
      RefusedNode(lib, keys, dest, inputs[..|inputs| - 1], k);
    }
  }

  lemma {:induction false} RefusedGraph(lib: Library, keys: map<Id, string>, nodes: seq<NodeSpec>, k: nat)
    requires k <= |nodes| && GraphEdges(lib, keys, nodes[..k]).Err?
    ensures GraphEdges(lib, keys, nodes) == GraphEdges(lib, keys, nodes[..k])
  {
    if k == |nodes| {
      assert nodes[..k] == nodes;
    } else {
      assert nodes[..|nodes| - 1][..k] == nodes[..k];
      RefusedGraph(lib, keys, nodes[..|nodes| - 1], k);
    }
  }

  // ---------- Kahn's loop ----------

  /** Between two rounds: `q` are the nodes with no source left, not yet emitted. */
  ghost predicate Frontier(ids: seq<Id>, edges: seq<Edge>, sorted: seq<Id>, q: seq<Id>, inDegree: map<Id, int>) {
    && NoDuplicates(sorted + q)
    && (forall v :: v in sorted + q ==> v in ids)
    && (forall v :: v in ids ==> v in inDegree && inDegree[v] == Remaining(edges, Members(sorted), v))
    && (forall v :: v in ids ==> (v in sorted + q <==> inDegree[v] == 0))
    && (forall k :: 0 <= k < |sorted| ==> SourcesEarlier(edges, sorted, k))
  }

  /** While u's edges are taken away one by one: `k` of them are gone. */
  ghost predicate Releasing(ids: seq<Id>, edges: seq<Edge>, done: set<Id>, u: Id, k: nat, listed: seq<Id>,
                            inDegree: map<Id, int>)
    requires k <= |Targets(edges, u)|
  {
    && NoDuplicates(listed)
    && (forall v :: v in listed ==> v in ids)
    && (forall v :: v in ids ==>
          v in inDegree && inDegree[v] == Remaining(edges, done, v) - Times(Targets(edges, u)[..k], v))
    && (forall v :: v in ids ==> (v in listed <==> inDegree[v] == 0))
  }

  lemma ReleaseOne(ids: seq<Id>, edges: seq<Edge>, done: set<Id>, u: Id, k: nat, listed: seq<Id>,
                   inDegree: map<Id, int>)
    requires Within(ids, edges) && u !in done && k < |Targets(edges, u)|
    requires Releasing(ids, edges, done, u, k, listed, inDegree)
    ensures var v := Targets(edges, u)[k];
            v in ids && inDegree[v] > 0
            && Releasing(ids, edges, done, u, k + 1, if inDegree[v] - 1 == 0 then listed + [v] else listed,
                         inDegree[v := inDegree[v] - 1])
  {
    var targets := Targets(edges, u);
    var v := targets[k];
    TargetsAreTargets(edges, u);
    assert v in targets;
    forall x ensures Times(targets[..k + 1], x) == Times(targets[..k], x) + if v == x then 1 else 0 {
      TimesSplit(targets, k, x);
    }
    TimesSplit(targets, k, v);
    RemainingWithout(edges, done, u, v);
    var listed' := if inDegree[v] - 1 == 0 then listed + [v] else listed;
    assert v !in listed;
    assert NoDuplicates(listed');
  }

  method Release(ids: seq<Id>, ghost edges: seq<Edge>, targets: seq<Id>, u: Id, ghost sorted: seq<Id>,
                 q0: seq<Id>, inDegree0: map<Id, int>)
    returns (q: seq<Id>, inDegree: map<Id, int>)
    requires Within(ids, edges) && targets == Targets(edges, u) && u !in sorted
    requires Releasing(ids, edges, Members(sorted), u, 0, sorted + [u] + q0, inDegree0)
    ensures Releasing(ids, edges, Members(sorted), u, |targets|, sorted + [u] + q, inDegree)
  {
    q, inDegree := q0, inDegree0;
    ghost var listed := sorted + [u] + q;
    for k := 0 to |targets|
      invariant listed == sorted + [u] + q
      invariant Releasing(ids, edges, Members(sorted), u, k, listed, inDegree)
    {
      var v := targets[k];
      ReleaseOne(ids, edges, Members(sorted), u, k, listed, inDegree);
      AppendAssociates(sorted + [u], q, v);
      listed := if inDegree[v] - 1 == 0 then listed + [v] else listed;
      inDegree := inDegree[v := inDegree[v] - 1];
      if inDegree[v] == 0 {
        q := q + [v];
      }
    }
  }

  lemma AppendAssociates(a: seq<Id>, b: seq<Id>, v: Id)
    ensures a + b + [v] == a + (b + [v])
  {
  }

  lemma FrontierOpens(ids: seq<Id>, edges: seq<Edge>, sorted: seq<Id>, q: seq<Id>, inDegree: map<Id, int>)
    requires Frontier(ids, edges, sorted, q, inDegree) && q != []
    ensures q[0] !in sorted
    ensures Releasing(ids, edges, Members(sorted), q[0], 0, sorted + [q[0]] + q[1..], inDegree)
  {
    var all := sorted + q;
    assert sorted + [q[0]] + q[1..] == all;
    forall k | 0 <= k < |sorted| ensures sorted[k] != q[0] {
      assert all[k] != all[|sorted|];
    }
  }

  lemma FrontierCloses(ids: seq<Id>, edges: seq<Edge>, sorted: seq<Id>, q0: seq<Id>, q: seq<Id>,
                       inDegree0: map<Id, int>, inDegree: map<Id, int>)
    requires Frontier(ids, edges, sorted, q0, inDegree0) && q0 != [] && q0[0] !in sorted
    requires Releasing(ids, edges, Members(sorted), q0[0], |Targets(edges, q0[0])|, sorted + [q0[0]] + q, inDegree)
    ensures Frontier(ids, edges, sorted + [q0[0]], q, inDegree)
  {
    var u := q0[0];
    var sorted' := sorted + [u];
    assert Members(sorted') == Members(sorted) + {u};
    assert Targets(edges, u)[..|Targets(edges, u)|] == Targets(edges, u);
    forall v | v in ids ensures inDegree[v] == Remaining(edges, Members(sorted'), v) {
      RemainingWithout(edges, Members(sorted), u, v);
    }
    assert u in sorted + q0;
    RemainingZero(edges, Members(sorted), u);
    forall k | 0 <= k < |sorted'| ensures SourcesEarlier(edges, sorted', k) {
      assert sorted'[..k] == sorted[..k];
      assert k < |sorted| ==> SourcesEarlier(edges, sorted, k);
    }
  }

  lemma FrontierDone(ids: seq<Id>, edges: seq<Edge>, sorted: seq<Id>, inDegree: map<Id, int>)
    requires Frontier(ids, edges, sorted, [], inDegree)
    ensures Peeled(ids, edges, sorted)
  {
    assert sorted + [] == sorted;
    forall v | v in ids && v !in sorted ensures HasLeftSource(edges, sorted, v) {
      RemainingZero(edges, Members(sorted), v);
      var e :| e in edges && e.1 == v && e.0 !in Members(sorted);
    }
  }

  method Peel(ids: seq<Id>, ghost edges: seq<Edge>, adj: map<Id, seq<Id>>, inDegree0: map<Id, int>)
    returns (initOrder: seq<Id>)
    requires NoDuplicates(ids) && Within(ids, edges) && Built(ids, edges, adj, inDegree0)
    ensures Peeled(ids, edges, initOrder)
  {
    var inDegree, q := inDegree0, [];
    for i := 0 to |ids|
      invariant NoDuplicates(q) && forall v :: v in q <==> v in ids[..i] && inDegree[v] == 0
    {
      if inDegree[ids[i]] == 0 {
        q := q + [ids[i]];
      }
    }
    assert ids[..|ids|] == ids;
    initOrder := [];
    assert Members(initOrder) == {} && initOrder + q == q;
    while q != []
      invariant Frontier(ids, edges, initOrder, q, inDegree)
      decreases |ids| - |initOrder|
    {
      var u := q[0];
      FrontierOpens(ids, edges, initOrder, q, inDegree);
      var q', inDegree' := Release(ids, edges, Adjacent(adj, u), u, initOrder, q[1..], inDegree);
      FrontierCloses(ids, edges, initOrder, q, q', inDegree, inDegree');
      initOrder, q, inDegree := initOrder + [u], q', inDegree';
      EmittedFit(ids, edges, initOrder, q, inDegree);
    }
    FrontierDone(ids, edges, initOrder, inDegree);
  }

  lemma EmittedFit(ids: seq<Id>, edges: seq<Edge>, sorted: seq<Id>, q: seq<Id>, inDegree: map<Id, int>)
    requires Frontier(ids, edges, sorted, q, inDegree)
    ensures |sorted| <= |ids|
  {
    assert forall k :: 0 <= k < |sorted| ==> (sorted + q)[k] == sorted[k];
    DistinctFit(ids, sorted);
  }

  /** The fallback loop over node_ids, skipping the visited ones. */
  method AppendLeftOver(ids: seq<Id>, sorted: seq<Id>) returns (order: seq<Id>)
    ensures order == sorted + LeftOver(ids, sorted)
  {
    order := sorted;
    for i := 0 to |ids|
      invariant order == sorted + LeftOver(ids[..i], sorted)
    {
      assert ids[..i + 1][..i] == ids[..i];
      if ids[i] !in sorted {
        order := order + [ids[i]];
      }
    }
    assert ids[..|ids|] == ids;
  }

  // ---------- the whole load ----------

  lemma CreateOneMore(lib: Library, nodes: seq<NodeSpec>, i: nat)
    requires i < |nodes| && CreateError(lib, nodes[..i]).None?
    ensures CreateError(lib, nodes[..i + 1])
            == if nodes[i].fullKey !in lib.registry then Some(NodeNotCreated(nodes[i].fullKey))
               else if nodes[i].id in Ids(nodes[..i]) then Some(StepExists(nodes[i].id)) else None
    ensures Ids(nodes[..i + 1]) == Ids(nodes[..i]) + [nodes[i].id]
    ensures KeyMap(nodes[..i + 1]) == KeyMap(nodes[..i])[nodes[i].id := nodes[i].fullKey]
  {
    assert nodes[..i + 1][..i] == nodes[..i];
  }

  /** The first pass: node_ids, in_degree and the classes, or the first error. */
  method CreateNodes(lib: Library, nodes: seq<NodeSpec>)
    returns (r: Result<(seq<Id>, map<Id, int>, map<Id, string>), LoadError>)
    ensures r.Err? ==> CreateError(lib, nodes) == Some(r.error)
    ensures r.Ok? ==> CreateError(lib, nodes).None? && r.value.0 == Ids(nodes) && r.value.2 == KeyMap(nodes)
                      && forall v :: v in Ids(nodes) ==> v in r.value.1 && r.value.1[v] == 0
  {
    var nodeIds: seq<Id> := [];
    var inDegree: map<Id, int> := map[];
    var keys: map<Id, string> := map[];
    for i := 0 to |nodes|
      invariant CreateError(lib, nodes[..i]).None?
      invariant nodeIds == Ids(nodes[..i]) && keys == KeyMap(nodes[..i])
      invariant forall v :: v in nodeIds ==> v in inDegree && inDegree[v] == 0
    {
      CreateOneMore(lib, nodes, i);
      var node := nodes[i];
      if node.fullKey !in lib.registry {
        FirstCreateError(lib, nodes, i + 1);
        return Err(NodeNotCreated(node.fullKey));
      }
      if node.id in nodeIds {
        FirstCreateError(lib, nodes, i + 1);
        return Err(StepExists(node.id));
      }
      nodeIds, inDegree, keys := nodeIds + [node.id], inDegree[node.id := 0], keys[node.id := node.fullKey];
    }
    assert nodes[..|nodes|] == nodes;
    return Ok((nodeIds, inDegree, keys));
  }

  /** What the third pass hands to Studio: the peeled nodes, then the left-over ones as declared. */
  ghost predicate OrdersNodes(ids: seq<Id>, edges: seq<Edge>, loaded: Loaded) {
    && InitializationOrder(ids, edges, loaded.order)
    && (loaded.hasCycle <==> exists v :: OnCycle(edges, v))
    && exists sorted :: Peeled(ids, edges, sorted) && loaded.order == sorted + LeftOver(ids, sorted)
  }

  /** The third pass, up to set_topology_order. */
  method OrderNodes(nodeIds: seq<Id>, ghost edges: seq<Edge>, adj: map<Id, seq<Id>>, inDegree: map<Id, int>)
    returns (loaded: Loaded)
    requires NoDuplicates(nodeIds) && Within(nodeIds, edges) && Built(nodeIds, edges, adj, inDegree)
    ensures OrdersNodes(nodeIds, edges, loaded)
  {
    var initOrder := Peel(nodeIds, edges, adj, inDegree);
    var hasCycle := |initOrder| < |nodeIds|;
    CycleWarningExact(nodeIds, edges, initOrder);
    FallbackGivesInitializationOrder(nodeIds, edges, initOrder);
    var order := initOrder;
    if hasCycle {
      order := AppendLeftOver(nodeIds, initOrder);
    } else {
      NothingLeftOver(nodeIds, initOrder);
    }
    assert order == initOrder + LeftOver(nodeIds, initOrder);
    return Loaded(order, hasCycle);
  }

  lemma SamePaths(edges: seq<Edge>, edges': seq<Edge>)
    requires forall e :: e in edges <==> e in edges'
    ensures forall p :: IsPath(edges, p) <==> IsPath(edges', p)
  {
    forall p ensures IsPath(edges, p) <==> IsPath(edges', p) {
      assert forall i :: 0 <= i < |p| - 1 ==> Joined(edges, p, i) == Joined(edges', p, i);
    }
  }

  /** Cycles, and what lies behind them, depend on which edges there are, not on their listing. */
  lemma SameCycles(edges: seq<Edge>, edges': seq<Edge>)
    requires forall e :: e in edges <==> e in edges'
    ensures forall v :: OnCycle(edges, v) <==> OnCycle(edges', v)
    ensures forall v :: BehindCycle(edges, v) <==> BehindCycle(edges', v)
  {
    SamePaths(edges, edges');
  }

  /** The order serves the connections of the declared nodes, and the cycle flag is exact, however they are listed. */
  ghost predicate Serves(nodes: seq<NodeSpec>, loaded: Loaded) {
    forall edges :: Lists(edges, nodes) ==>
      InitializationOrder(Ids(nodes), edges, loaded.order) && (loaded.hasCycle <==> exists v :: OnCycle(edges, v))
  }

  lemma OrderServes(lib: Library, nodes: seq<NodeSpec>, edges: seq<Edge>, loaded: Loaded)
    requires Lists(edges, nodes) && OrdersNodes(Ids(nodes), edges, loaded)
    ensures Serves(nodes, loaded)
  {
    forall edges' | Lists(edges', nodes)
      ensures InitializationOrder(Ids(nodes), edges', loaded.order)
      ensures loaded.hasCycle <==> exists v :: OnCycle(edges', v)
    {
      assert forall e :: e in edges' <==> IsConnection(nodes, e);
      SameCycles(edges, edges');
    }
  }

  /** load_json. A failed load throws the first error of the first pass, else the first of the second. A load that
      succeeds gives Studio an initialization order and warns of a cycle exactly when there is one. */
  method LoadJson(lib: Library, nodes: seq<NodeSpec>) returns (r: Result<Loaded, LoadError>)
    ensures CreateError(lib, nodes).Some? ==> r == Err(CreateError(lib, nodes).value)
    ensures CreateError(lib, nodes).None? ==>
              match GraphEdges(lib, KeyMap(nodes), nodes)
              case Err(e) => r == Err(e)
              case Ok(edges) => r.Ok? && OrdersNodes(Ids(nodes), edges, r.value) && Lists(edges, nodes)
    ensures r.Ok? ==> Serves(nodes, r.value)
  {
    var created := CreateNodes(lib, nodes);
    if created.Err? {
      return Err(created.error);
    }
    var (nodeIds, inDegree, keys) := created.value;
    CreatedIdsDistinct(lib, nodes);
    var graph := BuildGraph(lib, nodes, keys, inDegree);
    if graph.Err? {
      return Err(graph.error);
    }
    GraphEdgesWithin(lib, keys, nodes);
    var loaded := OrderNodes(nodeIds, GraphEdges(lib, keys, nodes).value, graph.value.0, graph.value.1);
    GraphEdgesList(lib, keys, nodes);
    OrderServes(lib, nodes, GraphEdges(lib, keys, nodes).value, loaded);
    return Ok(loaded);
  }

  lemma NothingLeftOver(ids: seq<Id>, sorted: seq<Id>)
    requires NoDuplicates(ids) && NoDuplicates(sorted) && (forall v :: v in sorted ==> v in ids)
    requires |ids| <= |sorted|
    ensures sorted + LeftOver(ids, sorted) == sorted
  {
    var rest := LeftOver(ids, sorted);
    if rest != [] {
      assert rest[0] in rest;
      LeftOverShortens(ids, sorted, rest[0]);
    }
  }

  lemma {:induction false} FirstCreateError(lib: Library, nodes: seq<NodeSpec>, k: nat)
    requires k <= |nodes| && CreateError(lib, nodes[..k]).Some?
    ensures CreateError(lib, nodes) == CreateError(lib, nodes[..k])
  {
    if k == |nodes| {
      assert nodes[..k] == nodes;
    } else {
      assert nodes[..|nodes| - 1][..k] == nodes[..k];
      FirstCreateError(lib, nodes[..|nodes| - 1], k);
    }
  }
}
