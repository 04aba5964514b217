/**
 * The shapes of the flow graph (src/types.ts) and the store's action union
 * (src/context/FlowContext.tsx). Coordinates and zoom are reals, an
 * idealisation of JavaScript numbers.
 */
module FlowTypes {

  /** `T | null` (and an absent optional field). */
  datatype Option<+T> = None | Some(value: T)

  datatype Position = Position(x: real, y: real)

  /** The viewport transform: screen = world * zoom + (x, y). */
  datatype Transform = Transform(x: real, y: real, zoom: real)

  type Params = map<string, string>

  datatype Node = Node(id: string, description: Option<string>, prompt: string, position: Position)

  datatype Edge = Edge(
    id: string,
    sourceNodeId: string,
    targetNodeId: string,
    condition: string,
    parameters: Option<Params>)

  /** The store's single aggregate, with the two fields the reducer uses beyond src/types.ts. */
  datatype FlowState = FlowState(
    flowName: string,
    nodes: seq<Node>,
    edges: seq<Edge>,
    startNodeId: Option<string>,
    selectedNodeId: Option<string>,
    selectedEdgeId: Option<string>,
    transform: Transform,
    lastInteractionPosition: Option<Position>)

  /** `Partial<Node>`: a `Some` field is a key present in the patch. */
  datatype NodePatch = NodePatch(
    newId: Option<string>,
    newDescription: Option<string>,
    newPrompt: Option<string>,
    newPosition: Option<Position>)

  /** `Partial<Edge>`. */
  datatype EdgePatch = EdgePatch(
    newEdgeId: Option<string>,
    newSource: Option<string>,
    newTarget: Option<string>,
    newCondition: Option<string>,
    newParameters: Option<Params>)

  /** The thirteen action kinds, plus any other `type` string (the reducer's `default`). */
  datatype Action =
    | AddNode(node: Node)
    | UpdateNode(nodeId: string, data: NodePatch)
    | RemoveNode(removedNodeId: string)
    | AddEdge(edge: Edge)
    | UpdateEdge(edgeId: string, patch: EdgePatch)
    | RemoveEdge(removedEdgeId: string)
    | SetStartNode(startId: string)
    | SetSelectedNode(selectNode: Option<string>)
    | SetSelectedEdge(selectEdge: Option<string>)
    | MoveNode(movedId: string, to: Position)
    | SetTransform(newTransform: Transform)
    | ImportFlow(flow: FlowState)
    | SetFlowName(name: string)
    | Unrecognized(kind: string)

  /** JavaScript truthiness of a `string | null`: present and not "". */
  predicate Truthy(o: Option<string>) {
    o.Some? && o.value != ""
  }

  /** The ids of the nodes. */
  function NodeIds(nodes: seq<Node>): set<string> {
    set n | n in nodes :: n.id
  }

  /** The ids of the edges. */
  function EdgeIds(edges: seq<Edge>): set<string> {
    set e | e in edges :: e.id
  }

  /** `u.substring(0, n)`: the first n characters, or all of a shorter string. */
  function Prefix(u: string, n: nat): (r: string)
    ensures |r| == if |u| < n then |u| else n
    ensures r == u[..|r|]
  {
    if |u| <= n then u else u[..n]
  }

  /** A patch that carries only a new id, as the node editor sends. */
  function IdPatch(newId: string): NodePatch {
    NodePatch(Some(newId), None, None, None)
  }
}
