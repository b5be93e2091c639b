/**
 * The mapper documents of the XML query package: a root node carrying a
 * namespace and a default datasource, and four lists of statement nodes
 * (insert, delete, update, select), each node an id, an optional datasource
 * and its SQL text.
 */
module XmlNodes {
  datatype NodeType = InsertType | DeleteType | UpdateType | SelectType

  /** `insertNode`, `deleteNode`, `updateNode` and `selectNode` share this shape; the list a node sits in gives its type. */
  datatype Node = Node(id: string, datasource: string, innerXml: string)

  /** `rootNode`. */
  datatype RootNode = RootNode(
    namespace: string,
    datasource: string,
    insertNodes: seq<Node>,
    deleteNodes: seq<Node>,
    updateNodes: seq<Node>,
    selectNodes: seq<Node>)

  /** The list of the root's nodes of type `nt`. */
  function NodesOf(rn: RootNode, nt: NodeType): seq<Node>
  {
    match nt
    case InsertType => rn.insertNodes
    case DeleteType => rn.deleteNodes
    case UpdateType => rn.updateNodes
    case SelectType => rn.selectNodes
  }

  /** Every node of the root: insert, then delete, then update, then select nodes. */
  function AllNodes(rn: RootNode): (nodes: seq<Node>)
    ensures forall nt: NodeType, n :: n in NodesOf(rn, nt) ==> n in nodes
    ensures forall n :: n in nodes ==> exists nt: NodeType :: n in NodesOf(rn, nt)
    ensures |nodes| == |rn.insertNodes| + |rn.deleteNodes| + |rn.updateNodes| + |rn.selectNodes|
  {
    var nodes := rn.insertNodes + rn.deleteNodes + rn.updateNodes + rn.selectNodes;
    assert forall n :: n in nodes ==> n in NodesOf(rn, InsertType) || n in NodesOf(rn, DeleteType)
                                      || n in NodesOf(rn, UpdateType) || n in NodesOf(rn, SelectType);
    nodes
  }
}
