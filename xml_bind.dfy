/**
 * Binding mapper documents to their namespaces and finding statement nodes.
 * Binding refuses an empty or already-bound namespace, stores the root, and
 * only then validates its nodes, so a root that fails validation stays bound.
 * A lookup searches one node type's list, and the last node with the
 * requested id wins. Go panics are modelled as returned errors.
 */
module XmlBind {
  import opened Wrappers
  import opened XmlNodes

  datatype BindError =
    | ErrUnmarshal
    | ErrNSEmpty
    | ErrNSDuplicate
    | ErrIDEmpty
    | ErrSQLEmpty
    | ErrUnbindNamespace
    | ErrUnbindNode

  /** A node passes validation: it has an id and SQL text. */
  predicate NodeOk(n: Node)
  {
    n.id != "" && n.innerXml != ""
  }

  /** What `checkNode` reports about `nodes`: the complaint about the first node that fails, if any. */
  function FirstFailure(nodes: seq<Node>): (r: Option<BindError>)
    ensures r.None? || r == Some(ErrIDEmpty) || r == Some(ErrSQLEmpty)
  {
    if nodes == [] then None
    else if nodes[0].id == "" then Some(ErrIDEmpty)
    else if nodes[0].innerXml == "" then Some(ErrSQLEmpty)
    else FirstFailure(nodes[1..])
  }

  /**
   * Validation passes exactly when every node has an id and SQL; otherwise it names the first
   * failing node `k`, all nodes before it pass, and the error says which of the two it lacks,
   * an empty id taking precedence over empty SQL.
   */
  lemma {:induction false} FirstFailureSpec(nodes: seq<Node>) returns (k: nat)
    ensures FirstFailure(nodes).None? <==> forall j :: 0 <= j < |nodes| ==> NodeOk(nodes[j])
    ensures FirstFailure(nodes).Some? ==>
      && k < |nodes| && !NodeOk(nodes[k])
      && (forall j :: 0 <= j < k ==> NodeOk(nodes[j]))
      && FirstFailure(nodes) == (if nodes[k].id == "" then Some(ErrIDEmpty) else Some(ErrSQLEmpty))
  {
    k := 0;
    if nodes != [] && NodeOk(nodes[0]) {
      var k' := FirstFailureSpec(nodes[1..]);
      k := k' + 1;
      if FirstFailure(nodes).None? {
        forall j | 0 <= j < |nodes|
          ensures NodeOk(nodes[j])
        {
          if j > 0 {
            assert nodes[j] == nodes[1..][j - 1];
          }
        }
      } else {
        forall j | 0 <= j < k
          ensures NodeOk(nodes[j])
        {
          if j > 0 {
            assert nodes[j] == nodes[1..][j - 1];
          }
        }
      }
    }
  }

  /** `checkNode(rn)`: the root's nodes in type order, validated one after another. */
  method CheckNode(rn: RootNode) returns (err: Option<BindError>)
    ensures err == FirstFailure(AllNodes(rn))
  {
    var nodes := AllNodes(rn);
    var i := 0;
    while i < |nodes|
      invariant 0 <= i <= |nodes|
      invariant FirstFailure(nodes) == FirstFailure(nodes[i..])
    {
      assert nodes[i..][1..] == nodes[i + 1..];
      if nodes[i].id == "" {
        return Some(ErrIDEmpty);
      } else if nodes[i].innerXml == "" {
        return Some(ErrSQLEmpty);
      }
      i := i + 1;
    }
    return None;
  }

  /** The last node of `nodes` whose id is `id`. */
  function LastMatch(nodes: seq<Node>, id: string): Option<Node>
  {
    if nodes == [] then None
    else if nodes[|nodes| - 1].id == id then Some(nodes[|nodes| - 1])
    else LastMatch(nodes[..|nodes| - 1], id)
  }

  /**
   * A match exists exactly when some node has the id; it is then the node at an index `k`
   * with that id after which no node has it.
   */
  lemma {:induction false} LastMatchSpec(nodes: seq<Node>, id: string) returns (k: nat)
    ensures LastMatch(nodes, id).Some? <==> exists j :: 0 <= j < |nodes| && nodes[j].id == id
    ensures LastMatch(nodes, id).Some? ==>
      && k < |nodes| && nodes[k] == LastMatch(nodes, id).value && nodes[k].id == id
      && forall j :: k < j < |nodes| ==> nodes[j].id != id
  {
    k := 0;
    if nodes != [] {
      var last := |nodes| - 1;
      if nodes[last].id == id {
        k := last;
      } else {
        var init := nodes[..last];
        k := LastMatchSpec(init, id);
        if exists j :: 0 <= j < |nodes| && nodes[j].id == id {
          var j :| 0 <= j < |nodes| && nodes[j].id == id;
          assert init[j] == nodes[j];
        }
        if LastMatch(nodes, id).Some? {
          assert nodes[k] == init[k];
        }
      }
    }
  }

  /** `getNode(namespace, id, nt)` on a given namespace map. */
  function FindNode(nodeMap: map<string, RootNode>, namespace: string, id: string, nt: NodeType)
    : (r: Result<(RootNode, Node), BindError>)
    ensures namespace !in nodeMap ==> r == Err(ErrUnbindNamespace)
    ensures namespace in nodeMap ==>
      match LastMatch(NodesOf(nodeMap[namespace], nt), id)
      case None => r == Err(ErrUnbindNode)
      case Some(n) => r == Ok((nodeMap[namespace], n))
  {
    if namespace !in nodeMap then Err(ErrUnbindNamespace)
    else
      match LastMatch(NodesOf(nodeMap[namespace], nt), id)
      case None => Err(ErrUnbindNode)
      case Some(n) => Ok((nodeMap[namespace], n))
  }

  /**
   * A successful lookup returns the bound root and a node of the requested type with the
   * requested id; a node with the id in another type's list does not count.
   */
  lemma FindNodeSpec(nodeMap: map<string, RootNode>, namespace: string, id: string, nt: NodeType)
    ensures var r := FindNode(nodeMap, namespace, id, nt);
      && (r.Ok? <==> namespace in nodeMap && exists n :: n in NodesOf(nodeMap[namespace], nt) && n.id == id)
      && (r.Ok? ==> r.value.0 == nodeMap[namespace] && r.value.1 in NodesOf(nodeMap[namespace], nt)
                    && r.value.1.id == id)
  {
    if namespace in nodeMap {
      var nodes := NodesOf(nodeMap[namespace], nt);
      var k := LastMatchSpec(nodes, id);
      if exists n :: n in nodes && n.id == id {
        var n :| n in nodes && n.id == id;
        var j :| 0 <= j < |nodes| && nodes[j] == n;
      }
    }
  }

  /** Binding a new namespace leaves the lookups of every other namespace as they were. */
  lemma BindIsolated(nodeMap: map<string, RootNode>, rn: RootNode, namespace: string, id: string, nt: NodeType)
    requires namespace != rn.namespace
    ensures FindNode(nodeMap[rn.namespace := rn], namespace, id, nt) == FindNode(nodeMap, namespace, id, nt)
  {
  }

  /** `nodeMap`: the bound roots by namespace. */
  class NodeRegistry {
    var nodeMap: map<string, RootNode>

    constructor()
      ensures nodeMap == map[]
    {
      nodeMap := map[];
    }

    /**
     * `BindRaw(bytes)`, given the outcome of unmarshalling the bytes: an unmarshal failure, an
     * empty namespace or a bound one are refused and change nothing; otherwise the root is
     * bound and then validated, and a validation failure leaves it bound.
     */
    method BindRaw(parsed: Option<RootNode>) returns (err: Option<BindError>)
      modifies this
      ensures parsed.None? ==> err == Some(ErrUnmarshal) && nodeMap == old(nodeMap)
      ensures parsed.Some? && parsed.value.namespace == "" ==> err == Some(ErrNSEmpty) && nodeMap == old(nodeMap)
      ensures parsed.Some? && parsed.value.namespace != "" && parsed.value.namespace in old(nodeMap) ==>
                err == Some(ErrNSDuplicate) && nodeMap == old(nodeMap)
      ensures parsed.Some? && parsed.value.namespace != "" && parsed.value.namespace !in old(nodeMap) ==>
                && nodeMap == old(nodeMap)[parsed.value.namespace := parsed.value]
                && err == FirstFailure(AllNodes(parsed.value))
    {
      if parsed.None? {
        return Some(ErrUnmarshal);
      }
      var rn := parsed.value;
      if rn.namespace == "" {
        return Some(ErrNSEmpty);
      }
      if rn.namespace in nodeMap {
        return Some(ErrNSDuplicate);
      }
      nodeMap := nodeMap[rn.namespace := rn];
      err := CheckNode(rn);
    }

    /** `getNode(namespace, id, nt)`: the root, and the last node of type `nt` with the id. */
    method GetNode(namespace: string, id: string, nt: NodeType) returns (r: Result<(RootNode, Node), BindError>)
      ensures r == FindNode(nodeMap, namespace, id, nt)
    {
      if namespace !in nodeMap {
        return Err(ErrUnbindNamespace);
      }
      var rn := nodeMap[namespace];
      var nodes := NodesOf(rn, nt);
      var nd: Option<Node> := None;
      var i := 0;
      while i < |nodes|
        invariant 0 <= i <= |nodes|
        invariant nd == LastMatch(nodes[..i], id)
      {
        assert nodes[..i + 1][..i] == nodes[..i];
        if nodes[i].id == id {
          nd := Some(nodes[i]);
        }
        i := i + 1;
      }
      assert nodes[..i] == nodes;
      if nd.None? {
        return Err(ErrUnbindNode);
      }
      return Ok((rn, nd.value));
    }
  }
}
