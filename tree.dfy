/**
 * The host's tree, as far as the plugin uses it: nodes that carry a name and
 * a mutable attribute set, addressed by id, with an ordered child list per
 * node. Locking is not modelled: the tree is a plain single-threaded store.
 */
module Tree {
  import opened Wrappers
  import opened Values

  type NodeId = nat

  datatype TreeError = NodeNotFound(id: NodeId)

  class Node {
    const name: string
    var attributes: seq<Attribute>

    /** `Node::new`: a detached node with no attributes. */
    constructor (name: string)
      ensures this.name == name && attributes == []
    {
      this.name := name;
      attributes := [];
    }

    /** `node.value().add_attribute(...)`: appends one entry to the node's set. */
    method AddAttribute(name: string, value: Value, description: Option<string>)
      modifies this
      ensures attributes == old(attributes) + [Attribute(name, value, description)]
    {
      attributes := attributes + [Attribute(name, value, description)];
    }
  }

  /**
   * The tree is owned by the host application, which creates it and hands it
   * to the plugin; the plugin never allocates one, so the class has no
   * constructor.
   */
  class Tree {
    /** Node `id` is `nodes[id]`; its children are the ids `children[id]`, oldest first. */
    var nodes: seq<Node>
    var children: seq<seq<NodeId>>

    ghost predicate Valid()
      reads this
    {
      && |children| == |nodes|
      && (forall i, j :: 0 <= i < j < |nodes| ==> nodes[i] != nodes[j])
      && (forall i, k :: 0 <= i < |children| && 0 <= k < |children[i]| ==> children[i][k] < |nodes|)
    }

    /** `get_node_from_id`: the node with that id, if there is one. */
    method GetNodeFromId(id: NodeId) returns (r: Option<Node>)
      ensures r.Some? <==> id < |nodes|
      ensures r.Some? ==> r.value == nodes[id]
    {
      if id < |nodes| {
        r := Some(nodes[id]);
      } else {
        r := None;
      }
    }

    /**
     * `add_child`: inserts a detached node under `parent`, giving it the next
     * id and appending that id to the parent's children; fails, changing
     * nothing, when `parent` is not a node of the tree.
     */
    method AddChild(parent: NodeId, node: Node) returns (r: Result<NodeId, TreeError>)
      requires Valid()
      requires node !in nodes
      modifies this
      ensures Valid()
      ensures parent < old(|nodes|) ==>
                && r == Ok(old(|nodes|))
                && nodes == old(nodes) + [node]
                && children == old(children)[parent := old(children[parent]) + [old(|nodes|)]] + [[]]
      ensures parent >= old(|nodes|) ==>
                r == Err(NodeNotFound(parent)) && nodes == old(nodes) && children == old(children)
    {
      if parent < |nodes| {
        var id := |nodes|;
        children := children[parent := children[parent] + [id]] + [[]];
        nodes := nodes + [node];
        r := Ok(id);
      } else {
        r := Err(NodeNotFound(parent));
      }
    }
  }
}
