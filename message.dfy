/**
 * The message types of tensorpipe/core/message.h: a `Message` (metadata,
 * payloads and tensors) that moves by swapping its fields with the source,
 * the per-thread free list of message nodes that recycles them last in,
 * first out, and the `MessageHandle` that owns one node at a time.
 *
 * Payload and tensor buffers are opaque references. The free list is
 * thread-local in the source; here it is an object handed to each handle
 * operation.
 */
module Messages {

  datatype Payload = Payload(data: nat, length: nat, metadata: string)

  datatype Tensor = Tensor(buffer: nat, metadata: string)

  /** What a message holds, as a value. */
  datatype Contents = Contents(metadata: string, payloads: seq<Payload>, tensors: seq<Tensor>)

  const Empty := Contents("", [], [])

  class Message {
    var metadata: string
    var payloads: seq<Payload>
    var tensors: seq<Tensor>

    function Value(): Contents
      reads this
    {
      Contents(metadata, payloads, tensors)
    }

    /** A default message is empty. */
    constructor()
      ensures Value() == Empty
    {
      metadata := "";
      payloads := [];
      tensors := [];
    }

    /** Move construction: takes `n`'s contents and leaves `n` empty (it swaps with an empty message). */
    constructor FromMoved(n: Message)
      modifies n
      ensures Value() == old(n.Value()) && n.Value() == Empty
    {
      metadata := n.metadata;
      payloads := n.payloads;
      tensors := n.tensors;
      new;
      n.metadata := "";
      n.payloads := [];
      n.tensors := [];
    }

    /** Move assignment swaps metadata, payloads and tensors with `n`. */
    method MoveAssign(n: Message)
      modifies this, n
      ensures Value() == old(n.Value()) && n.Value() == old(Value())
    {
      metadata, n.metadata := n.metadata, metadata;
      payloads, n.payloads := n.payloads, payloads;
      tensors, n.tensors := n.tensors, tensors;
    }

    /** Empties metadata, payloads and tensors. */
    method Clear()
      modifies this
      ensures Value() == Empty
    {
      metadata := "";
      payloads := [];
      tensors := [];
    }
  }

  /** Moving twice between the same two messages gives each its contents back. */
  method MoveBack(a: Message, b: Message)
    requires a != b
    modifies a, b
    ensures a.Value() == old(a.Value()) && b.Value() == old(b.Value())
  {
    a.MoveAssign(b);
    a.MoveAssign(b);
  }

  /** A node of the free list: a link and the message it carries. */
  class Node {
    var next: Node?
    const message: Message

    constructor()
      ensures next == null && fresh(message) && message.Value() == Empty
    {
      next := null;
      message := new Message();
    }
  }

  /**
   * The free list: a stack of nodes linked from `ptr`, which `nodes` lists
   * from the head. Once `dead`, it keeps nothing and deletes what it is
   * given.
   */
  class FreeList {
    var ptr: Node?
    var dead: bool
    /** The nodes deleted so far, in order. */
    var deleted: seq<Node>
    ghost var nodes: seq<Node>

    ghost predicate Valid()
      reads this, nodes
    {
      && (nodes == [] <==> ptr == null)
      && (nodes != [] ==> ptr == nodes[0] && nodes[|nodes| - 1].next == null)
      && (forall i :: 0 <= i < |nodes| - 1 ==> nodes[i].next == nodes[i + 1])
      && (forall i, j :: 0 <= i < j < |nodes| ==> nodes[i] != nodes[j])
      && (dead ==> nodes == [])
    }

    constructor()
      ensures Valid() && nodes == [] && !dead && deleted == []
    {
      ptr := null;
      dead := false;
      deleted := [];
      nodes := [];
    }

    /** Pops the most recently freed node, or makes a fresh one when none is free. */
    method Allocate() returns (n: Node)
      requires Valid()
      modifies this
      ensures Valid() && dead == old(dead) && deleted == old(deleted)
      ensures old(nodes) != [] ==> n == old(nodes)[0] && nodes == old(nodes)[1..]
      ensures old(nodes) == [] ==> fresh(n) && fresh(n.message) && nodes == [] && n.message.Value() == Empty
    {
      if ptr != null {
        n := ptr;
        ptr := ptr.next;
        nodes := nodes[1..];
        assert nodes != [] ==> ptr == old(nodes)[1];
        return;
      }
      n := new Node();
    }

    /** Pushes `obj` as the new head, or deletes it once the list is dead. */
    method Deallocate(obj: Node)
      requires Valid() && obj !in nodes
      modifies this, obj
      ensures Valid() && dead == old(dead)
      ensures !dead ==> nodes == [obj] + old(nodes) && deleted == old(deleted)
      ensures dead ==> nodes == [] && deleted == old(deleted) + [obj]
    {
      if !dead {
        obj.next := ptr;
        ptr := obj;
        nodes := [obj] + nodes;
        return;
      }
      deleted := deleted + [obj];
    }

    /** The destructor: marks the list dead and deletes every free node, head first. */
    method Destroy()
      requires Valid()
      modifies this
      ensures Valid() && dead && ptr == null && nodes == []
      ensures deleted == old(deleted) + old(nodes)
    {
      dead := true;
      ghost var all := nodes;
      ghost var i := 0;
      while ptr != null
        invariant 0 <= i <= |all|
        invariant ptr == (if i < |all| then all[i] else null)
        invariant deleted == old(deleted) + all[..i]
        invariant forall k :: 0 <= k < |all| - 1 ==> all[k].next == all[k + 1]
        invariant all != [] ==> all[|all| - 1].next == null
        modifies this`ptr, this`deleted
        decreases |all| - i
      {
        var next := ptr.next;
        deleted := deleted + [ptr];
        ptr := next;
        assert all[..i + 1] == all[..i] + [all[i]];
        i := i + 1;
      }
      assert all[..i] == all;
      nodes := [];
    }
  }

  /** A node freed and then allocated again, with nothing in between, is the same node. */
  method FreeThenAllocate(list: FreeList, obj: Node) returns (n: Node)
    requires list.Valid() && !list.dead && obj !in list.nodes
    modifies list, obj
    ensures n == obj && list.Valid() && list.nodes == old(list.nodes)
  {
    list.Deallocate(obj);
    n := list.Allocate();
  }

  /**
   * A handle owning one node of the free list, or none once moved from.
   * Operations reach the free list through `list`.
   */
  class MessageHandle {
    var node: Node?

    /** A default handle: a recycled or fresh node whose message is cleared. */
    constructor(list: FreeList)
      requires list.Valid()
      modifies list, if list.nodes != [] then {list.nodes[0].message} else {}
      ensures list.Valid() && node != null && node.message.Value() == Empty
      ensures node !in list.nodes
      ensures old(list.nodes) != [] ==> node == old(list.nodes)[0] && list.nodes == old(list.nodes)[1..]
      ensures old(list.nodes) == [] ==> list.nodes == []
    {
      var n := list.Allocate();
      n.message.Clear();
      node := n;
    }

    /**
     * A handle holding `message`, moved into a recycled or fresh node: the
     * node's previous contents are swapped into `message`.
     */
    constructor FromMessage(list: FreeList, message: Message)
      requires list.Valid()
      modifies list, message, if list.nodes != [] then {list.nodes[0].message} else {}
      ensures list.Valid() && node != null && node.message.Value() == old(message.Value())
      ensures node !in list.nodes
      ensures old(list.nodes) != [] ==>
        node == old(list.nodes)[0] && list.nodes == old(list.nodes)[1..]
        && message.Value() == old(list.nodes[0].message.Value())
      ensures old(list.nodes) == [] ==> list.nodes == [] && message.Value() == Empty
    {
      var n := list.Allocate();
      n.message.MoveAssign(message);
      node := n;
    }

    /** Move construction takes `n`'s node and leaves `n` holding none. */
    constructor FromMoved(n: MessageHandle)
      modifies n
      ensures node == old(n.node) && n.node == null
    {
      node := n.node;
      new;
      n.node := null;
    }

    /** Move assignment swaps nodes with `n`. */
    method MoveAssign(n: MessageHandle)
      modifies this, n
      ensures node == old(n.node) && n.node == old(node)
    {
      node, n.node := n.node, node;
    }

    /** Assigning a message moves it into this handle's message, swapping the old contents out. */
    method AssignMessage(message: Message)
      requires node != null
      modifies node.message, message
      ensures node.message.Value() == old(message.Value()) && message.Value() == old(node.message.Value())
    {
      node.message.MoveAssign(message);
    }

    /** The destructor: a handle that holds a node gives it back to the free list. */
    method Destroy(list: FreeList)
      requires list.Valid() && (node != null ==> node !in list.nodes)
      modifies list, node
      ensures list.Valid()
      ensures node == null ==> list.nodes == old(list.nodes) && list.deleted == old(list.deleted)
      ensures node != null && !list.dead ==> list.nodes == [node] + old(list.nodes)
      ensures node != null && list.dead ==> list.deleted == old(list.deleted) + [node]
    {
      if node != null {
        list.Deallocate(node);
      }
    }
  }
}
