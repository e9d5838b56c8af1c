/** The waiting queue of server/parking.c: singly linked nodes behind front and rear. */
module Queues {
  import opened Words
  import opened Vehicles

  class QueueNode {
    const vehicle: Vehicle
    var next: QueueNode?

    constructor (vehicle: Vehicle)
      ensures this.vehicle == vehicle && next == null
    {
      this.vehicle := vehicle;
      next := null;
    }
  }

  class WaitingQueue {
    var front: QueueNode?
    var rear: QueueNode?
    var size: u32

    /** The chain from front to rear. */
    ghost var nodes: seq<QueueNode>

    ghost predicate Valid()
      reads this, nodes
    {
      && size == Wrap(|nodes|)
      && (front == null <==> nodes == [])
      && (rear == null <==> nodes == [])
      && (nodes != [] ==> front == nodes[0] && rear == nodes[|nodes| - 1] && rear.next == null)
      && (forall i :: 0 <= i < |nodes| - 1 ==> nodes[i].next == nodes[i + 1])
    }

    ghost function Contents(): (s: seq<Vehicle>)
      reads this
      ensures |s| == |nodes|
    {
      seq(|nodes|, i requires 0 <= i < |nodes| reads this => nodes[i].vehicle)
    }

    lemma RearIsListed()
      requires Valid()
      ensures rear != null ==> rear in nodes
    {
    }

    constructor ()
      ensures Valid() && nodes == [] && Contents() == []
    {
      front, rear, size := null, null, 0;
      nodes := [];
    }

    method Enqueue(vehicle: Vehicle)
      requires Valid()
      modifies this, rear
      ensures Valid() && Contents() == old(Contents()) + [vehicle]
      ensures rear != null && fresh(rear) && rear.vehicle == vehicle && nodes == old(nodes) + [rear]
    {
      var node := new QueueNode(vehicle);
      Acyclic();
      if rear == null {
        front := node;
        rear := node;
      } else {
        rear.next := node;
        rear := node;
      }
      nodes := nodes + [node];
      size := Wrap(size + 1);
    }

    method Dequeue() returns (vehicle: Vehicle?)
      requires Valid()
      modifies this
      ensures Valid()
      ensures old(nodes) == [] ==> vehicle == null && nodes == []
      ensures old(nodes) != [] ==>
                vehicle == old(Contents())[0] && Contents() == old(Contents())[1..] && nodes == old(nodes)[1..]
    {
      if front == null {
        return null;
      }
      vehicle := front.vehicle;
      assert |nodes| > 1 ==> nodes[0].next == nodes[0 + 1];
      front := front.next;
      if front == null {
        rear := null;
      }
      nodes := nodes[1..];
      size := Wrap(size - 1);
    }

    /** Reachability: following next from a node a number of times. */
    static ghost function Follow(n: QueueNode?, steps: nat, region: set<QueueNode>): QueueNode?
      reads region
      decreases steps
    {
      if n == null || steps == 0 then n
      else if n !in region then null
      else Follow(n.next, steps - 1, region)
    }

    /** Following next from front visits the nodes in order: k steps reach the k-th node,
        and size steps fall off the end. */
    lemma {:induction false} ChainFrom(start: nat, k: nat)
      requires Valid() && start + k <= |nodes| && start < |nodes|
      ensures Follow(nodes[start], k, set n | n in nodes)
              == if start + k < |nodes| then nodes[start + k] else null
      decreases k
    {
      if k > 0 && start + 1 < |nodes| {
        ChainFrom(start + 1, k - 1);
      }
    }

    /** No node occurs twice in the chain: otherwise its two tails would have to be equally
        long. */
    lemma {:induction false} Acyclic()
      requires Valid()
      ensures forall i, j :: 0 <= i < j < |nodes| ==> nodes[i] != nodes[j]
    {
      forall i, j | 0 <= i < j < |nodes|
        ensures nodes[i] != nodes[j]
      {
        ChainFrom(i, |nodes| - j);
        ChainFrom(j, |nodes| - j);
      }
    }
  }
}
