/**
 * The flip list of a drive: a ring of disk images, doubly linked, whose head
 * is the image in the drive.
 */
module Fliplist {
  class Node {
    const image: string
    const unit: nat
    var next: Node?
    var prev: Node?

    constructor (image: string, unit: nat)
      ensures this.image == image && this.unit == unit
    {
      this.image, this.unit := image, unit;
      next, prev := null, null;
    }
  }

  function Succ(i: nat, n: nat): nat {
    if i + 1 >= n then 0 else i + 1
  }

  function Pred(i: nat, n: nat): int {
    if i == 0 then n - 1 else i - 1
  }

  ghost predicate Distinct(nodes: seq<Node>) {
    forall i, j :: 0 <= i < j < |nodes| ==> nodes[i] != nodes[j]
  }

  /** Each node is linked to its neighbours both ways, and the last to the first. */
  ghost predicate Linked(nodes: seq<Node>)
    reads nodes
  {
    && (forall i {:trigger nodes[i].next} :: 0 <= i < |nodes| ==> nodes[i].next == nodes[Succ(i, |nodes|)])
    && (forall i {:trigger nodes[i].prev} :: 0 <= i < |nodes| ==> nodes[i].prev == nodes[Pred(i, |nodes|)])
  }

  class Ring {
    var head: Node?
    var cursor: Node?
    ghost var nodes: seq<Node>

    /** The nodes from the head on form a ring. */
    ghost predicate Valid()
      reads this, nodes
    {
      head == (if nodes == [] then null else nodes[0]) && Distinct(nodes) && Linked(nodes)
    }

    constructor ()
      ensures Valid() && nodes == [] && head == null
    {
      head, cursor := null, null;
      nodes := [];
    }

    /** A new image becomes the head; an empty name is not taken. */
    method AddImage(image: string, unit: nat)
      requires Valid()
      modifies this`head, this`nodes, nodes
      ensures Valid()
      ensures image == "" ==> nodes == old(nodes)
      ensures image != "" ==> |nodes| == |old(nodes)| + 1 && nodes[1..] == old(nodes) && fresh(nodes[0])
      ensures image != "" ==> nodes[0].image == image && nodes[0].unit == unit
    {
      if image == "" {
        return;
      }
      var n := new Node(image, unit);
      if head != null {
        n.next := head;
        n.prev := head.prev;
        n.next.prev := n;
        n.prev.next := n;
        head := n;
      } else {
        head := n;
        n.next := n;
        n.prev := n;
      }
      PushedLinked(nodes, n);
      nodes := [n] + nodes;
    }

    /** Unlinks the node at position i. */
    method Unlink(it: Node, ghost i: nat)
      requires Valid() && |nodes| > 1 && i < |nodes| && it == nodes[i]
      modifies this`head, this`nodes, nodes
      ensures Valid() && nodes == old(nodes)[..i] + old(nodes)[i + 1..]
    {
      var next, prev := it.next, it.prev;
      next.prev := prev;
      prev.next := next;
      if head == it {
        head := next;
      }
      UnlinkedLinked(nodes, i);
      nodes := nodes[..i] + nodes[i + 1..];
    }

    method RemoveHead()
      requires Valid()
      modifies this`head, this`nodes, nodes
      ensures Valid() && nodes == if old(nodes) == [] then [] else old(nodes)[1..]
    {
      if head == null {
        return;
      }
      if head == head.next && head == head.prev {
        head := null;
        nodes := [];
      } else {
        Unlink(head, 0);
      }
    }

    /** Removes the first node from the head on that has this image, if there is one. */
    method Remove(image: string)
      requires Valid()
      modifies this`head, this`nodes, nodes
      ensures Valid()
      ensures nodes == Without(old(nodes), image)
    {
      if head == null {
        return;
      }
      if head.image == image {
        RemoveHead();
        return;
      }
      var it := head.next;
      ghost var i := Succ(0, |nodes|);
      while it.image != image && it != head
        invariant i < |nodes| && it == nodes[i]
        invariant forall k :: 0 <= k < |nodes| && (i == 0 || k < i) ==> nodes[k].image != image
        decreases if i == 0 then 0 else |nodes| - i
      {
        it := it.next;
        i := Succ(i, |nodes|);
      }
      WithoutAt(nodes, image, if it == head then |nodes| else i);
      if it == head {
        return;
      }
      Unlink(it, i);
    }

    /** Forward or back by one image. */
    method Rotate(forward: bool)
      requires Valid()
      modifies this`head, this`nodes
      ensures Valid() && nodes == Turned(old(nodes), forward)
    {
      if head == null {
        return;
      }
      TurnedLinked(nodes, forward);
      head := if forward then head.next else head.prev;
      nodes := Turned(nodes, forward);
    }

    /** The walk starts at the head. */
    method InitIterate() returns (ret: Node?)
      requires Valid()
      modifies this`cursor
      ensures nodes == [] ==> ret == null && cursor == null
      ensures nodes != [] ==> ret == nodes[0] && cursor == nodes[Succ(0, |nodes|)]
    {
      ret := null;
      cursor := head;
      if cursor != null {
        ret := cursor;
        cursor := cursor.next;
      }
    }

    /** The walk ends when it is back at the head. */
    method NextIterate(ghost i: nat) returns (ret: Node?)
      requires Valid() && i < |nodes| && cursor == nodes[i]
      modifies this`cursor
      ensures i == 0 ==> ret == null && cursor == old(cursor)
      ensures i > 0 ==> ret == nodes[i] && cursor == nodes[Succ(i, |nodes|)]
    {
      ret := null;
      if cursor != null {
        if cursor != head {
          ret := cursor;
          cursor := cursor.next;
        }
      }
    }

    /** Walking the list visits every node once, in order. */
    method Images() returns (images: seq<string>)
      requires Valid()
      modifies this`cursor
      ensures images == ImagesOf(nodes)
    {
      images := [];
      var it := InitIterate();
      ghost var i := 0;
      while it != null
        invariant i <= |nodes| && images == ImagesOf(nodes[..i])
        invariant it == if i < |nodes| then nodes[i] else null
        invariant i < |nodes| ==> cursor == nodes[Succ(i, |nodes|)]
        decreases |nodes| - i
      {
        images := images + [it.image];
        assert nodes[..i + 1][..i] == nodes[..i];
        it := NextIterate(Succ(i, |nodes|));
        i := i + 1;
      }
      assert nodes[..i] == nodes;
    }

    method Clear()
      requires Valid()
      modifies this`head, this`nodes
      ensures Valid() && nodes == []
    {
      if head != null {
        var flip := head.next;
        ghost var i := Succ(0, |nodes|);
        while flip != head
          invariant i < |nodes| && flip == nodes[i]
          decreases if i == 0 then 0 else |nodes| - i
        {
          flip := flip.next;
          i := Succ(i, |nodes|);
        }
        head := null;
        nodes := [];
      }
    }
  }

  // ---------------------------------------------------------------- the list as a sequence

  ghost function Without(nodes: seq<Node>, image: string): seq<Node> {
    if nodes == [] then []
    else if nodes[0].image == image then nodes[1..]
    else [nodes[0]] + Without(nodes[1..], image)
  }

  lemma {:induction false} WithoutAt(nodes: seq<Node>, image: string, i: nat)
    requires i <= |nodes| && forall k :: 0 <= k < i ==> nodes[k].image != image
    ensures i == |nodes| ==> Without(nodes, image) == nodes
    ensures i < |nodes| && nodes[i].image == image ==> Without(nodes, image) == nodes[..i] + nodes[i + 1..]
  {
    if i > 0 {
      var rest := nodes[1..];
      WithoutAt(rest, image, i - 1);
      assert nodes == [nodes[0]] + rest;
      hide Without;
      assert i < |nodes| ==> nodes[..i] == [nodes[0]] + rest[..i - 1] && nodes[i + 1..] == rest[i..];
    }
  }

  /** The ring with the neighbours of node i linked to each other. */
  ghost predicate Bypassed(nodes: seq<Node>, i: nat)
    requires i < |nodes|
    reads nodes
  {
    && (forall k {:trigger nodes[k].next} :: 0 <= k < |nodes| && k != i ==>
        nodes[k].next == if k == Pred(i, |nodes|) then nodes[Succ(i, |nodes|)] else nodes[Succ(k, |nodes|)])
    && (forall k {:trigger nodes[k].prev} :: 0 <= k < |nodes| && k != i ==>
        nodes[k].prev == if k == Succ(i, |nodes|) then nodes[Pred(i, |nodes|)] else nodes[Pred(k, |nodes|)])
  }

  lemma UnlinkedLinked(nodes: seq<Node>, i: nat)
    requires Distinct(nodes) && i < |nodes| && |nodes| > 1 && Bypassed(nodes, i)
    ensures Distinct(nodes[..i] + nodes[i + 1..]) && Linked(nodes[..i] + nodes[i + 1..])
  {
    DistinctWithout(nodes, i);
    hide Distinct;
    var m, n := nodes[..i] + nodes[i + 1..], |nodes|;
    assert forall k :: 0 <= k < |m| ==> m[k] == nodes[if k < i then k else k + 1];
    forall k | 0 <= k < |m| ensures m[k].next == m[Succ(k, |m|)] && m[k].prev == m[Pred(k, |m|)] {
      var u := if k < i then k else k + 1;
      assert m[k] == nodes[u];
      assert m[Succ(k, |m|)] == if u == Pred(i, n) then nodes[Succ(i, n)] else nodes[Succ(u, n)];
      assert m[Pred(k, |m|)] == if u == Succ(i, n) then nodes[Pred(i, n)] else nodes[Pred(u, n)];
    }
  }

  /** The ring with n put in between the last node and the head. */
  ghost predicate Spliced(nodes: seq<Node>, n: Node)
    reads nodes, n
  {
    var size := |nodes|;
    && n.next == (if size == 0 then n else nodes[0]) && n.prev == (if size == 0 then n else nodes[size - 1])
    && (forall k {:trigger nodes[k].next} :: 0 <= k < size ==>
      nodes[k].next == if k == size - 1 then n else nodes[k + 1])
    && (forall k {:trigger nodes[k].prev} :: 0 <= k < size ==> nodes[k].prev == if k == 0 then n else nodes[k - 1])
  }

  lemma PushedLinked(nodes: seq<Node>, n: Node)
    requires Distinct(nodes) && n !in nodes && Spliced(nodes, n)
    ensures Distinct([n] + nodes) && Linked([n] + nodes)
  {
    var m := [n] + nodes;
    assert forall k :: 1 <= k < |m| ==> m[k] == nodes[k - 1];
    forall k | 0 <= k < |m| ensures m[k].next == m[Succ(k, |m|)] && m[k].prev == m[Pred(k, |m|)] {
      if k > 0 {
        assert m[k] == nodes[k - 1];
      }
    }
  }

  lemma DistinctWithout(nodes: seq<Node>, i: nat)
    requires Distinct(nodes) && i < |nodes|
    ensures Distinct(nodes[..i] + nodes[i + 1..])
  {
    var m := nodes[..i] + nodes[i + 1..];
    assert forall k :: 0 <= k < |m| ==> m[k] == nodes[if k < i then k else k + 1];
  }

  ghost function Turned(nodes: seq<Node>, forward: bool): seq<Node> {
    if nodes == [] then []
    else if forward then nodes[1..] + [nodes[0]]
    else [nodes[|nodes| - 1]] + nodes[..|nodes| - 1]
  }

  lemma TurnedLinked(nodes: seq<Node>, forward: bool)
    requires Distinct(nodes) && Linked(nodes)
    ensures Distinct(Turned(nodes, forward)) && Linked(Turned(nodes, forward))
  {
    var m, n := Turned(nodes, forward), |nodes|;
    TurnedAt(nodes, forward);
    hide Turned;
    forall i, j | 0 <= i < j < n ensures m[i] != m[j] {
      assert Shift(i, n, forward) != Shift(j, n, forward);
    }
    forall k | 0 <= k < n ensures m[k].next == m[Succ(k, n)] && m[k].prev == m[Pred(k, n)] {
      assert nodes[Shift(k, n, forward)].next == nodes[Shift(Succ(k, n), n, forward)];
      assert nodes[Shift(k, n, forward)].prev == nodes[Shift(Pred(k, n), n, forward)];
    }
  }

  /** The place a node at k of the turned ring comes from. */
  function Shift(k: nat, n: nat, forward: bool): nat
    requires k < n
  {
    if forward then Succ(k, n) else Pred(k, n)
  }

  lemma TurnedAt(nodes: seq<Node>, forward: bool)
    ensures |Turned(nodes, forward)| == |nodes|
    ensures forall k :: 0 <= k < |nodes| ==> Turned(nodes, forward)[k] == nodes[Shift(k, |nodes|, forward)]
  {}

  ghost function ImagesOf(nodes: seq<Node>): (images: seq<string>)
    ensures |images| == |nodes|
  {
    if nodes == [] then [] else ImagesOf(nodes[..|nodes| - 1]) + [nodes[|nodes| - 1].image]
  }

  lemma {:induction false} ImagesCons(nodes: seq<Node>)
    requires nodes != []
    ensures ImagesOf(nodes) == [nodes[0].image] + ImagesOf(nodes[1..])
  {
    var n := |nodes| - 1;
    if n > 0 {
      ImagesCons(nodes[..n]);
      assert nodes[..n][1..] == nodes[1..][..n - 1];
    }
  }
}
