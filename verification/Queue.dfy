/** The linked queue that holds outgoing buffers, as a refinement of a sequence. */
module Queues {
  class Link<T> {
    const item: T
    var link: Link?<T>

    constructor (item: T)
      ensures this.item == item && link == null
    {
      this.item := item;
      link := null;
    }
  }

  class Queue<T> {
    var head: Link?<T>
    var tail: Link?<T>
    var count: nat
    /** The links from head to tail. */
    ghost var links: seq<Link<T>>

    ghost predicate Valid()
      reads this, links
    {
      && count == |links|
      && (forall i, j :: 0 <= i < j < |links| ==> links[i] != links[j])
      && (forall i :: 0 <= i < |links| - 1 ==> links[i].link == links[i + 1])
      && (links != [] ==> links[|links| - 1].link == null)
      && head == (if links == [] then null else links[0])
      && tail == (if links == [] then null else links[|links| - 1])
    }

    ghost function Items(): (s: seq<T>)
      reads this, links
    {
      seq(|links|, i requires 0 <= i < |links| reads this, links => links[i].item)
    }

    /** initqueue. */
    constructor ()
      ensures Valid() && links == [] && Items() == []
    {
      head, tail, count, links := null, null, 0, [];
    }

    method IsEmpty() returns (b: bool)
      requires Valid()
      ensures b <==> Items() == []
    {
      b := head == null;
    }

    method Examine() returns (item: T)
      requires Valid() && Items() != []
      ensures item == Items()[0]
    {
      item := head.item;
    }

    method Enqueue(item: T)
      requires Valid()
      modifies this, links
      ensures Valid() && Items() == old(Items()) + [item] && |links| == |old(links)| + 1 && old(links) <= links
      ensures fresh(links[|links| - 1])
    {
      var newlink := new Link(item);
      if tail != null { tail.link := newlink; }
      tail := newlink;
      if head == null { head := newlink; }
      count := count + 1;
      links := links + [newlink];
    }

    method Dequeue() returns (item: T)
      requires Valid() && Items() != []
      modifies this
      ensures Valid() && item == old(Items())[0] && Items() == old(Items())[1..] && links == old(links)[1..]
    {
      item := head.item;
      ghost var rest := links[1..];
      assert 1 < |links| ==> head.link == links[1] == rest[0];
      if head.link != null {
        head := head.link;
      } else {
        head := null;
        tail := null;
      }
      count := count - 1;
      links := rest;
    }
  }
}
