/** Circular doubly linked lists, the shape of every list in both order books: orders within a price level
    (`prev_order_`, `next_order_`) and price levels within a side (`prev_entry_`, `next_entry_`). */
module Rings {

  class Node<V> {
    /** Which list the node is for, and its place in it. */
    ghost const ring: int
    ghost const key: int

    var data: V
    var prev: Node?<V>
    var next: Node?<V>

    constructor (data: V, ghost ring: int, ghost key: int)
      ensures this.data == data && this.ring == ring && this.key == key && prev == null && next == null
    {
      this.data, this.ring, this.key := data, ring, key;
      prev, next := null, null;
    }
  }

  /** Going up from `a`, and on from the lowest key when past the highest, `b` is met no later than `c`. */
  ghost predicate Between(a: int, b: int, c: int) {
    if a < c then a <= b <= c else a <= b || b <= c
  }

  /** `x.next` passes over `y`, which comes between them. */
  ghost predicate Skips<V>(x: Node<V>, y: Node<V>)
    reads x
  {
    x.next != null && y != x && y != x.next && Between(x.key, y.key, x.next.key)
  }

  /** The nodes form one circular doubly linked list per `ring`, in increasing order of `key`:
      the next node is the one with the next higher key, and after the highest comes the lowest. */
  ghost predicate Linked<V>(nodes: set<Node<V>>)
    reads nodes
  {
    && (forall x {:trigger x.next} :: x in nodes ==>
          x.next in nodes && x.next.prev == x && x.next.ring == x.ring && (x.next == x || x.next.key != x.key))
    && (forall x {:trigger x.prev} :: x in nodes ==> x.prev in nodes && x.prev.next == x)
    && (forall x, y {:trigger Skips(x, y)} :: x in nodes && y in nodes && x.ring == y.ring ==> !Skips(x, y))
  }

  twostate lemma StillLinked<V>(nodes: set<Node<V>>)
    requires forall x :: x in nodes ==> old(allocated(x))
    requires old(Linked(nodes))
    requires forall x {:trigger x.next} :: x in nodes ==> x.next == old(x.next)
    requires forall x {:trigger x.prev} :: x in nodes ==> x.prev == old(x.prev)
    ensures Linked(nodes)
  {
    forall x, y | x in nodes && y in nodes && x.ring == y.ring ensures !Skips(x, y) {
      assert !old(Skips(x, y));
    }
  }

  /** A ring of one can be taken away as it is. */
  lemma AloneLeaves<V>(x: Node<V>, nodes: set<Node<V>>)
    requires Linked(nodes) && x in nodes && x.next == x
    ensures Linked(nodes - {x})
    ensures forall y {:trigger y.ring} :: y in nodes - {x} ==> y.ring != x.ring
  {
    assert x.prev == x by {
      assert x.prev.next == x && x.next.prev == x;
    }
    forall y | y in nodes - {x} ensures y.ring != x.ring {
      assert y.ring == x.ring ==> !Skips(x, y);
    }
  }

  /** A ring of one. */
  method LinkAlone<V>(x: Node<V>, ghost nodes: set<Node<V>>)
    requires Linked(nodes) && x !in nodes
    requires forall y {:trigger y.ring} :: y in nodes ==> y.ring != x.ring
    modifies x`prev, x`next
    ensures Linked(nodes + {x})
  {
    x.prev, x.next := x, x;
    forall u, v | u in nodes + {x} && v in nodes + {x} && u.ring == v.ring ensures !Skips(u, v) {
      assert u in nodes && v in nodes ==> !old(Skips(u, v));
    }
  }

  /** Splice `x` in front of `target`. */
  method LinkBefore<V>(x: Node<V>, target: Node<V>, ghost nodes: set<Node<V>>)
    requires Linked(nodes) && x !in nodes && target in nodes && x.ring == target.ring
    requires x.key != target.key && x.key != target.prev.key && Between(target.prev.key, x.key, target.key)
    modifies x`prev, x`next, target.prev`next, target`prev
    ensures Linked(nodes + {x}) && x.next == target
  {
    ghost var before := target.prev;
    x.prev := target.prev;
    x.next := target;
    target.prev.next := x;
    target.prev := x;
    forall u, v | u in nodes + {x} && v in nodes + {x} && u.ring == v.ring ensures !Skips(u, v) {
      ghost var w := if u == x then before else u;
      assert v in nodes ==> !old(Skips(w, v));
      assert v == x ==> !old(Skips(w, target)) && !old(Skips(w, before)) && !old(Skips(before, w)) && !old(Skips(before, w.next));
    }
  }

  /** Splice `x` behind `target`. */
  method LinkAfter<V>(x: Node<V>, target: Node<V>, ghost nodes: set<Node<V>>)
    requires Linked(nodes) && x !in nodes && target in nodes && x.ring == target.ring
    requires x.key != target.key && x.key != target.next.key && Between(target.key, x.key, target.next.key)
    modifies x`prev, x`next, target.next`prev, target`next
    ensures Linked(nodes + {x}) && x.prev == target
  {
    ghost var after := target.next;
    x.prev := target;
    target.next.prev := x;
    x.next := target.next;
    target.next := x;
    forall u, v | u in nodes + {x} && v in nodes + {x} && u.ring == v.ring ensures !Skips(u, v) {
      ghost var w := if u == x then target else u;
      assert v in nodes ==> !old(Skips(w, v));
      assert v == x ==> !old(Skips(w, target)) && !old(Skips(w, after)) && !old(Skips(target, w)) && !old(Skips(target, w.next));
    }
  }

  /** Take `x` out of a ring of more than one. */
  method Unlink<V>(x: Node<V>, ghost nodes: set<Node<V>>)
    requires Linked(nodes) && x in nodes && x.next != x
    modifies x`prev, x`next, x.next`prev, x.prev`next
    ensures Linked(nodes - {x})
  {
    var before, after := x.prev, x.next;
    before.next := after;
    after.prev := before;
    x.prev, x.next := null, null;
    forall u, v | u in nodes - {x} && v in nodes - {x} && u.ring == v.ring ensures !Skips(u, v) {
      assert !old(Skips(u, v)) && (u.ring == x.ring ==> !old(Skips(x, v)) && !old(Skips(u, after)));
    }
  }
}
