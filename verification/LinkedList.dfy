/**
 * The intrusive doubly linked lists of utlist.h, which hold the block lists and the buffer lists:
 * DL_APPEND and DL_DELETE on the heap refine appending to and removing from a sequence.
 */
module LinkedList {
  import opened Common

  /** The link fields of a list element; the head's prev is the tail, the tail's next is null. */
  class DlNode {
    var prev: DlNode?
    var next: DlNode?

    constructor ()
    {
      prev, next := null, null;
    }
  }

  /** Node b follows node a. */
  ghost predicate Joined(a: DlNode, b: DlNode)
    reads a, b
  {
    a.next == b && b.prev == a
  }

  ghost predicate Linked(e: seq<DlNode>, i: int)
    requires 0 <= i < |e| - 1
    reads e
  {
    Joined(e[i], e[i + 1])
  }

  /** Taking out element k leaves a chain if its neighbours are linked to each other. */
  lemma ChainWithout(e: seq<DlNode>, k: nat)
    requires k < |e|
    requires forall i :: 0 <= i < |e| - 1 && i != k && i + 1 != k ==> Linked(e, i)
    requires 0 < k < |e| - 1 ==> Joined(e[k - 1], e[k + 1])
    ensures var r := e[..k] + e[k + 1..]; forall i :: 0 <= i < |r| - 1 ==> Linked(r, i)
  {
    var r := e[..k] + e[k + 1..];
    forall i | 0 <= i < |r| - 1 ensures Linked(r, i) {
      if i + 1 < k {
        assert Linked(e, i);
      } else if i + 1 > k {
        assert Linked(e, i + 1);
      }
    }
  }

  class DlList {
    var head: DlNode?
    ghost var elems: seq<DlNode>

    ghost predicate Valid()
      reads this, elems
    {
      && NoDup(elems)
      && (elems == [] <==> head == null)
      && (elems != [] ==> head == elems[0] && head.prev == elems[|elems| - 1] && elems[|elems| - 1].next == null)
      && (forall i :: 0 <= i < |elems| - 1 ==> Linked(elems, i))
    }

    constructor ()
      ensures Valid() && elems == []
    {
      head := null;
      elems := [];
    }

    /** DL_APPEND2 */
    method Append(add: DlNode)
      requires Valid() && add !in elems
      modifies this, add, elems
      ensures Valid() && elems == old(elems) + [add]
    {
      ghost var e := elems;
      if head != null {
        var tail := head.prev;
        add.prev := tail;
        tail.next := add;
        head.prev := add;
        add.next := null;
      } else {
        head := add;
        head.prev := head;
        head.next := null;
      }
      elems := e + [add];
      forall i | 0 <= i < |elems| - 1 ensures Linked(elems, i) {
        if i < |e| - 1 { assert old(Linked(e, i)); }
      }
    }

    /** DL_DELETE2 */
    method Delete(del: DlNode)
      requires Valid() && del in elems
      modifies this, elems
      ensures Valid() && elems == Remove(old(elems), del)
    {
      ghost var k :| 0 <= k < |elems| && elems[k] == del;
      Ends(k);
      RemoveAt(elems, k);
      if del.prev == del {
        head := null;
        elems := [];
      } else if del == head {
        DeleteHead();
      } else {
        DeleteLater(del, k);
      }
    }

    /** The second case of DL_DELETE2: the element after the head becomes the head. */
    method DeleteHead()
      requires Valid() && |elems| > 1
      modifies this, elems
      ensures Valid() && elems == old(elems)[1..]
    {
      ghost var e := elems;
      assert Linked(e, 0);
      head.next.prev := head.prev;
      head := head.next;
      elems := e[1..];
      forall i | 0 <= i < |elems| - 1 ensures Linked(elems, i) {
        assert old(Linked(e, i + 1));
      }
    }

    /** The third case: the neighbours are linked to each other, the head standing in for the one after the tail. */
    method DeleteLater(del: DlNode, ghost k: nat)
      requires Valid() && 0 < k < |elems| && elems[k] == del
      modifies this, elems
      ensures Valid() && elems == old(elems[..k] + elems[k + 1..])
    {
      ghost var e := elems;
      RemoveAt(e, k);
      Ends(k);
      OnlyAt(e, 0);
      OnlyAt(e, k - 1);
      OnlyAt(e, k + 1);
      hide NoDup;
      assert Linked(e, k - 1) && (k < |e| - 1 ==> Linked(e, k));
      del.prev.next := del.next;
      if del.next != null {
        del.next.prev := del.prev;
      } else {
        head.prev := del.prev;
      }
      forall i | 0 <= i < |e| - 1 && i != k && i + 1 != k ensures Linked(e, i) {
        assert old(Linked(e, i));
      }
      ChainWithout(e, k);
      elems := e[..k] + e[k + 1..];
    }

    /** Only the one element of a list is its own predecessor, and only the first is the head. */
    lemma Ends(k: nat)
      requires Valid() && k < |elems|
      ensures elems[k].prev == elems[k] <==> |elems| == 1
      ensures elems[k] == head <==> k == 0
      ensures elems[k].next == null <==> k == |elems| - 1
    {
      if k > 0 { assert Linked(elems, k - 1); }
      if k < |elems| - 1 { assert Linked(elems, k); }
    }
  }

  lemma OnlyAt<T>(s: seq<T>, k: nat)
    requires NoDup(s)
    ensures forall i :: 0 <= i < |s| && i != k < |s| ==> s[i] != s[k]
  {
  }

  lemma {:induction false} RemoveAt<T>(s: seq<T>, k: nat)
    requires NoDup(s) && k < |s|
    ensures Remove(s, s[k]) == s[..k] + s[k + 1..] && NoDup(s[..k] + s[k + 1..])
  {
    if k > 0 {
      RemoveAt(s[1..], k - 1);
      assert s[0] != s[k];
      assert [s[0]] + (s[1..][..k - 1] + s[1..][k..]) == s[..k] + s[k + 1..];
    }
  }
}
