/** The per-chip operation queue of the bus controller (opr_queue_*): a ring that refines a bounded sequence. */
module OperationQueue {
  import opened Common

  datatype Kind = OP_READ | OP_PROG | OP_PLOCK | OP_BLOCK | OP_BERS

  /** fb_operation_t: what to do, and the block I/O that waits for it, if any. */
  datatype Operation = Operation(kind: Kind, bio: Option<nat>)

  /** Position i of the ring, counted on from a position below max. */
  function Wrap(i: nat, max: nat): nat { if i < max then i else i - max }

  predicate InRing(n: nat, tail: nat, num: nat) { num <= n && (n > 0 ==> tail < n) }

  /** The num entries from tail on, wrapped around. */
  function Ring<T>(a: seq<T>, tail: nat, num: nat): (r: seq<T>)
    requires InRing(|a|, tail, num)
    ensures |r| == num && forall i :: 0 <= i < num ==> r[i] == a[Wrap(tail + i, |a|)]
  {
    seq(num, i requires 0 <= i < num => a[Wrap(tail + i, |a|)])
  }

  /** Writing at the head appends. */
  lemma RingPut<T>(a: seq<T>, tail: nat, num: nat, x: T)
    requires InRing(|a|, tail, num) && num < |a|
    ensures Ring(a[Wrap(tail + num, |a|) := x], tail, num + 1) == Ring(a, tail, num) + [x]
  {
    var b, h := a[Wrap(tail + num, |a|) := x], Wrap(tail + num, |a|);
    forall i | 0 <= i < num ensures Ring(b, tail, num + 1)[i] == Ring(a, tail, num)[i] {
      assert Wrap(tail + i, |a|) != h;
    }
  }

  class OprQueue {
    const list: array<Operation>
    var num: nat
    var head: nat   // where the next entry goes
    var tail: nat   // the oldest entry

    ghost predicate Valid()
      reads this
    {
      InRing(list.Length, tail, num) && (list.Length > 0 ==> head == Wrap(tail + num, list.Length))
    }

    /** The entries, oldest first. */
    ghost function Contents(): (r: seq<Operation>)
      requires Valid()
      reads this, list
      ensures |r| == num
    {
      Ring(list[..], tail, num)
    }

    /** create_opr_queue */
    constructor (max: nat)
      ensures Valid() && Contents() == [] && list.Length == max && fresh(list)
    {
      list := new Operation[max](_ => Operation(OP_READ, None));
      num, head, tail := 0, 0, 0;
    }

    /** opr_queue_put_entry: refused exactly when the queue is full. */
    method PutEntry(op: Operation) returns (ok: bool)
      requires Valid()
      modifies this, list
      ensures Valid() && ok == (|old(Contents())| < list.Length)
      ensures Contents() == if ok then old(Contents()) + [op] else old(Contents())
    {
      if num == list.Length {
        return false;
      }
      RingPut(list[..], tail, num, op);
      list[head] := op;
      assert list[..] == old(list[..])[head := op];
      head := head + 1;
      if head == list.Length {
        head := 0;
      }
      num := num + 1;
      ok := true;
    }

    /** opr_queue_get_first: the oldest entry; None is the error return. */
    method GetFirst() returns (r: Option<Operation>)
      requires Valid()
      ensures r == if Contents() == [] then None else Some(Contents()[0])
    {
      if num == 0 {
        return None;
      }
      r := Some(list[tail]);
    }

    /** opr_queue_remove_first */
    method RemoveFirst() returns (ok: bool)
      requires Valid()
      modifies this
      ensures Valid() && ok == (old(Contents()) != [])
      ensures Contents() == if ok then old(Contents())[1..] else old(Contents())
    {
      if num == 0 {
        return false;
      }
      tail := tail + 1;
      if tail == list.Length {
        tail := 0;
      }
      num := num - 1;
      ok := true;
      assert Contents() == old(Contents())[1..];
    }
  }
}
