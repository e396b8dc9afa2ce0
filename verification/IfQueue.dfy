/** The packet queues of network interfaces, linked through the packets themselves. */
module IfQueue {
  import opened Basics

  class Packet {
    var next: Packet?
    constructor ()
      ensures next == null
    {
      next := null;
    }
  }

  class Queue {
    var head: Packet?
    var tail: Packet?
    var len: int
    const maxLen: int
    ghost var packets: seq<Packet>

    /** `head`, the links and `tail` spell `packets`, and `len` counts them. */
    ghost predicate Valid()
      reads this, packets
    {
      && len == |packets|
      && head == (if packets == [] then null else packets[0])
      && tail == (if packets == [] then null else packets[|packets| - 1])
      && (forall i {:trigger packets[i].next} :: 0 <= i < |packets| ==> packets[i].next == Follower(packets, i, null))
      && (forall i, j :: 0 <= i < j < |packets| ==> packets[i] != packets[j])
    }

    constructor (maxLen: int)
      ensures Valid() && packets == [] && this.maxLen == maxLen
    {
      head, tail, len, packets := null, null, 0, [];
      this.maxLen := maxLen;
    }

    /** `IF_QFULL`. */
    method Full() returns (full: bool)
      requires Valid()
      ensures full == (|packets| >= maxLen)
    {
      full := len >= maxLen;
    }

    /** `IF_ENQUEUE`. */
    method Enqueue(m: Packet)
      requires Valid() && m !in packets
      modifies this, m, packets
      ensures Valid() && packets == old(packets) + [m]
    {
      ghost var was := packets;
      m.next := null;
      if tail == null {
        head := m;
      } else {
        assert tail == packets[|packets| - 1];
        tail.next := m;
      }
      tail := m;
      len := len + 1;
      packets := packets + [m];
      forall i | 0 <= i < |packets| ensures packets[i].next == Follower(packets, i, null) {
        if i < |was| - 1 {
          assert was[i] != was[|was| - 1] && old(was[i].next) == Follower(was, i, null);
        }
      }
    }

    /** `IF_PREPEND`. */
    method Prepend(m: Packet)
      requires Valid() && m !in packets
      modifies this, m
      ensures Valid() && packets == [m] + old(packets)
    {
      ghost var was := packets;
      m.next := head;
      if tail == null {
        tail := m;
      }
      head := m;
      len := len + 1;
      packets := [m] + packets;
      forall i | 0 <= i < |packets| ensures packets[i].next == Follower(packets, i, null) {
        if i > 0 {
          assert packets[i] == was[i - 1] != m && old(was[i - 1].next) == Follower(was, i - 1, null);
        }
      }
      forall i, j | 0 <= i < j < |packets| ensures packets[i] != packets[j] {
        assert packets[j] == was[j - 1];
      }
    }

    /** `IF_DEQUEUE`: the first packet, unlinked, or null when there is none. */
    method Dequeue() returns (m: Packet?)
      requires Valid()
      modifies this, packets
      ensures Valid()
      ensures m == null <==> old(packets) == []
      ensures m == null ==> packets == []
      ensures m != null ==> m.next == null && old(packets) == [m] + packets
    {
      m := head;
      if m != null {
        ghost var was := packets;
        assert m.next == Follower(packets, 0, null);
        head := m.next;
        if head == null {
          tail := null;
        }
        m.next := null;
        len := len - 1;
        packets := packets[1..];
        forall i | 0 <= i < |packets| ensures packets[i].next == Follower(packets, i, null) {
          assert packets[i] == was[i + 1] && was[i + 1] != m && old(was[i + 1].next) == Follower(was, i + 1, null);
        }
      }
    }
  }
}
