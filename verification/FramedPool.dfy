/** An address pool: a range and the addresses of it that are handed out. */
module FramedPool {
  import opened Wire

  datatype Range = Range(start: u32, stop: u32, ips: set<u32>) {
    predicate InRange(a: u32) { start <= a <= stop }
  }

  /** A usable pool: address 0 stands for "none left", and the search counter must be able to pass `stop`. */
  type Pool = p: Range | p.start > 0 && p.stop < 0xFFFF_FFFF witness Range(1, 1, {})

  /** The search of `allocate_ip` from address `i` on; 0 when nothing is left. */
  function SearchIp(p: Pool, i: u32): (a: u32)
    requires i > 0
    ensures a == 0 <==> forall x: u32 :: i <= x <= p.stop ==> x in p.ips
    ensures a != 0 ==> i <= a <= p.stop && a !in p.ips && forall x: u32 :: i <= x < a ==> x in p.ips
    decreases p.stop as int + 1 - i as int
  {
    if i > p.stop then 0 else if i !in p.ips then i else SearchIp(p, i + 1)
  }

  function AllocateIp(p: Pool): (r: (Pool, u32))
  {
    var a := SearchIp(p, p.start);
    if a == 0 then (p, 0) else (p.(ips := p.ips + {a}), a)
  }

  function DeallocateIp(p: Pool, a: u32): Pool {
    p.(ips := p.ips - {a})
  }

  /** An allocation hands out the lowest address of the range that was not handed out, or 0 exactly when the whole
      range was; giving it back restores the pool. */
  lemma AllocationIsLowestFree(p: Pool)
    ensures var (q, a) := AllocateIp(p);
            && (a == 0 <==> forall x: u32 :: p.InRange(x) ==> x in p.ips)
            && (a == 0 ==> q == p)
            && (a != 0 ==> p.InRange(a) && a !in p.ips && q.ips == p.ips + {a} && DeallocateIp(q, a) == p)
            && (forall x: u32 :: p.InRange(x) && x !in p.ips ==> 0 < a <= x)
            && q.start == p.start && q.stop == p.stop
  {
    var (q, a) := AllocateIp(p);
    if a != 0 {
      assert p.ips + {a} - {a} == p.ips;
    }
  }

  /** The pool as the daemon holds it. */
  class FramedPool {
    const startIp: u32
    const stopIp: u32
    var ips: set<u32>

    ghost function Value(): Range
      reads this
    {
      Range(startIp, stopIp, ips)
    }

    constructor (start: u32, stop: u32)
      ensures Value() == Range(start, stop, {})
    {
      startIp, stopIp, ips := start, stop, {};
    }

    method Allocate() returns (a: u32)
      requires startIp > 0 && stopIp < 0xFFFF_FFFF
      modifies this
      ensures (Value(), a) == AllocateIp(old(Value()))
    {
      var i: u32 := startIp;
      while i <= stopIp
        invariant i >= startIp
        invariant SearchIp(Value(), i) == SearchIp(Value(), startIp)
        invariant Value() == old(Value())
        decreases stopIp as int + 1 - i as int
      {
        if i !in ips {
          ips := ips + {i};
          return i;
        }
        i := i + 1;
      }
      return 0;
    }

    method Deallocate(a: u32)
      requires startIp > 0 && stopIp < 0xFFFF_FFFF
      modifies this
      ensures Value() == DeallocateIp(old(Value()), a)
    {
      if a in ips {
        ips := ips - {a};
      }
    }
  }
}
