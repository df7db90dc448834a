/** lib/selector.c: a table indexed by file descriptor, and what pselect needs derived from it. */
module Selectors {
  import opened Bytes
  import opened Interests

  /** PastTheEnd is no status of the C code: it marks an access one slot behind the table. */
  datatype Status = Success | NoMemory | MaxFd | IllegalArgument | FdInUse | PastTheEnd

  /** An entry of the table; fd is -1 when it is not in use. */
  datatype Item<+D> = Item(fd: int, interest: Interest, data: Option<D>)

  const FD_UNUSED: int := -1
  const ITEMS_MAX_SIZE: nat := 1024

  function Unused<D>(): Item<D> {
    Item(FD_UNUSED, OP_NOOP, None)
  }

  predicate InvalidFd(fd: int) {
    fd < 0 || fd >= ITEMS_MAX_SIZE
  }

  /** The least power of two above n. */
  function PowerAbove(n: nat): (p: nat)
    ensures p > n && (n > 0 ==> p <= 2 * n)
  {
    if n == 0 then 1 else 2 * PowerAbove(n / 2)
  }

  /** x << k */
  function Shifted(x: nat, k: nat): nat
    decreases k
  {
    if k == 0 then x else Shifted(2 * x, k - 1)
  }

  lemma {:induction false} ShiftDoubles(x: nat, k: nat)
    ensures Shifted(2 * x, k) == 2 * Shifted(x, k)
    decreases k
  {
    if k > 0 {
      ShiftDoubles(2 * x, k - 1);
    }
  }

  /** PowerAbove(n) is a power of two. */
  lemma {:induction false} PowerAboveIsPower(n: nat) returns (k: nat)
    ensures PowerAbove(n) == Shifted(1, k)
  {
    if n == 0 {
      k := 0;
    } else {
      var j := PowerAboveIsPower(n / 2);
      ShiftDoubles(1, j);
      k := j + 1;
    }
  }

  /** next_capacity: the table sizes are one more than a power of two, and hold index n. */
  method NextCapacity(n: nat) returns (size: nat)
    ensures size == Min(PowerAbove(n), ITEMS_MAX_SIZE) + 1
    ensures n <= ITEMS_MAX_SIZE ==> n < size <= ITEMS_MAX_SIZE + 1
  {
    var bits := 0;
    var tmp := n;
    while tmp != 0
      invariant PowerAbove(n) == Shifted(PowerAbove(tmp), bits)
    {
      tmp := tmp / 2;
      bits := bits + 1;
    }
    size := Shifted(1, bits);
    if size > ITEMS_MAX_SIZE {
      size := ITEMS_MAX_SIZE;
    }
    size := size + 1;
  }

  /** Used slot i holds fd i, which the platform can handle; what is not used is blank. */
  ghost predicate TableOk<D>(items: seq<Item<D>>) {
    forall i :: 0 <= i < |items| ==>
      (items[i].fd == i && !InvalidFd(i)) || items[i] == Unused()
  }

  predicate Used<D>(items: seq<Item<D>>, i: int) {
    0 <= i < |items| && items[i].fd != FD_UNUSED
  }

  ghost function Readers<D>(items: seq<Item<D>>): set<int> {
    set i: int | 0 <= i < |items| && Used(items, i) && items[i].interest.read
  }

  ghost function Writers<D>(items: seq<Item<D>>): set<int> {
    set i: int | 0 <= i < |items| && Used(items, i) && items[i].interest.write
  }

  /** The maximum of 0 and all used descriptors. */
  ghost predicate IsMaxFd<D>(items: seq<Item<D>>, max: int) {
    && 0 <= max < |items|
    && (forall i :: max < i < |items| ==> !Used(items, i))
    && (max > 0 ==> Used(items, max))
  }

  /** Unused slots at the end add nothing to the derived data. */
  lemma GrowthKeepsSets<D>(before: seq<Item<D>>, after: seq<Item<D>>)
    requires before <= after && forall i :: |before| <= i < |after| ==> after[i] == Unused()
    ensures Readers(after) == Readers(before) && Writers(after) == Writers(before)
    ensures forall max :: IsMaxFd(before, max) ==> IsMaxFd(after, max)
    ensures TableOk(before) ==> TableOk(after)
  {
    assert forall i :: 0 <= i < |after| ==> (Used(after, i) <==> i < |before| && Used(before, i));
    assert forall i :: 0 <= i < |before| ==> after[i] == before[i];
  }

  /** One slot changes: so do the derived sets, at that descriptor only. */
  lemma SlotChangesSets<D>(before: seq<Item<D>>, fd: int, item: Item<D>)
    requires 0 <= fd < |before| && ((item.fd == fd && !InvalidFd(fd)) || item == Unused())
    ensures var after := before[fd := item];
            && Readers(after) == Readers(before) - {fd} + (if item.fd == fd && item.interest.read then {fd} else {})
            && Writers(after) == Writers(before) - {fd} + (if item.fd == fd && item.interest.write then {fd} else {})
            && (TableOk(before) ==> TableOk(after))
            && (forall i :: i != fd ==> (Used(after, i) <==> Used(before, i)))
            && (Used(after, fd) <==> item.fd == fd)
  {
    var after := before[fd := item];
    assert forall i :: i != fd ==> (Used(after, i) <==> Used(before, i));
  }

  class Selector<D(==)> {
    var fds: array<Item<D>>
    var maxFd: int
    var masterR: set<int>
    var masterW: set<int>

    /** The derived data agrees with the table. */
    ghost predicate Valid()
      reads this, fds
    {
      && TableOk(fds[..])
      && masterR == Readers(fds[..]) && masterW == Writers(fds[..])
      && IsMaxFd(fds[..], maxFd)
    }

    /** selector_new with enough memory. */
    constructor (initialElements: nat)
      requires initialElements <= ITEMS_MAX_SIZE
      ensures Valid() && fresh(fds)
      ensures fds.Length == Min(PowerAbove(initialElements), ITEMS_MAX_SIZE) + 1
      ensures forall i :: 0 <= i < fds.Length ==> fds[i] == Unused()
    {
      var size := NextCapacity(initialElements);
      fds := new Item<D>[size](i => Unused());
      maxFd := 0;
      masterR, masterW := {}, {};
    }

    /** items_max_fd: only slots up to the old maximum are looked at. */
    method ItemsMaxFd() returns (max: int)
      requires TableOk(fds[..]) && 0 <= maxFd < fds.Length
      requires forall i :: maxFd < i < fds.Length ==> !Used(fds[..], i)
      ensures IsMaxFd(fds[..], max)
    {
      max := 0;
      for i := 0 to maxFd + 1
        invariant 0 <= max < fds.Length && max <= maxFd
        invariant max > 0 ==> Used(fds[..], max)
        invariant forall j :: max < j < i ==> !Used(fds[..], j)
      {
        if fds[i].fd != FD_UNUSED {
          if fds[i].fd > max {
            max := fds[i].fd;
          }
        }
      }
    }

    /** items_update_fdset_for_fd */
    method UpdateSets(item: Item<D>)
      modifies `masterR, `masterW
      ensures var wantsRead := item.fd != FD_UNUSED && item.interest.read;
              masterR == old(masterR) - {item.fd} + if wantsRead then {item.fd} else {}
      ensures var wantsWrite := item.fd != FD_UNUSED && item.interest.write;
              masterW == old(masterW) - {item.fd} + if wantsWrite then {item.fd} else {}
    {
      masterR := masterR - {item.fd};
      masterW := masterW - {item.fd};
      if item.fd != FD_UNUSED {
        if item.interest.read {
          masterR := masterR + {item.fd};
        }
        if item.interest.write {
          masterW := masterW + {item.fd};
        }
      }
    }

    /** ensure_capacity: room for index n, or an error and nothing changed. */
    method EnsureCapacity(n: nat, memory: bool) returns (ret: Status)
      requires Valid()
      modifies this
      ensures Valid() && masterR == old(masterR) && masterW == old(masterW) && maxFd == old(maxFd)
      ensures ret == Success <==> n < old(fds.Length) || (n <= ITEMS_MAX_SIZE && memory)
      ensures ret != Success ==> fds == old(fds) && ret == (if n > ITEMS_MAX_SIZE then MaxFd else NoMemory)
      ensures ret == Success ==>
                && n < fds.Length && fds.Length >= old(fds.Length)
                && fds[..old(fds.Length)] == old(fds[..])
                && (forall i :: old(fds.Length) <= i < fds.Length ==> fds[i] == Unused())
                && (fds == old(fds) || fresh(fds))
    {
      if n < fds.Length {
        return Success;
      } else if n > ITEMS_MAX_SIZE {
        return MaxFd;
      } else {
        var size := NextCapacity(n);
        if !memory {
          return NoMemory;
        }
        ghost var before := fds[..];
        var table := fds;
        var tmp := new Item<D>[size](i requires 0 <= i reads table => if i < table.Length then table[i] else Unused());
        fds := tmp;
        assert fds[..table.Length] == before;
        GrowthKeepsSets(before, fds[..]);
        return Success;
      }
    }

    /** selector_register. The C code only asks for a larger table when fd > fd_size, so for fd == fd_size it reads and
        writes the slot behind the last one; nothing is said about that access but when it happens. */
    method Register(fd: int, interest: Interest, data: D, memory: bool) returns (ret: Status)
      requires Valid()
      modifies this, fds
      ensures Valid()
      ensures ret == (if InvalidFd(fd) then IllegalArgument
                      else if fd == old(fds.Length) then PastTheEnd
                      else if fd > old(fds.Length) && !memory then NoMemory
                      else if Used(old(fds[..]), fd) then FdInUse
                      else Success)
      ensures fds.Length >= old(fds.Length) && (fds == old(fds) || fresh(fds))
      ensures ret == Success ==> fd < fds.Length && fds[fd] == Item(fd, interest, Some(data))
      ensures forall i :: 0 <= i < fds.Length && (ret != Success || i != fd) ==>
                fds[i] == if i < old(fds.Length) then old(fds[..])[i] else Unused()
      ensures old(fds.Length) > ITEMS_MAX_SIZE ==> fds == old(fds) && ret != PastTheEnd
    {
      if InvalidFd(fd) {
        return IllegalArgument;
      }
      ghost var before := fds[..];
      if fd > fds.Length {
        ret := EnsureCapacity(fd, memory);
        if ret != Success {
          return;
        }
      } else if fd == fds.Length {
        return PastTheEnd;
      }
      assert forall i :: 0 <= i < |before| ==> fds[..|before|][i] == before[i];
      if fds[fd].fd != FD_UNUSED {
        return FdInUse;
      }
      ghost var table := fds[..];
      fds[fd] := Item(fd, interest, Some(data));
      if fd > maxFd {
        maxFd := fd;
      }
      UpdateSets(fds[fd]);
      assert fds[..] == table[fd := fds[fd]];
      SlotChangesSets(table, fd, fds[fd]);
      return Success;
    }

    /** The first half of selector_unregister_fd, up to the close callback: what is about to be closed. Nothing has
        changed yet, so the callback finds the table in order. A valid descriptor that the table has no slot for is not
        noticed: the C code looks behind the table. */
    method Closing(fd: int) returns (ret: Status, item: Option<Item<D>>)
      requires Valid()
      ensures ret == (if InvalidFd(fd) then IllegalArgument
                      else if fd >= fds.Length then PastTheEnd
                      else if !Used(fds[..], fd) then IllegalArgument
                      else Success)
      ensures item == if ret == Success then Some(fds[fd]) else None
    {
      if InvalidFd(fd) {
        return IllegalArgument, None;
      } else if fd >= fds.Length {
        return PastTheEnd, None;
      } else if fds[fd].fd == FD_UNUSED {
        return IllegalArgument, None;
      }
      return Success, Some(fds[fd]);
    }

    /** The second half of selector_unregister_fd: forget the descriptor. */
    method Forget(fd: int)
      requires Valid() && Used(fds[..], fd)
      modifies this, fds
      ensures Valid() && fds == old(fds)
      ensures fds[..] == old(fds[..])[fd := Unused()]
    {
      ghost var table := fds[..];
      fds[fd] := fds[fd].(interest := OP_NOOP);
      UpdateSets(fds[fd]);
      fds[fd] := Unused();
      SlotChangesSets(table, fd, Unused());
      assert fds[..] == table[fd := Unused()];
      maxFd := ItemsMaxFd();
    }

    /** selector_set_interest; it looks behind the table as selector_unregister_fd does. */
    method SetInterest(fd: int, interest: Interest) returns (ret: Status)
      requires Valid()
      modifies this, fds
      ensures Valid() && fds == old(fds) && maxFd == old(maxFd)
      ensures ret == (if InvalidFd(fd) then IllegalArgument
                      else if fd >= fds.Length then PastTheEnd
                      else if !Used(old(fds[..]), fd) then IllegalArgument
                      else Success)
      ensures var before := old(fds[..]);
              fds[..] == if ret == Success then before[fd := before[fd].(interest := interest)] else before
    {
      if InvalidFd(fd) {
        return IllegalArgument;
      } else if fd >= fds.Length {
        return PastTheEnd;
      } else if fds[fd].fd == FD_UNUSED {
        return IllegalArgument;
      }
      ghost var table := fds[..];
      fds[fd] := fds[fd].(interest := interest);
      UpdateSets(fds[fd]);
      SlotChangesSets(table, fd, fds[fd]);
      assert fds[..] == table[fd := fds[fd]];
      return Success;
    }
  }
}
