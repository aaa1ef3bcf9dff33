// The file-descriptor callback table of client/lib/cblib.c: the static array `cb`,
// the descriptor set `read_fds` and `maxfd`.

module FdTable {
  const FD_SETSIZE := 1024

  // A callback pointer with its argument: NULL, the library's own dummy, or a client's.
  datatype Callback = Null | Dummy | User(id: int, arg: int)

  datatype Slot = Slot(fd: int, callback: Callback)

  const FREE := Slot(-1, Dummy)

  type Slots = s: seq<Slot> | |s| == FD_SETSIZE witness seq(FD_SETSIZE, _ => FREE)

  datatype Table = Table(cb: Slots, readFds: set<int>, maxfd: int)

  function EmptyTable(): Table {
    Table(seq(FD_SETSIZE, _ => FREE), {}, -1)
  }

  // The first slot from i on that holds fd, or FD_SETSIZE.
  function Find(cb: Slots, fd: int, i: nat): (k: nat)
    requires i <= FD_SETSIZE
    ensures i <= k <= FD_SETSIZE
    ensures k < FD_SETSIZE ==> cb[k].fd == fd
    ensures forall j :: i <= j < k ==> cb[j].fd != fd
    decreases FD_SETSIZE - i
  {
    if i == FD_SETSIZE || cb[i].fd == fd then i else Find(cb, fd, i + 1)
  }

  // The largest descriptor in the first n slots, or -1.
  function MaxFd(cb: Slots, n: nat): (m: int)
    requires n <= FD_SETSIZE
    ensures m >= -1 && (m != -1 ==> exists i :: 0 <= i < n && cb[i].fd == m)
    ensures forall i :: 0 <= i < n ==> cb[i].fd <= m
  {
    if n == 0 then -1
    else if cb[n - 1].fd > MaxFd(cb, n - 1) then cb[n - 1].fd
    else MaxFd(cb, n - 1)
  }

  // register_fd_callback for fd > 0, register_stdin_callback for fd == 0.
  function Register(t: Table, fd: int, callback: Callback): Table {
    if fd < 0 || callback.Null? then t
    else
      var i := Find(t.cb, fd, 0);
      if i < FD_SETSIZE then t.(cb := t.cb[i := Slot(fd, callback)])
      else
        var j := Find(t.cb, -1, 0);
        if j < FD_SETSIZE then
          Table(t.cb[j := Slot(fd, callback)], t.readFds + {fd}, if fd > t.maxfd then fd else t.maxfd)
        else t
  }

  // deregister_fd_callback for fd > 0, deregister_stdin_callback for fd == 0.
  function Deregister(t: Table, fd: int): Table {
    if fd < 0 then t
    else
      var i := Find(t.cb, fd, 0);
      if i < FD_SETSIZE then
        var cb := t.cb[i := FREE];
        Table(cb, t.readFds - {fd},
              if t.maxfd != fd then t.maxfd else if fd == 0 then -1 else MaxFd(cb, |cb|))
      else t.(readFds := t.readFds - {fd})
  }

  // Slot k holds fd with this callback.
  predicate At(cb: Slots, k: nat, fd: int, c: Callback) {
    k < FD_SETSIZE && cb[k] == Slot(fd, c)
  }

  ghost predicate Holds(cb: Slots, fd: int) {
    fd >= 0 && exists i :: 0 <= i < FD_SETSIZE && cb[i].fd == fd
  }

  // Descriptors are in range and distinct, and dummy sits exactly in the free slots.
  ghost predicate Tidy(cb: Slots) {
    && (forall i :: 0 <= i < FD_SETSIZE ==> -1 <= cb[i].fd < FD_SETSIZE && !cb[i].callback.Null?)
    && (forall i :: 0 <= i < FD_SETSIZE ==> (cb[i].fd == -1 <==> cb[i].callback.Dummy?))
    && (forall i, j :: 0 <= i < j < FD_SETSIZE && cb[i].fd != -1 ==> cb[i].fd != cb[j].fd)
  }

  // The table, the descriptor set and maxfd agree.
  ghost predicate Agree(t: Table) {
    && Tidy(t.cb)
    && (forall fd :: fd in t.readFds <==> Holds(t.cb, fd))
    && (forall fd :: fd in t.readFds ==> fd <= t.maxfd)
    && (t.maxfd == -1 || t.maxfd in t.readFds)
  }

  lemma EmptyAgrees()
    ensures Agree(EmptyTable())
  {
  }

  lemma WriteSlot(cb: Slots, i: nat, slot: Slot)
    requires Tidy(cb) && i < FD_SETSIZE
    requires slot == FREE || (0 <= slot.fd < FD_SETSIZE && slot.callback.User?)
    requires slot == FREE || cb[i].fd == slot.fd || !Holds(cb, slot.fd)
    ensures Tidy(cb[i := slot])
    ensures forall g :: Holds(cb[i := slot], g) <==> (g >= 0 && g == slot.fd) || (Holds(cb, g) && g != cb[i].fd)
  {
    var dd := cb[i := slot];
    forall g
      ensures Holds(dd, g) <==> (g >= 0 && g == slot.fd) || (Holds(cb, g) && g != cb[i].fd)
    {
      assert forall j :: 0 <= j < FD_SETSIZE && j != i ==> dd[j] == cb[j];
      assert dd[i] == slot;
    }
  }

  // ---------------------------------------------------------------- never full

  function Below(n: nat): (s: set<int>)
    ensures |s| == n && forall x :: x in s <==> 0 <= x < n
  {
    if n == 0 then {} else Below(n - 1) + {n - 1}
  }

  lemma {:induction false} FdsCount(cb: Slots, n: nat, pool: set<int>) returns (used: set<int>)
    requires n <= FD_SETSIZE
    requires forall i, j :: 0 <= i < j < n ==> cb[i].fd != cb[j].fd
    requires forall i :: 0 <= i < n ==> cb[i].fd in pool
    ensures |used| == n && used <= pool
    ensures forall x :: x in used ==> exists i :: 0 <= i < n && cb[i].fd == x
  {
    if n == 0 {
      used := {};
    } else {
      used := FdsCount(cb, n - 1, pool);
      used := used + {cb[n - 1].fd};
    }
  }

  lemma SubsetSize<T>(a: set<T>, b: set<T>)
    requires a <= b
    ensures |a| <= |b|
  {
    assert b == a + (b - a);
  }

  // FD_SETSIZE slots and FD_SETSIZE descriptors: a descriptor that is not registered
  // always finds a free slot, so the table-full branch is dead.
  lemma NeverFull(t: Table, fd: int)
    requires Tidy(t.cb) && 0 <= fd < FD_SETSIZE && !Holds(t.cb, fd)
    ensures Find(t.cb, -1, 0) < FD_SETSIZE
  {
    hide Find, Below;
    if Find(t.cb, -1, 0) == FD_SETSIZE {
      var pool := Below(|t.cb|) - {fd};
      assert forall i :: 0 <= i < FD_SETSIZE ==> t.cb[i].fd != -1 && t.cb[i].fd in pool;
      var used := FdsCount(t.cb, FD_SETSIZE, pool);
      SubsetSize(used, pool);
    }
  }

  // ---------------------------------------------------------------- agreement is kept

  lemma FindHolds(cb: Slots, fd: int)
    requires fd >= 0
    ensures Find(cb, fd, 0) < FD_SETSIZE <==> Holds(cb, fd)
    ensures forall g :: Holds(cb, g) ==> g >= 0
  {
  }

  lemma OnlySlot(cb: Slots, fd: int, i: nat)
    requires Tidy(cb) && fd >= 0 && i < FD_SETSIZE && cb[i].fd == fd
    ensures forall j :: 0 <= j < FD_SETSIZE && j != i ==> cb[j].fd != fd
  {
  }

  // The slot an operation on fd works on: its own, or the first free one.
  function SlotFor(cb: Slots, fd: int): (k: nat)
    ensures k <= FD_SETSIZE
    ensures k < FD_SETSIZE ==> cb[k].fd == fd || cb[k].fd == -1
  {
    if Find(cb, fd, 0) < FD_SETSIZE then Find(cb, fd, 0) else Find(cb, -1, 0)
  }

  lemma RegisterAgrees(t: Table, fd: int, callback: Callback)
    requires Agree(t) && fd < FD_SETSIZE && !callback.Dummy?
    ensures Agree(Register(t, fd, callback))
    ensures fd >= 0 && !callback.Null? ==>
      && SlotFor(t.cb, fd) < FD_SETSIZE
      && Register(t, fd, callback).cb == t.cb[SlotFor(t.cb, fd) := Slot(fd, callback)]
      && (forall i :: 0 <= i < FD_SETSIZE && i != SlotFor(t.cb, fd) ==> t.cb[i].fd != fd)
      && forall g :: Holds(Register(t, fd, callback).cb, g) <==> g == fd || Holds(t.cb, g)
  {
    hide Find, Tidy, Holds;
    if fd >= 0 && !callback.Null? {
      FindHolds(t.cb, fd);
      if Find(t.cb, fd, 0) == FD_SETSIZE {
        NeverFull(t, fd);
      }
      WriteSlot(t.cb, SlotFor(t.cb, fd), Slot(fd, callback));
      var u := Register(t, fd, callback);
      OnlySlot(u.cb, fd, SlotFor(t.cb, fd));
      assert forall i :: 0 <= i < FD_SETSIZE && i != SlotFor(t.cb, fd) ==> t.cb[i] == u.cb[i];
    }
  }

  lemma DeregisterAgrees(t: Table, fd: int)
    requires Agree(t) && fd < FD_SETSIZE
    ensures Agree(Deregister(t, fd))
    ensures fd >= 0 ==>
      && (forall i :: 0 <= i < FD_SETSIZE ==> Deregister(t, fd).cb[i] == if t.cb[i].fd == fd then FREE else t.cb[i])
      && forall g :: Holds(Deregister(t, fd).cb, g) <==> Holds(t.cb, g) && g != fd
  {
    hide Find, Tidy, Holds, MaxFd;
    if fd >= 0 {
      FindHolds(t.cb, fd);
      var i := Find(t.cb, fd, 0);
      if i < FD_SETSIZE {
        WriteSlot(t.cb, i, FREE);
        MaxFdIs(t.cb[i := FREE]);
        OnlySlot(t.cb, fd, i);
      }
    }
  }

  lemma MaxFdIs(cb: Slots)
    ensures forall g :: Holds(cb, g) ==> g <= MaxFd(cb, |cb|)
    ensures MaxFd(cb, |cb|) >= 0 ==> Holds(cb, MaxFd(cb, |cb|))
  {
    hide MaxFd;
  }

  // Neither operation touches the slot of any other descriptor.
  lemma OthersStay(t: Table, fd: int, callback: Callback, k: nat, g: int, c: Callback)
    requires g >= 0 && g != fd
    ensures At(Register(t, fd, callback).cb, k, g, c) <==> At(t.cb, k, g, c)
    ensures At(Deregister(t, fd).cb, k, g, c) <==> At(t.cb, k, g, c)
  {
    hide MaxFd;
  }

  // ---------------------------------------------------------------- the static table

  class Registry {
    const cb: array<Slot>
    var readFds: set<int>
    var maxfd: int

    predicate Sized()
      reads this
    {
      cb.Length == FD_SETSIZE
    }

    function View(): Table
      requires Sized()
      reads this, cb
    {
      Table(cb[..], readFds, maxfd)
    }

    constructor ()
      ensures Sized() && fresh(cb) && View() == EmptyTable()
    {
      cb := new Slot[FD_SETSIZE](_ => FREE);
      new;
      Init();
    }

    // init_cblib
    method Init()
      requires Sized()
      modifies this, cb
      ensures View() == EmptyTable()
    {
      readFds := {};
      maxfd := -1;
      for i := 0 to FD_SETSIZE
        invariant forall j :: 0 <= j < i ==> cb[j] == FREE
        invariant readFds == {} && maxfd == -1
      {
        cb[i] := FREE;
      }
      assert cb[..] == EmptyTable().cb;
    }

    // The search loop shared by the four operations.
    method Search(fd: int) returns (i: nat)
      requires Sized()
      ensures i == Find(cb[..], fd, 0)
    {
      i := 0;
      while i < FD_SETSIZE
        invariant i <= FD_SETSIZE
        invariant Find(cb[..], fd, 0) == Find(cb[..], fd, i)
      {
        if cb[i].fd == fd {
          return;
        }
        i := i + 1;
      }
    }

    method RegisterFd(fd: int, callback: Callback)
      requires Sized()
      modifies this, cb
      ensures View() == if fd == 0 then old(View()) else Register(old(View()), fd, callback)
    {
      hide Find;
      if fd <= 0 || callback.Null? {
        return;
      }
      var i := Search(fd);
      if i < FD_SETSIZE {
        cb[i] := Slot(fd, callback);
        assert cb[..] == old(cb[..])[i := Slot(fd, callback)];
        return;
      }
      i := Search(-1);
      if i < FD_SETSIZE {
        cb[i] := Slot(fd, callback);
        readFds := readFds + {fd};
        if fd > maxfd {
          maxfd := fd;
        }
        assert cb[..] == old(cb[..])[i := Slot(fd, callback)];
      }
    }

    method RegisterStdin(callback: Callback)
      requires Sized()
      modifies this, cb
      ensures View() == Register(old(View()), 0, callback)
    {
      hide Find;
      if callback.Null? {
        return;
      }
      var i := Search(0);
      if i < FD_SETSIZE {
        cb[i] := Slot(0, callback);
        assert cb[..] == old(cb[..])[i := Slot(0, callback)];
        return;
      }
      i := Search(-1);
      if i < FD_SETSIZE {
        cb[i] := Slot(0, callback);
        readFds := readFds + {0};
        if maxfd < 0 {
          maxfd := 0;
        }
        assert cb[..] == old(cb[..])[i := Slot(0, callback)];
      }
    }

    method DeregisterFd(fd: int)
      requires Sized()
      modifies this, cb
      ensures View() == if fd == 0 then old(View()) else Deregister(old(View()), fd)
    {
      hide Find, MaxFd;
      if fd <= 0 {
        return;
      }
      var i := Search(fd);
      if i < FD_SETSIZE {
        cb[i] := FREE;
        assert cb[..] == old(cb[..])[i := FREE];
        if maxfd == fd {
          maxfd := Largest();
        }
      }
      if fd in readFds {
        readFds := readFds - {fd};
      }
    }

    // The recomputation of maxfd.
    method Largest() returns (m: int)
      requires Sized()
      ensures m == MaxFd(cb[..], |cb[..]|)
    {
      m := -1;
      for i := 0 to FD_SETSIZE
        invariant m == MaxFd(cb[..], i)
      {
        if cb[i].fd > m {
          m := cb[i].fd;
        }
      }
    }

    method DeregisterStdin()
      requires Sized()
      modifies this, cb
      ensures View() == Deregister(old(View()), 0)
    {
      hide Find, MaxFd;
      var i := Search(0);
      if i < FD_SETSIZE {
        cb[i] := FREE;
        assert cb[..] == old(cb[..])[i := FREE];
        if maxfd == 0 {
          maxfd := -1;
        }
      }
      if 0 in readFds {
        readFds := readFds - {0};
      }
    }
  }
}
