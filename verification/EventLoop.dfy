// handle_event of client/lib/cblib.c with re-entrant callbacks. A run is driven by an
// arbitrary environment: how long each clock reading takes, what select returns, and
// what every callback does to the timers and descriptors while it runs. Time only moves
// forward and select reports a timeout only when it has elapsed, by construction.

module EventLoop {
  import opened Words
  import opened Time
  import opened TimerQueue
  import opened FdTable

  type Fd = x: int | x < FD_SETSIZE

  // A callback pointer as a client can pass it: dummy is private to the library.
  type Handler = c: Callback | !c.Dummy? witness Null

  // What a callback may do. Timers go by names of type T; `wait` is the time until
  // start_timer reads the clock; descriptor 0 stands for the stdin variants.
  datatype Op<T> =
    | Create(timer: T)
    | Delete(timer: T)
    | Start(timer: T, timeout: uint32, wait: nat)
    | Stop(timer: T)
    | Register(fd: Fd, handler: Handler)
    | Deregister(fd: Fd)

  datatype Event<T> =
    | Started(timer: T, at: Instant, timeout: uint32)
    | Stopped(timer: T)
    | Fired(timer: T, stop: Instant, at: Instant)
    | Registered(fd: int, handler: Callback)
    | Deregistered(fd: int)
    | Called(fd: int, handler: Callback)

  type Log<T> = seq<Event<T>>

  // `made` holds the timers that have been created and not deleted.
  datatype Loop<T(==)> = Loop(made: set<T>, queue: Queue<T>, table: Table, clock: Instant, log: Log<T>)

  function Boot<T(==)>(clock: Instant): Loop<T> {
    Loop({}, [], EmptyTable(), clock, [])
  }

  function Perform<T(==)>(s: Loop<T>, op: Op<T>): Loop<T> {
    match op
    case Create(t) => s.(made := s.made + {t})
    case Delete(t) => s.(made := s.made - {t})
    case Start(t, timeout, wait) =>
      var now := Later(s.clock, wait);
      s.(queue := StartSpec(s.queue, t, timeout, now),
         clock := now,
         log := if TimerQueue.Started(s.queue, t) then s.log else s.log + [Started(t, now, timeout)])
    case Stop(t) =>
      s.(queue := Remove(s.queue, t), log := s.log + [Stopped(t)])
    case Register(fd, handler) =>
      s.(table := FdTable.Register(s.table, fd, handler),
         log := if fd < 0 || handler.Null? then s.log else s.log + [Registered(fd, handler)])
    case Deregister(fd) =>
      s.(table := FdTable.Deregister(s.table, fd),
         log := if fd < 0 then s.log else s.log + [Deregistered(fd)])
  }

  function PerformAll<T(==)>(s: Loop<T>, ops: seq<Op<T>>): Loop<T>
    decreases |ops|
  {
    if ops == [] then s else PerformAll(Perform(s, ops[0]), ops[1..])
  }

  // Stop the first timer.
  function Expire<T(==)>(s: Loop<T>, at: Instant): Loop<T>
    requires s.queue != []
  {
    var head := s.queue[0];
    s.(queue := Remove(s.queue, head.timer), clock := at, log := s.log + [Fired(head.timer, head.stop, at)])
  }

  // Stop the first timer and run its callback.
  function Fire<T(==)>(s: Loop<T>, at: Instant, ops: seq<Op<T>>): Loop<T>
    requires s.queue != []
  {
    PerformAll(Expire(s, at), ops)
  }

  // Whether the pass calls the callback in slot i.
  predicate Due<T>(s: Loop<T>, ready: set<int>, i: nat)
    requires i < FD_SETSIZE
  {
    s.table.cb[i].fd >= 0 && s.table.cb[i].fd in ready
  }

  function Call<T(==)>(s: Loop<T>, i: nat): Loop<T>
    requires i < FD_SETSIZE
  {
    s.(log := s.log + [Called(s.table.cb[i].fd, s.table.cb[i].callback)])
  }

  function CallSlot<T(==)>(s: Loop<T>, i: nat, ops: seq<Op<T>>): Loop<T>
    requires i < FD_SETSIZE
  {
    PerformAll(Call(s, i), ops)
  }

  // One pass over the table from slot i on; script(i) is what the callback in slot i does.
  function Dispatch<T(==)>(s: Loop<T>, ready: set<int>, script: nat -> seq<Op<T>>, i: nat): Loop<T>
    requires i <= FD_SETSIZE
    decreases FD_SETSIZE - i
  {
    if i == FD_SETSIZE then s
    else if Due(s, ready, i) then Dispatch(CallSlot(s, i, script(i)), ready, script, i + 1)
    else Dispatch(s, ready, script, i + 1)
  }

  // How select returns: after its timeout and `late` microseconds more, or with
  // descriptors among those asked for.
  datatype Wake = TimedOut(late: nat) | Ready(fds: set<int>, wait: nat)

  datatype Input<!T> = Input(wait: nat, wake: Wake, script: nat -> seq<Op<T>>)

  // The descriptors select looks at: those of read_fds below its first argument, maxfd + 1.
  function Asked(t: Table): set<int> {
    set fd | fd in t.readFds && fd < t.maxfd + 1
  }

  // What one call of handle_event comes to: the first timer fires, nothing happens, or
  // descriptors are ready.
  datatype Verdict = Fires(at: Instant) | Sleeps(at: Instant) | Passes(at: Instant, ready: set<int>)

  function Decide<T(==)>(s: Loop<T>, wait: nat, wake: Wake): (v: Verdict)
    ensures s.clock.Micros() + wait <= v.at.Micros()
    ensures v.Fires? ==> s.queue != [] && s.queue[0].stop.Micros() <= v.at.Micros()
    ensures v.Passes? ==> v.ready <= Asked(s.table)
  {
    var now := Later(s.clock, wait);
    if s.queue != [] && Before(s.queue[0].stop, now) then Fires(now)
    else
      match wake
      case TimedOut(late) =>
        // select was given no timeout, so it is still waiting
        if s.queue == [] then Sleeps(now)
        else Fires(Later(now, SelectTimeout(s.queue[0].stop, now).Micros() + late))
      case Ready(fds, after) => Passes(Later(now, after), fds * Asked(s.table))
  }

  function HandleEvent<T(==)>(s: Loop<T>, e: Input<T>): Loop<T> {
    match Decide(s, e.wait, e.wake)
    case Fires(at) => Fire(s, at, e.script(0))
    case Sleeps(at) => s.(clock := at)
    case Passes(at, ready) => Dispatch(s.(clock := at), ready, e.script, 0)
  }

  function Run<T(==)>(s: Loop<T>, inputs: seq<Input<T>>): Loop<T> {
    if inputs == [] then s else HandleEvent(Run(s, inputs[..|inputs| - 1]), inputs[|inputs| - 1])
  }

  // ---------------------------------------------------------------- what callbacks may do

  // A callback uses only timers that exist and deletes only stopped ones.
  predicate Allowed<T(==)>(s: Loop<T>, op: Op<T>) {
    match op
    case Create(t) => t !in s.made
    case Delete(t) => t in s.made && !TimerQueue.Started(s.queue, t)
    case Start(t, _, _) => t in s.made
    case Stop(t) => t in s.made
    case _ => true
  }

  predicate AllAllowed<T(==)>(s: Loop<T>, ops: seq<Op<T>>)
    decreases |ops|
  {
    ops == [] || (Allowed(s, ops[0]) && AllAllowed(Perform(s, ops[0]), ops[1..]))
  }

  predicate PassAllowed<T(==)>(s: Loop<T>, ready: set<int>, script: nat -> seq<Op<T>>, i: nat)
    requires i <= FD_SETSIZE
    decreases FD_SETSIZE - i
  {
    i == FD_SETSIZE
    || (if Due(s, ready, i) then
          AllAllowed(Call(s, i), script(i)) && PassAllowed(CallSlot(s, i, script(i)), ready, script, i + 1)
        else PassAllowed(s, ready, script, i + 1))
  }

  predicate InputAllowed<T(==)>(s: Loop<T>, e: Input<T>) {
    match Decide(s, e.wait, e.wake)
    case Fires(at) => AllAllowed(Expire(s, at), e.script(0))
    case Sleeps(_) => true
    case Passes(at, ready) => PassAllowed(s.(clock := at), ready, e.script, 0)
  }

  // ---------------------------------------------------------------- what a log says

  datatype Option<T> = None | Some(value: T)

  // The deadline of a timer that was started and has neither stopped nor fired since.
  function Pending<T(==)>(log: Log<T>, t: T): Option<Instant> {
    if log == [] then None else NowPending(Pending(log[..|log| - 1], t), log[|log| - 1], t)
  }

  function NowPending<T(==)>(p: Option<Instant>, e: Event<T>, t: T): Option<Instant> {
    match e
    case Started(u, at, timeout) => if u == t then Some(StopTime(at, timeout)) else p
    case Stopped(u) => if u == t then None else p
    case Fired(u, _, _) => if u == t then None else p
    case _ => p
  }

  // The callback a descriptor was last registered with and not deregistered since.
  function Current<T>(log: Log<T>, fd: int): Option<Callback> {
    if log == [] then None else NowCurrent(Current(log[..|log| - 1], fd), log[|log| - 1], fd)
  }

  function NowCurrent<T>(p: Option<Callback>, e: Event<T>, fd: int): Option<Callback> {
    match e
    case Registered(g, handler) => if g == fd then Some(handler) else p
    case Deregistered(g) => if g == fd then None else p
    case _ => p
  }

  // The deadline that fired last, if any.
  function LastFired<T>(log: Log<T>): Option<Instant> {
    if log == [] then None
    else if log[|log| - 1].Fired? then Some(log[|log| - 1].stop)
    else LastFired(log[..|log| - 1])
  }

  // The instant of the last start or firing, if any.
  function Seen<T>(log: Log<T>): Option<Instant> {
    if log == [] then None
    else if log[|log| - 1].Started? || log[|log| - 1].Fired? then Some(log[|log| - 1].at)
    else Seen(log[..|log| - 1])
  }

  predicate NotBefore(last: Option<Instant>, at: Instant) {
    last.Some? ==> last.value.Micros() <= at.Micros()
  }

  // What a new event must satisfy, given the log before it.
  ghost predicate Lawful<T>(log: Log<T>, e: Event<T>) {
    match e
    case Started(t, at, _) => Pending(log, t).None? && NotBefore(Seen(log), at)
    case Fired(t, stop, at) =>
      && Pending(log, t) == Some(stop)
      && stop.Micros() <= at.Micros()
      && NotBefore(LastFired(log), stop)
      && NotBefore(Seen(log), at)
    case Called(fd, handler) =>
      && handler.User?
      && Current(log, fd) == Some(handler)
    case _ => true
  }

  // Time does not go backwards; a start is of a timer that is not pending; every firing
  // answers a start that is still pending, not before its deadline and in deadline order;
  // every call goes to the callback registered for its descriptor.
  ghost predicate LawfulLog<T>(log: Log<T>) {
    forall i :: 0 <= i < |log| ==> Lawful(log[..i], log[i])
  }

  // Because maxfd is the maximum, select looks at every registered descriptor.
  lemma NoneOverlooked(t: Table)
    requires Agree(t)
    ensures forall fd :: fd in Asked(t) <==> FdTable.Holds(t.cb, fd)
  {
  }

  // ---------------------------------------------------------------- the invariant

  ghost predicate QueueTracksLog<T>(q: Queue<T>, log: Log<T>) {
    && (forall e :: e in q ==> Pending(log, e.timer) == Some(e.stop))
    && (forall i :: 0 <= i < |log| && log[i].Started? && Pending(log, log[i].timer).Some? ==>
          Entry(log[i].timer, Pending(log, log[i].timer).value) in q)
  }

  ghost predicate TableTracksLog<T>(t: Table, log: Log<T>) {
    && (forall i :: 0 <= i < FD_SETSIZE && t.cb[i].fd >= 0 ==> Current(log, t.cb[i].fd) == Some(t.cb[i].callback))
    && (forall fd :: fd >= 0 && !Holds(t.cb, fd) ==> Current(log, fd) == None)
  }

  ghost predicate OnTime<T>(s: Loop<T>) {
    && NotBefore(Seen(s.log), s.clock)
    && NotBefore(LastFired(s.log), s.clock)
    && forall e :: e in s.queue ==> NotBefore(LastFired(s.log), e.stop)
  }

  ghost predicate TimersOk<T>(s: Loop<T>) {
    Distinct(s.queue) && Sorted(s.queue) && QueueTracksLog(s.queue, s.log) && OnTime(s)
  }

  ghost predicate TableOk<T>(s: Loop<T>) {
    Agree(s.table) && TableTracksLog(s.table, s.log)
  }

  ghost predicate Inv<T>(s: Loop<T>) {
    TimersOk(s) && TableOk(s) && LawfulLog(s.log)
  }

  // ---------------------------------------------------------------- one more event

  lemma Append<T>(log: Log<T>, e: Event<T>)
    ensures forall t :: Pending(log + [e], t) == NowPending(Pending(log, t), e, t)
    ensures forall fd :: Current(log + [e], fd) == NowCurrent(Current(log, fd), e, fd)
    ensures LastFired(log + [e]) == if e.Fired? then Some(e.stop) else LastFired(log)
    ensures Seen(log + [e]) == if e.Started? || e.Fired? then Some(e.at) else Seen(log)
    ensures LawfulLog(log) && Lawful(log, e) ==> LawfulLog(log + [e])
  {
    var r := log + [e];
    assert r[..|r| - 1] == log;
    hide Lawful;
    if LawfulLog(log) && Lawful(log, e) {
      forall i | 0 <= i < |r| ensures Lawful(r[..i], r[i]) {
        assert r[..i] == log[..i];
      }
    }
  }

  // A timer is in the queue exactly when it is pending in the log.
  lemma PendingInQueue<T>(q: Queue<T>, log: Log<T>, t: T)
    requires QueueTracksLog(q, log)
    ensures TimerQueue.Started(q, t) <==> Pending(log, t).Some?
    ensures forall i :: 0 <= i < |q| && q[i].timer == t ==> Pending(log, t) == Some(q[i].stop)
  {
    if Pending(log, t).Some? {
      var i := PendingWasStarted(log, t);
    }
  }

  lemma {:induction false} PendingWasStarted<T>(log: Log<T>, t: T) returns (i: nat)
    requires Pending(log, t).Some?
    ensures i < |log| && log[i].Started? && log[i].timer == t
  {
    var n := |log| - 1;
    if log[n].Started? && log[n].timer == t {
      i := n;
    } else {
      i := PendingWasStarted(log[..n], t);
    }
  }

  // ---------------------------------------------------------------- each step keeps the invariant

  lemma StartKeeps<T>(s: Loop<T>, t: T, timeout: uint32, wait: nat)
    requires TimersOk(s)
    ensures TimersOk(Perform(s, Start(t, timeout, wait)))
    ensures !TimerQueue.Started(s.queue, t) ==> Lawful(s.log, Started(t, Later(s.clock, wait), timeout))
  {
    hide Pending, LastFired, Seen, Place, Timeval.Micros;
    var now := Later(s.clock, wait);
    var e := Entry(t, StopTime(now, timeout));
    PendingInQueue(s.queue, s.log, t);
    if !TimerQueue.Started(s.queue, t) {
      InsertKeeps(s.queue, e);
      Append(s.log, Started(t, now, timeout));
    }
  }

  lemma StopKeeps<T>(s: Loop<T>, t: T)
    requires TimersOk(s)
    ensures TimersOk(Perform(s, Stop(t)))
  {
    hide Pending, LastFired, Seen, Remove, Timeval.Micros;
    RemoveKeeps(s.queue, t);
    Append(s.log, Stopped(t));
    var r := Perform(s, Stop(t));
    assert QueueTracksLog(r.queue, r.log);
  }

  // Firing the first timer, at its deadline or later, is lawful.
  lemma FireKeeps<T>(s: Loop<T>, at: Instant)
    requires Inv(s) && s.queue != []
    requires s.queue[0].stop.Micros() <= at.Micros() && s.clock.Micros() <= at.Micros()
    ensures Inv(Expire(s, at))
  {
    hide Pending, Current, LastFired, Seen, Remove, Timeval.Micros, Agree;
    var head := s.queue[0];
    assert head in s.queue;
    RemoveKeeps(s.queue, head.timer);
    Append(s.log, Fired(head.timer, head.stop, at));
    assert forall e :: e in s.queue ==> head.stop.Micros() <= e.stop.Micros();
    var r := Expire(s, at);
    assert QueueTracksLog(r.queue, r.log);
  }

  lemma RegisterKeeps<T>(s: Loop<T>, fd: Fd, handler: Handler)
    requires TableOk(s)
    ensures TableOk(Perform(s, Register(fd, handler)))
  {
    hide Current, Agree, Find;
    RegisterAgrees(s.table, fd, handler);
    Append(s.log, Registered(fd, handler));
  }

  lemma DeregisterKeeps<T>(s: Loop<T>, fd: Fd)
    requires TableOk(s)
    ensures TableOk(Perform(s, Deregister(fd)))
  {
    hide Current, Agree, Find;
    DeregisterAgrees(s.table, fd);
    Append(s.log, Deregistered(fd));
  }

  // The callback a pass calls is the one registered, and never dummy.
  lemma CallKeeps<T>(s: Loop<T>, i: nat)
    requires Inv(s) && i < FD_SETSIZE && s.table.cb[i].fd >= 0
    ensures Inv(Call(s, i))
  {
    hide Pending, Current, LastFired, Seen, Timeval.Micros, Holds;
    Append(s.log, Called(s.table.cb[i].fd, s.table.cb[i].callback));
  }

  lemma PerformKeeps<T>(s: Loop<T>, op: Op<T>)
    requires Inv(s)
    ensures Inv(Perform(s, op))
  {
    hide TimersOk, Agree, Holds, Pending, Current, LastFired, Seen;
    var r := Perform(s, op);
    match op
    case Create(t) => MadeKeeps(s, r);
    case Delete(t) => MadeKeeps(s, r);
    case Start(t, timeout, wait) =>
      StartKeeps(s, t, timeout, wait);
      if r.log != s.log {
        Append(s.log, r.log[|s.log|]);
        TableLog(s, r);
      }
    case Stop(t) =>
      StopKeeps(s, t);
      Append(s.log, Stopped(t));
      TableLog(s, r);
    case Register(fd, handler) =>
      RegisterKeeps(s, fd, handler);
      if r.log != s.log {
        Append(s.log, r.log[|s.log|]);
        TimersLog(s, r);
      }
    case Deregister(fd) =>
      DeregisterKeeps(s, fd);
      if r.log != s.log {
        Append(s.log, r.log[|s.log|]);
        TimersLog(s, r);
      }
  }

  lemma MadeKeeps<T>(s: Loop<T>, r: Loop<T>)
    requires Inv(s) && r == s.(made := r.made)
    ensures Inv(r)
  {
    hide Agree, Pending, Current, LastFired, Seen, LawfulLog;
  }

  lemma TableLog<T>(s: Loop<T>, r: Loop<T>)
    requires TableOk(s) && r.table == s.table
    requires |r.log| == |s.log| + 1 && r.log[..|s.log|] == s.log
    requires var e := r.log[|s.log|]; !e.Registered? && !e.Deregistered?
    ensures TableOk(r)
  {
    hide Agree, Holds;
    assert forall fd :: Current(r.log, fd) == Current(s.log, fd);
  }

  lemma TimersLog<T>(s: Loop<T>, r: Loop<T>)
    requires TimersOk(s) && r.queue == s.queue && r.clock == s.clock
    requires |r.log| == |s.log| + 1 && r.log[..|s.log|] == s.log
    requires var e := r.log[|s.log|]; e.Registered? || e.Deregistered? || e.Called?
    ensures TimersOk(r)
  {
    hide Timeval.Micros;
    assert forall t :: Pending(r.log, t) == Pending(s.log, t);
  }

  lemma {:induction false} PerformAllKeeps<T>(s: Loop<T>, ops: seq<Op<T>>)
    requires Inv(s)
    ensures Inv(PerformAll(s, ops))
    decreases |ops|
  {
    hide Inv, Perform;
    if ops != [] {
      PerformKeeps(s, ops[0]);
      PerformAllKeeps(Perform(s, ops[0]), ops[1..]);
    }
  }

  lemma {:induction false} DispatchKeeps<T>(s: Loop<T>, ready: set<int>, script: nat -> seq<Op<T>>, i: nat)
    requires Inv(s) && i <= FD_SETSIZE
    ensures Inv(Dispatch(s, ready, script, i))
    decreases FD_SETSIZE - i
  {
    hide Inv;
    if i < FD_SETSIZE {
      if Due(s, ready, i) {
        CallKeeps(s, i);
        PerformAllKeeps(Call(s, i), script(i));
        DispatchKeeps(CallSlot(s, i, script(i)), ready, script, i + 1);
      } else {
        DispatchKeeps(s, ready, script, i + 1);
      }
    }
  }

  lemma AdvanceKeeps<T>(s: Loop<T>, now: Instant)
    requires Inv(s) && s.clock.Micros() <= now.Micros()
    ensures Inv(s.(clock := now))
  {
    hide Timeval.Micros, LawfulLog, Agree, Pending, Current, LastFired, Seen;
  }

  lemma HandleEventKeeps<T>(s: Loop<T>, e: Input<T>)
    requires Inv(s)
    ensures Inv(HandleEvent(s, e))
  {
    hide Inv, PerformAll, Dispatch, Decide;
    match Decide(s, e.wait, e.wake)
    case Fires(at) => FireAllKeeps(s, at, e.script(0));
    case Sleeps(at) => AdvanceKeeps(s, at);
    case Passes(at, ready) =>
      AdvanceKeeps(s, at);
      DispatchKeeps(s.(clock := at), ready, e.script, 0);
  }

  lemma FireAllKeeps<T>(s: Loop<T>, at: Instant, ops: seq<Op<T>>)
    requires Inv(s) && s.queue != []
    requires s.queue[0].stop.Micros() <= at.Micros() && s.clock.Micros() <= at.Micros()
    ensures Inv(Fire(s, at, ops))
  {
    hide Inv;
    FireKeeps(s, at);
    PerformAllKeeps(Expire(s, at), ops);
  }

  lemma BootOk<T>(clock: Instant)
    ensures Inv(Boot<T>(clock))
  {
    EmptyAgrees();
  }

  // Over every run the timer list is sorted and free of duplicates, the table agrees
  // with the descriptor set, and every firing and every call is lawful.
  lemma {:induction false} RunsAreLawful<T>(clock: Instant, inputs: seq<Input<T>>)
    ensures Inv(Run(Boot<T>(clock), inputs))
  {
    hide Inv, HandleEvent;
    if inputs == [] {
      BootOk<T>(clock);
    } else {
      RunsAreLawful(clock, inputs[..|inputs| - 1]);
      HandleEventKeeps(Run(Boot<T>(clock), inputs[..|inputs| - 1]), inputs[|inputs| - 1]);
    }
  }

  // ---------------------------------------------------------------- what a lawful log rules out

  // Fired deadlines never go backwards.
  lemma {:induction false} FiredInOrder<T>(log: Log<T>, i: nat, j: nat)
    requires LawfulLog(log) && i < j < |log| && log[i].Fired? && log[j].Fired?
    ensures log[i].stop.Micros() <= log[j].stop.Micros()
  {
    assert Lawful(log[..j], log[j]);
    var k := LastFiring(log[..j], i);
    if i < k {
      FiredInOrder(log, i, k);
    }
  }

  lemma {:induction false} LastFiring<T>(log: Log<T>, i: nat) returns (k: nat)
    requires i < |log| && log[i].Fired?
    ensures i <= k < |log| && log[k].Fired? && LastFired(log) == Some(log[k].stop)
  {
    if log[|log| - 1].Fired? {
      k := |log| - 1;
    } else {
      k := LastFiring(log[..|log| - 1], i);
    }
  }

  // The instants of starts and firings never go backwards.
  lemma {:induction false} TimeIsMonotone<T>(log: Log<T>, i: nat, j: nat)
    requires LawfulLog(log) && i < j < |log|
    requires (log[i].Started? || log[i].Fired?) && (log[j].Started? || log[j].Fired?)
    ensures log[i].at.Micros() <= log[j].at.Micros()
  {
    assert Lawful(log[..j], log[j]);
    var k := LastSeen(log[..j], i);
    if i < k {
      TimeIsMonotone(log, i, k);
    }
  }

  lemma {:induction false} LastSeen<T>(log: Log<T>, i: nat) returns (k: nat)
    requires i < |log| && (log[i].Started? || log[i].Fired?)
    ensures i <= k < |log| && (log[k].Started? || log[k].Fired?) && Seen(log) == Some(log[k].at)
  {
    if log[|log| - 1].Started? || log[|log| - 1].Fired? {
      k := |log| - 1;
    } else {
      k := LastSeen(log[..|log| - 1], i);
    }
  }

  // A timer that fired or was stopped fires again only if it was started again in
  // between, and then for that deadline.
  lemma {:induction false} FiresOncePerStart<T>(log: Log<T>, i: nat, j: nat) returns (k: nat)
    requires LawfulLog(log) && i < j < |log| && log[j].Fired?
    requires (log[i].Fired? || log[i].Stopped?) && log[i].timer == log[j].timer
    ensures i < k < j && log[k].Started? && log[k].timer == log[j].timer
    ensures StopTime(log[k].at, log[k].timeout) == log[j].stop
  {
    assert Lawful(log[..j], log[j]);
    k := PendingSince(log[..j], i, log[j].timer);
  }

  lemma {:induction false} PendingSince<T>(log: Log<T>, i: nat, t: T) returns (k: nat)
    requires i < |log| && (log[i].Fired? || log[i].Stopped?) && log[i].timer == t
    requires Pending(log, t).Some?
    ensures i < k < |log| && log[k].Started? && log[k].timer == t
    ensures StopTime(log[k].at, log[k].timeout) == Pending(log, t).value
  {
    var n := |log| - 1;
    if log[n].Started? && log[n].timer == t {
      k := n;
    } else {
      k := PendingSince(log[..n], i, t);
    }
  }

  // A descriptor deregistered earlier is called again only if it was registered again,
  // and then through the new callback.
  lemma {:induction false} NoCallAfterDeregister<T>(log: Log<T>, i: nat, j: nat) returns (k: nat)
    requires LawfulLog(log) && i < j < |log| && log[j].Called?
    requires log[i] == Deregistered(log[j].fd)
    ensures i < k < j && log[k] == Registered(log[j].fd, log[j].handler)
  {
    assert Lawful(log[..j], log[j]);
    k := CurrentSince(log[..j], i, log[j].fd);
  }

  lemma {:induction false} CurrentSince<T>(log: Log<T>, i: nat, fd: int) returns (k: nat)
    requires i < |log| && log[i] == Deregistered(fd) && Current(log, fd).Some?
    ensures i < k < |log| && log[k] == Registered(fd, Current(log, fd).value)
  {
    var n := |log| - 1;
    if log[n].Registered? && log[n].fd == fd {
      k := n;
    } else {
      k := CurrentSince(log[..n], i, fd);
    }
  }

  // ---------------------------------------------------------------- one pass

  // The events logged since s.
  function Since<T>(s: Loop<T>, r: Loop<T>): Log<T> {
    if |s.log| <= |r.log| then r.log[|s.log|..] else []
  }

  function CallsTo<T>(log: Log<T>, fd: int): nat {
    if log == [] then 0
    else CallsTo(log[..|log| - 1], fd) + if log[|log| - 1].Called? && log[|log| - 1].fd == fd then 1 else 0
  }

  lemma {:induction false} CallsToSplit<T>(a: Log<T>, b: Log<T>, fd: int)
    ensures CallsTo(a + b, fd) == CallsTo(a, fd) + CallsTo(b, fd)
  {
    if b == [] {
      assert a + b == a;
    } else {
      assert (a + b)[..|a + b| - 1] == a + b[..|b| - 1];
      CallsToSplit(a, b[..|b| - 1], fd);
    }
  }

  lemma SinceSplit<T>(s: Loop<T>, m: Loop<T>, r: Loop<T>, fd: int)
    requires s.log <= m.log <= r.log
    ensures s.log <= r.log && Since(s, r) == Since(s, m) + Since(m, r)
    ensures CallsTo(Since(s, r), fd) == CallsTo(Since(s, m), fd) + CallsTo(Since(m, r), fd)
  {
    CallsToSplit(Since(s, m), Since(m, r), fd);
  }

  lemma PerformLogs<T>(s: Loop<T>, op: Op<T>, fd: int)
    ensures s.log <= Perform(s, op).log
    ensures CallsTo(Since(s, Perform(s, op)), fd) == 0
    ensures op.Deregister? && op.fd == fd >= 0 ==> Deregistered(fd) in Since(s, Perform(s, op))
  {
  }

  // The operations of one callback only add to the log, and add no call.
  lemma {:induction false} PerformAllLogs<T>(s: Loop<T>, ops: seq<Op<T>>, fd: int)
    ensures s.log <= PerformAll(s, ops).log
    ensures CallsTo(Since(s, PerformAll(s, ops)), fd) == 0
    decreases |ops|
  {
    hide Perform, CallsTo, Since;
    if ops == [] {
      NothingSince(s, fd);
    } else {
      var m := Perform(s, ops[0]);
      PerformLogs(s, ops[0], fd);
      PerformAllLogs(m, ops[1..], fd);
      SinceSplit(s, m, PerformAll(m, ops[1..]), fd);
    }
  }

  lemma NothingSince<T>(s: Loop<T>, fd: int)
    ensures Since(s, s) == [] && CallsTo(Since(s, s), fd) == 0
  {
  }

  // A registered descriptor keeps its slot until it is deregistered.
  lemma SlotStays<T>(s: Loop<T>, op: Op<T>, k: nat, fd: int)
    requires Inv(s) && k < FD_SETSIZE && fd >= 0 && s.table.cb[k].fd == fd
    requires op != Deregister(fd)
    ensures Perform(s, op).table.cb[k].fd == fd
  {
    hide Find, MaxFd;
    var c := s.table.cb[k].callback;
    assert At(s.table.cb, k, fd, c);
    if op.Register? && op.fd == fd {
      RegisterAgrees(s.table, fd, op.handler);
    } else if op.Register? {
      OthersStay(s.table, op.fd, op.handler, k, fd, c);
    } else if op.Deregister? {
      OthersStay(s.table, op.fd, Null, k, fd, c);
    }
  }

  lemma {:induction false} PerformAllStays<T>(s: Loop<T>, ops: seq<Op<T>>, k: nat, fd: int)
    requires Inv(s) && k < FD_SETSIZE && fd >= 0 && s.table.cb[k].fd == fd
    requires Deregistered(fd) !in Since(s, PerformAll(s, ops))
    ensures PerformAll(s, ops).table.cb[k].fd == fd
    decreases |ops|
  {
    hide Inv, Perform, CallsTo, Since;
    if ops != [] {
      var m := Perform(s, ops[0]);
      PerformLogs(s, ops[0], fd);
      PerformAllLogs(m, ops[1..], fd);
      SinceSplit(s, m, PerformAll(m, ops[1..]), fd);
      PerformKeeps(s, ops[0]);
      SlotStays(s, ops[0], k, fd);
      PerformAllStays(m, ops[1..], k, fd);
    }
  }

  lemma {:induction false} DispatchLogs<T>(s: Loop<T>, ready: set<int>, script: nat -> seq<Op<T>>, i: nat, fd: int)
    requires i <= FD_SETSIZE
    ensures s.log <= Dispatch(s, ready, script, i).log
    ensures fd !in ready ==> CallsTo(Since(s, Dispatch(s, ready, script, i)), fd) == 0
    decreases FD_SETSIZE - i
  {
    hide CallSlot, CallsTo, Since;
    if i == FD_SETSIZE {
      NothingSince(s, fd);
    } else {
      var m := if Due(s, ready, i) then CallSlot(s, i, script(i)) else s;
      DispatchLogs(m, ready, script, i + 1, fd);
      if Due(s, ready, i) {
        SlotLogs(s, i, script(i), fd);
        SinceSplit(s, m, Dispatch(m, ready, script, i + 1), fd);
      }
    }
  }

  lemma SlotLogs<T>(s: Loop<T>, i: nat, ops: seq<Op<T>>, fd: int)
    requires i < FD_SETSIZE
    ensures s.log <= CallSlot(s, i, ops).log
    ensures CallsTo(Since(s, CallSlot(s, i, ops)), fd) == if s.table.cb[i].fd == fd then 1 else 0
  {
    var c := Call(s, i);
    PerformAllLogs(c, ops, fd);
    SinceSplit(s, c, CallSlot(s, i, ops), fd);
    assert Since(s, c) == [c.log[|s.log|]] && CallsTo(Since(s, c)[..0], fd) == 0;
  }

  // In one pass a ready descriptor that is not deregistered is called exactly once,
  // whatever the callbacks do, and one that is not ready is not called.
  lemma {:induction false} CalledOncePerPass<T>(s: Loop<T>, ready: set<int>, script: nat -> seq<Op<T>>,
      i: nat, k: nat, fd: int)
    requires Inv(s) && i <= FD_SETSIZE && k < FD_SETSIZE && fd >= 0 && s.table.cb[k].fd == fd
    requires Deregistered(fd) !in Since(s, Dispatch(s, ready, script, i))
    ensures CallsTo(Since(s, Dispatch(s, ready, script, i)), fd) == if fd in ready && i <= k then 1 else 0
    decreases FD_SETSIZE - i
  {
    hide Inv, CallSlot, CallsTo, Since;
    DispatchLogs(s, ready, script, i, fd);
    if i == FD_SETSIZE {
      NothingSince(s, fd);
    } else if fd in ready {
      var due := Due(s, ready, i);
      var m := if due then CallSlot(s, i, script(i)) else s;
      DispatchLogs(m, ready, script, i + 1, fd);
      if due {
        SlotLogs(s, i, script(i), fd);
        SinceSplit(s, m, Dispatch(m, ready, script, i + 1), fd);
        SlotStaysInCall(s, i, script(i), k, fd);
      }
      OneSlot(s, i, k);
      CalledOncePerPass(m, ready, script, i + 1, k, fd);
    }
  }

  lemma SlotStaysInCall<T>(s: Loop<T>, i: nat, ops: seq<Op<T>>, k: nat, fd: int)
    requires Inv(s) && i < FD_SETSIZE && s.table.cb[i].fd >= 0
    requires k < FD_SETSIZE && fd >= 0 && s.table.cb[k].fd == fd
    requires Deregistered(fd) !in Since(s, CallSlot(s, i, ops))
    ensures Inv(CallSlot(s, i, ops)) && CallSlot(s, i, ops).table.cb[k].fd == fd
  {
    hide Inv, CallsTo, Since;
    var c := Call(s, i);
    CallKeeps(s, i);
    PerformAllKeeps(c, ops);
    PerformAllLogs(c, ops, fd);
    SinceSplit(s, c, CallSlot(s, i, ops), fd);
    PerformAllStays(c, ops, k, fd);
  }

  lemma OneSlot<T>(s: Loop<T>, i: nat, k: nat)
    requires Inv(s) && i < FD_SETSIZE && k < FD_SETSIZE && s.table.cb[k].fd >= 0
    ensures s.table.cb[i].fd == s.table.cb[k].fd ==> i == k
  {
  }


  // ---------------------------------------------------------------- one call of handle_event

  // The loop when the callback of the first timer is called.
  function Expired<T(==)>(s: Loop<T>, at: Instant): Loop<T>
    requires s.queue != []
  {
    s.(queue := s.queue[1..], clock := at, log := s.log + [Fired(s.queue[0].timer, s.queue[0].stop, at)])
  }

  // The exact instant of a firing: at once for a timer that is overdue, whatever select
  // would have reported, and otherwise at its stop time, if select comes back no later.
  lemma FiresExactly<T>(s: Loop<T>, e: Input<T>) returns (at: Instant)
    requires s.queue != []
    requires s.queue[0].stop.Micros() < s.clock.Micros() + e.wait || e.wake.TimedOut?
    ensures at.Micros() ==
      if s.queue[0].stop.Micros() < s.clock.Micros() + e.wait then s.clock.Micros() + e.wait
      else s.queue[0].stop.Micros() + e.wake.late
    ensures HandleEvent(s, e) == PerformAll(Expired(s, at), e.script(0))
  {
    hide PerformAll, Timeval.Micros;
    at := Decide(s, e.wait, e.wake).at;
  }

  // With no timer there is nothing to wait for but descriptors.
  lemma SleepsExactly<T>(s: Loop<T>, e: Input<T>) returns (at: Instant)
    requires s.queue == [] && e.wake.TimedOut?
    ensures at.Micros() == s.clock.Micros() + e.wait && HandleEvent(s, e) == s.(clock := at)
  {
    at := Later(s.clock, e.wait);
  }

  // The pass comes when select returns, over exactly the registered descriptors that are ready.
  lemma PassesExactly<T>(s: Loop<T>, e: Input<T>) returns (at: Instant, ready: set<int>)
    requires Agree(s.table) && e.wake.Ready?
    requires s.queue != [] ==> s.queue[0].stop.Micros() >= s.clock.Micros() + e.wait
    ensures at.Micros() == s.clock.Micros() + e.wait + e.wake.wait
    ensures forall fd :: fd in ready <==> fd in e.wake.fds && FdTable.Holds(s.table.cb, fd)
    ensures HandleEvent(s, e) == Dispatch(s.(clock := at), ready, e.script, 0)
  {
    hide Dispatch, Agree, FdTable.Holds, Timeval.Micros;
    NoneOverlooked(s.table);
    at := Later(Later(s.clock, e.wait), e.wake.wait);
    ready := e.wake.fds * Asked(s.table);
  }

  // End to end: unless a timer is overdue, one call of handle_event calls a registered
  // descriptor exactly once if it is ready and not at all if it is not, as long as no
  // callback deregisters it meanwhile.
  lemma ReadyIsServed<T>(s: Loop<T>, e: Input<T>, fd: int)
    requires Inv(s) && e.wake.Ready? && FdTable.Holds(s.table.cb, fd)
    requires s.queue != [] ==> s.queue[0].stop.Micros() >= s.clock.Micros() + e.wait
    requires Deregistered(fd) !in Since(s, HandleEvent(s, e))
    ensures CallsTo(Since(s, HandleEvent(s, e)), fd) == if fd in e.wake.fds then 1 else 0
  {
    hide HandleEvent, Dispatch, CallsTo, TimersOk, LawfulLog, TableTracksLog, Timeval.Micros;
    var at, ready := PassesExactly(s, e);
    AdvanceKeeps(s, at);
    var k :| 0 <= k < FD_SETSIZE && s.table.cb[k].fd == fd;
    CalledOncePerPass(s.(clock := at), ready, e.script, 0, k, fd);
  }

  // ---------------------------------------------------------------- the loop on the heap

  // The queue of named timers and the queue of the timers on the heap.
  ghost predicate Bound<T>(q: Queue<T>, named: map<T, Timer>, h: Queue<Timer>) {
    && |q| == |h|
    && (forall i :: 0 <= i < |q| ==> q[i].timer in named && h[i] == Entry(named[q[i].timer], q[i].stop))
    && (forall x, y :: x in named && y in named && named[x] == named[y] ==> x == y)
  }

  lemma BoundStarted<T>(q: Queue<T>, named: map<T, Timer>, h: Queue<Timer>, t: T)
    requires Bound(q, named, h) && t in named
    ensures TimerQueue.Started(q, t) <==> TimerQueue.Started(h, named[t])
  {
    if TimerQueue.Started(q, t) {
      var i :| 0 <= i < |q| && q[i].timer == t;
      assert h[i].timer == named[t];
    }
    if TimerQueue.Started(h, named[t]) {
      var i :| 0 <= i < |h| && h[i].timer == named[t];
      assert q[i].timer == t;
    }
  }

  lemma BoundStart<T>(q: Queue<T>, named: map<T, Timer>, h: Queue<Timer>, t: T, timeout: uint32, now: Instant)
    requires Bound(q, named, h) && t in named
    ensures Bound(StartSpec(q, t, timeout, now), named, StartSpec(h, named[t], timeout, now))
  {
    hide TimerQueue.Started, Place, Timeval.Micros;
    BoundStarted(q, named, h, t);
    var stop := StopTime(now, timeout);
    PlaceUnique(h, stop, Place(q, stop));
  }

  lemma {:induction false} BoundRemove<T>(q: Queue<T>, named: map<T, Timer>, h: Queue<Timer>, t: T)
    requires Bound(q, named, h) && t in named
    ensures Bound(Remove(q, t), named, Remove(h, named[t]))
  {
    if q != [] {
      BoundRemove(q[1..], named, h[1..], t);
    }
  }

  lemma BoundDelete<T>(q: Queue<T>, named: map<T, Timer>, h: Queue<Timer>, t: T)
    requires Bound(q, named, h) && t in named && !TimerQueue.Started(q, t)
    ensures Bound(q, named - {t}, h) && (named - {t}).Values == named.Values - {named[t]}
  {
    var m := named - {t};
    forall v | v in named.Values && v != named[t] ensures v in m.Values {
      var x :| x in named && named[x] == v;
      assert m[x] == v;
    }
  }

  lemma CreateValues<T>(named: map<T, Timer>, t: T, timer: Timer)
    requires t !in named
    ensures named[t := timer].Values == named.Values + {timer}
  {
    var m := named[t := timer];
    assert m[t] == timer;
    forall v | v in named.Values ensures v in m.Values {
      var x :| x in named && named[x] == v;
      assert m[x] == v;
    }
  }

  class Dispatcher<T(==)> {
    const timers: TimerList
    const fds: Registry
    var named: map<T, Timer>  // the pointers the client holds
    var clock: Instant        // what gettimeofday would return now
    ghost var queue: Queue<T>
    ghost var log: Log<T>

    ghost predicate Valid()
      reads this, timers, timers.all, fds
    {
      && timers.Valid() && fds.Sized() && clock.Micros() > 0
      && Bound(queue, named, timers.queue)
      && timers.all == named.Values
    }

    ghost function View(): Loop<T>
      requires fds.Sized()
      reads this, fds, fds.cb
    {
      Loop(named.Keys, queue, fds.View(), clock, log)
    }

    constructor (clock: Instant)
      requires clock.Micros() > 0
      ensures Valid() && View() == Boot(clock)
    {
      timers := new TimerList();
      fds := new Registry();
      this.clock := clock;
      named := map[];
      queue := [];
      log := [];
    }

    // create_timer
    method Create(t: T)
      requires Valid() && t !in named
      modifies this`named, timers
      ensures Valid() && named.Keys == old(named.Keys) + {t} && fresh(timers.all - old(timers.all))
    {
      hide TimerList.Valid;
      timers.QueueKnown();
      var timer := timers.CreateTimer();
      CreateValues(named, t, timer);
      named := named[t := timer];
    }

    // delete_timer
    method Delete(t: T)
      requires Valid() && t in named && !TimerQueue.Started(queue, t)
      modifies this`named, timers
      ensures Valid() && named.Keys == old(named.Keys) - {t} && timers.all <= old(timers.all)
    {
      hide TimerList.Valid, TimerQueue.Started;
      BoundStarted(queue, named, timers.queue, t);
      BoundDelete(queue, named, timers.queue, t);
      timers.DeleteTimer(named[t]);
      named := named - {t};
    }

    // start_timer
    method Start(t: T, timeout: uint32, wait: nat)
      requires Valid() && t in named
      modifies this`clock, this`queue, this`log, timers, timers.all
      ensures Valid() && View() == Perform(old(View()), Op.Start(t, timeout, wait)) && timers.all == old(timers.all)
    {
      hide TimerList.Valid, TimerQueue.Started, StartSpec;
      clock := Later(clock, wait);
      BoundStart(queue, named, timers.queue, t, timeout, clock);
      log := if TimerQueue.Started(queue, t) then log else log + [Started(t, clock, timeout)];
      queue := StartSpec(queue, t, timeout, clock);
      timers.StartTimer(named[t], timeout, clock);
    }

    // stop_timer
    method Stop(t: T)
      requires Valid() && t in named
      modifies this`queue, timers, timers.all
      ensures Valid() && queue == Remove(old(queue), t) && timers.all == old(timers.all)
    {
      hide TimerList.Valid, Remove;
      BoundRemove(queue, named, timers.queue, t);
      queue := Remove(queue, t);
      timers.StopTimer(named[t]);
    }

    // One call into the library by a callback.
    method Do(op: Op<T>)
      requires Valid() && Allowed(View(), op)
      modifies this, timers, timers.all, fds, fds.cb
      ensures Valid() && View() == Perform(old(View()), op) && fresh(timers.all - old(timers.all))
    {
      hide TimerList.Valid, Bound;
      match op {
        case Create(t) => Create(t);
        case Delete(t) => Delete(t);
        case Start(t, timeout, wait) => Start(t, timeout, wait);
        case Stop(t) =>
          log := log + [Stopped(t)];
          Stop(t);
        case Register(fd, handler) =>
          log := if fd < 0 || handler.Null? then log else log + [Registered(fd, handler)];
          if fd == 0 {
            fds.RegisterStdin(handler);
          } else {
            fds.RegisterFd(fd, handler);
          }
        case Deregister(fd) =>
          log := if fd < 0 then log else log + [Deregistered(fd)];
          if fd == 0 {
            fds.DeregisterStdin();
          } else {
            fds.DeregisterFd(fd);
          }
      }
    }

    method DoAll(ops: seq<Op<T>>)
      requires Valid() && AllAllowed(View(), ops)
      modifies this, timers, timers.all, fds, fds.cb
      ensures Valid() && View() == PerformAll(old(View()), ops) && fresh(timers.all - old(timers.all))
    {
      hide TimerList.Valid, Bound, Allowed, Perform;
      var rest := ops;
      while rest != []
        invariant Valid() && AllAllowed(View(), rest)
        invariant PerformAll(View(), rest) == PerformAll(old(View()), ops)
        invariant fresh(timers.all - old(timers.all))
        decreases |rest|
      {
        Do(rest[0]);
        rest := rest[1..];
      }
    }

    // stop_timer on the first timer and its callback.
    method FireHead(timer: T, at: Instant, ops: seq<Op<T>>)
      requires Valid() && queue != [] && timer == queue[0].timer
      requires clock.Micros() <= at.Micros() && AllAllowed(Expire(View(), at), ops)
      modifies this, timers, timers.all, fds, fds.cb
      ensures Valid() && View() == Fire(old(View()), at, ops) && fresh(timers.all - old(timers.all))
    {
      hide TimerList.Valid, Remove, PerformAll, AllAllowed;
      clock := at;
      log := log + [Fired(timer, queue[0].stop, at)];
      Stop(timer);
      DoAll(ops);
    }

    // The loop over the callback table.
    method Pass(ready: set<int>, script: nat -> seq<Op<T>>)
      requires Valid() && PassAllowed(View(), ready, script, 0)
      modifies this, timers, timers.all, fds, fds.cb
      ensures Valid() && View() == Dispatch(old(View()), ready, script, 0) && fresh(timers.all - old(timers.all))
    {
      hide TimerList.Valid, Bound, AllAllowed, PerformAll;
      var i := 0;
      while i < FD_SETSIZE
        invariant Valid() && 0 <= i <= FD_SETSIZE && PassAllowed(View(), ready, script, i)
        invariant Dispatch(View(), ready, script, i) == Dispatch(old(View()), ready, script, 0)
        invariant fresh(timers.all - old(timers.all))
      {
        if fds.cb[i].fd >= 0 && fds.cb[i].fd in ready {
          log := log + [Called(fds.cb[i].fd, fds.cb[i].callback)];
          DoAll(script(i));
        }
        i := i + 1;
      }
    }

    // The first timer, by the name the client knows it by, and when it stops.
    method First() returns (first: Option<Entry<T>>)
      requires Valid()
      ensures first == if queue == [] then None else Some(queue[0])
    {
      timers.HeadListed();
      if timers.head == null {
        return None;
      }
      var t :| t in named && named[t] == timers.head;
      return Some(Entry(t, timers.head.stopTime));
    }

    // handle_event
    method Handle(e: Input<T>)
      requires Valid() && InputAllowed(View(), e)
      modifies this, timers, timers.all, fds, fds.cb
      ensures Valid() && View() == HandleEvent(old(View()), e) && fresh(timers.all - old(timers.all))
    {
      hide TimerList.Valid, Bound, AllAllowed, PerformAll, Dispatch, PassAllowed, Expire;
      var now := Later(clock, e.wait);
      var first := First();
      if first.Some? && Before(first.value.stop, now) {
        FireHead(first.value.timer, now, e.script(0));
        return;
      }
      match e.wake {
        case TimedOut(late) =>
          if first.None? {
            clock := now;
          } else {
            FireHead(first.value.timer, Later(now, SelectTimeout(first.value.stop, now).Micros() + late), e.script(0));
          }
        case Ready(asked, after) =>
          clock := Later(now, after);
          Pass(asked * (set fd | fd in fds.readFds && fd < fds.maxfd + 1), e.script);
      }
    }
  }
}
