// The timers of client/lib/cblib.c: timeval arithmetic and the intrusive doubly
// linked list sorted by stop time.

module Time {
  import opened Words

  const USEC := 1000000

  datatype Timeval = Timeval(sec: int, usec: int) {
    predicate Normal() {
      0 <= usec < USEC
    }

    // The instant in microseconds.
    function Micros(): int {
      sec * USEC + usec
    }
  }

  // What gettimeofday and the timer fields hold: microseconds below one second.
  type Instant = t: Timeval | t.Normal() witness Timeval(0, 0)

  const ZERO: Instant := Timeval(0, 0)

  // The instant `us` microseconds after t.
  function Later(t: Instant, us: nat): (u: Instant)
    ensures u.Micros() == t.Micros() + us
  {
    Timeval(t.sec + (t.usec + us) / USEC, (t.usec + us) % USEC)
  }

  // timeval_before, for non-null arguments.
  function Before(a: Instant, b: Instant): (r: bool)
    ensures r <==> a.Micros() < b.Micros()
  {
    a.sec < b.sec || (a.sec == b.sec && a.usec < b.usec)
  }

  // The stop time start_timer computes: one carry is enough, for every timeout.
  function StopTime(now: Instant, timeout: uint32): (stop: Instant)
    ensures stop.Micros() == now.Micros() + 1000 * timeout
  {
    var sec, usec := now.sec + timeout / 1000, now.usec + 1000 * (timeout % 1000);
    if usec >= USEC then Timeval(sec + 1, usec - USEC) else Timeval(sec, usec)
  }

  // The timeout handle_event hands to select: one borrow is enough.
  function SelectTimeout(stop: Instant, now: Instant): (t: Instant)
    requires !Before(stop, now)
    ensures t.sec >= 0 && t.Micros() == stop.Micros() - now.Micros()
  {
    if stop.usec - now.usec < 0 then Timeval(stop.sec - now.sec - 1, stop.usec - now.usec + USEC)
    else Timeval(stop.sec - now.sec, stop.usec - now.usec)
  }
}

module TimerQueue {
  import opened Words
  import opened Time

  // A started timer and the instant it stops.
  datatype Entry<T> = Entry(timer: T, stop: Instant)

  type Queue<T> = seq<Entry<T>>

  predicate Started<T(==)>(q: Queue<T>, t: T) {
    exists i :: 0 <= i < |q| && q[i].timer == t
  }

  ghost predicate Distinct<T>(q: Queue<T>) {
    forall i, j :: 0 <= i < j < |q| ==> q[i].timer != q[j].timer
  }

  ghost predicate Sorted<T>(q: Queue<T>) {
    forall i, j :: 0 <= i < j < |q| ==> q[i].stop.Micros() <= q[j].stop.Micros()
  }

  // Where a timer that stops at `stop` is linked in: behind every timer that does not
  // stop later, so equal deadlines keep the order in which they were started.
  function Place<T>(q: Queue<T>, stop: Instant): (k: nat)
    ensures k <= |q|
    ensures forall i :: 0 <= i < k ==> q[i].stop.Micros() <= stop.Micros()
    ensures k < |q| ==> stop.Micros() < q[k].stop.Micros()
  {
    if q == [] || Before(stop, q[0].stop) then 0 else 1 + Place(q[1..], stop)
  }

  function Insert<T>(q: Queue<T>, e: Entry<T>): Queue<T>
  {
    var k := Place(q, e.stop);
    q[..k] + [e] + q[k..]
  }

  function Remove<T(==)>(q: Queue<T>, t: T): Queue<T> {
    if q == [] then [] else if q[0].timer == t then q[1..] else [q[0]] + Remove(q[1..], t)
  }

  lemma {:induction false} RemoveAt<T>(q: Queue<T>, t: T, k: nat)
    requires k < |q| && q[k].timer == t && Distinct(q)
    ensures Remove(q, t) == q[..k] + q[k + 1..]
  {
    hide Distinct;
    if k > 0 {
      DistinctTail(q, k);
      RemoveAt(q[1..], t, k - 1);
      DropAt(q, k);
    }
  }

  lemma DistinctTail<T>(q: Queue<T>, k: nat)
    requires Distinct(q) && 0 < k < |q|
    ensures q[0].timer != q[k].timer && q[1..][k - 1] == q[k] && Distinct(q[1..])
  {
  }

  lemma DropAt<T>(q: Queue<T>, k: nat)
    requires 0 < k < |q|
    ensures [q[0]] + (q[1..][..k - 1] + q[1..][k..]) == q[..k] + q[k + 1..]
  {
    assert q[1..][..k - 1] == q[1..k];
    assert q[1..][k..] == q[k + 1..];
  }

  lemma {:induction false} RemoveAbsent<T>(q: Queue<T>, t: T)
    requires !Started(q, t)
    ensures Remove(q, t) == q
  {
    if q != [] {
      assert q[0].timer != t;
      assert forall i :: 0 <= i < |q| - 1 ==> q[1..][i] == q[i + 1];
      RemoveAbsent(q[1..], t);
    }
  }

  // Any place that splits the queue by deadline is the place insertion uses.
  lemma {:induction false} PlaceUnique<T>(q: Queue<T>, stop: Instant, k: nat)
    requires k <= |q|
    requires forall i :: 0 <= i < k ==> !Before(stop, q[i].stop)
    requires k < |q| ==> Before(stop, q[k].stop)
    ensures Place(q, stop) == k
  {
    if k > 0 {
      PlaceUnique(q[1..], stop, k - 1);
    }
  }

  // Insertion keeps a queue sorted and duplicate free, and adds exactly the new timer.
  lemma InsertKeeps<T>(q: Queue<T>, e: Entry<T>)
    requires Sorted(q) && Distinct(q) && !Started(q, e.timer)
    ensures Sorted(Insert(q, e)) && Distinct(Insert(q, e))
    ensures forall x :: x in Insert(q, e) <==> x in q || x == e
  {
    hide Place, Timeval.Micros;
    var k := Place(q, e.stop);
    InsertSorted(q, e, k);
    InsertDistinct(q, e, k);
  }

  lemma InsertSorted<T>(q: Queue<T>, e: Entry<T>, k: nat)
    requires Sorted(q) && k <= |q|
    requires forall i :: 0 <= i < k ==> q[i].stop.Micros() <= e.stop.Micros()
    requires k < |q| ==> e.stop.Micros() < q[k].stop.Micros()
    ensures Sorted(q[..k] + [e] + q[k..])
  {
    hide Timeval.Micros;
    var r := q[..k] + [e] + q[k..];
    assert forall i :: k <= i < |q| ==> q[k].stop.Micros() <= q[i].stop.Micros();
    forall i, j | 0 <= i < j < |r| ensures r[i].stop.Micros() <= r[j].stop.Micros() {
      assert r[i] == (if i < k then q[i] else if i == k then e else q[i - 1]);
      assert r[j] == (if j < k then q[j] else if j == k then e else q[j - 1]);
    }
  }

  lemma InsertDistinct<T>(q: Queue<T>, e: Entry<T>, k: nat)
    requires Distinct(q) && !Started(q, e.timer) && k <= |q|
    ensures Distinct(q[..k] + [e] + q[k..])
  {
  }

  // Removal keeps a queue sorted and duplicate free, and drops exactly that timer.
  lemma RemoveKeeps<T>(q: Queue<T>, t: T)
    requires Sorted(q) && Distinct(q)
    ensures Sorted(Remove(q, t)) && Distinct(Remove(q, t))
    ensures forall x :: x in Remove(q, t) <==> x in q && x.timer != t
  {
    hide Remove, Timeval.Micros;
    if Started(q, t) {
      var k :| 0 <= k < |q| && q[k].timer == t;
      RemoveAt(q, t, k);
      assert forall i :: 0 <= i < |q| && i != k ==> q[i].timer != t;
    } else {
      RemoveAbsent(q, t);
    }
  }

  // A timer that is not yet started is queued by its deadline; a started one is left alone.
  function StartSpec<T(==)>(q: Queue<T>, t: T, timeout: uint32, now: Instant): Queue<T>
  {
    if Started(q, t) then q else Insert(q, Entry(t, StopTime(now, timeout)))
  }

  lemma StartedIn<T>(q: Queue<T>, t: T)
    ensures Started(q, t) <==> exists e :: e in q && e.timer == t
  {
    if Started(q, t) {
      var i :| 0 <= i < |q| && q[i].timer == t;
      assert q[i] in q;
    }
  }

  // Starting a timer starts it and no other.
  lemma StartStarts<T>(q: Queue<T>, t: T, timeout: uint32, now: Instant, u: T)
    requires Sorted(q) && Distinct(q)
    ensures Started(StartSpec(q, t, timeout, now), u) <==> Started(q, u) || u == t
  {
    StartedIn(q, u);
    StartedIn(StartSpec(q, t, timeout, now), u);
    if !Started(q, t) {
      var e := Entry(t, StopTime(now, timeout));
      InsertKeeps(q, e);
      hide Insert, Started;
      assert e in Insert(q, e);
    }
  }

  // Stopping a timer stops it and no other.
  lemma StopStops<T>(q: Queue<T>, t: T, u: T)
    requires Sorted(q) && Distinct(q)
    ensures Started(Remove(q, t), u) <==> Started(q, u) && u != t
  {
    hide Remove, Started, Timeval.Micros;
    StartedIn(q, u);
    StartedIn(Remove(q, t), u);
    RemoveKeeps(q, t);
  }

  class Timer {
    var prev: Timer?
    var next: Timer?
    var startTime: Instant
    var stopTime: Instant

    constructor ()
      ensures Idle()
    {
      prev, next := null, null;
      startTime, stopTime := ZERO, ZERO;
    }

    predicate Idle()
      reads this
    {
      next == null && prev == null && startTime == ZERO && stopTime == ZERO
    }
  }

  class TimerList {
    var head: Timer?
    ghost var list: seq<Timer>      // the linked timers in list order
    ghost var queue: Queue<Timer>   // the same with their stop times
    ghost var all: set<Timer>       // the timers created and not yet deleted

    ghost predicate Valid()
      reads this, all
    {
      && Members(list) <= all
      && Chain(list, head)
      && (forall t {:trigger t.Idle()} :: t in all && t !in Members(list) ==> t.Idle())
      && (forall t {:trigger t.startTime} :: t in Members(list) ==> t.startTime != ZERO)
      && Dated(list, queue)
      && Sorted(queue)
    }

    static ghost function Members(l: seq<Timer>): set<Timer> {
      set t | t in l
    }

    // A well-formed doubly linked list of distinct timers.
    static ghost predicate Chain(l: seq<Timer>, h: Timer?)
      reads l
    {
      && (forall i, j :: 0 <= i < j < |l| ==> l[i] != l[j])
      && (h == if l == [] then null else l[0])
      && (forall i {:trigger l[i].prev} :: 0 <= i < |l| ==> l[i].prev == if i == 0 then null else l[i - 1])
      && (forall i {:trigger l[i].next} :: 0 <= i < |l| ==> l[i].next == if i == |l| - 1 then null else l[i + 1])
    }

    // The queue pairs each linked timer with its stop time.
    static ghost predicate Dated(l: seq<Timer>, q: Queue<Timer>)
      reads l`stopTime
    {
      |q| == |l| && forall i :: 0 <= i < |l| ==> q[i] == Entry(l[i], l[i].stopTime)
    }

    static lemma DatedInsert(l: seq<Timer>, q: Queue<Timer>, t: Timer, k: nat)
      requires Dated(l, q) && k <= |l|
      ensures Dated(l[..k] + [t] + l[k..], q[..k] + [Entry(t, t.stopTime)] + q[k..])
    {
    }

    lemma LinkFacts(t: Timer, stop: Instant, k: nat)
      requires Valid() && t !in Members(list) && Place(queue, stop) == k
      ensures k <= |list| && Sorted(Insert(queue, Entry(t, stop)))
      ensures Insert(queue, Entry(t, stop)) == queue[..k] + [Entry(t, stop)] + queue[k..]
      ensures t !in list && Members(list[..k] + [t] + list[k..]) == Members(list) + {t}
    {
      StartedListed();
      InsertKeeps(queue, Entry(t, stop));
    }

    static lemma DatedRemove(l: seq<Timer>, q: Queue<Timer>, k: nat)
      requires Dated(l, q) && k < |l|
      ensures |q| == |l| && q[k].timer == l[k] && Dated(l[..k] + l[k + 1..], q[..k] + q[k + 1..])
    {
    }

    static lemma MembersRemove(l: seq<Timer>, h: Timer?, k: nat)
      requires Chain(l, h) && k < |l|
      ensures l[k] !in l[..k] + l[k + 1..] && Members(l[..k] + l[k + 1..]) == Members(l) - {l[k]}
    {
    }

    lemma DetachFacts(t: Timer, k: nat)
      requires Valid() && k < |list| && list[k] == t
      ensures Sorted(Remove(queue, t)) && Dated(list[..k] + list[k + 1..], Remove(queue, t))
      ensures t !in list[..k] + list[k + 1..]
      ensures Members(list[..k] + list[k + 1..]) == Members(list) - {t}
    {
      hide Remove, Sorted, Chain, Dated, Members;
      StartedListed();
      DatedRemove(list, queue, k);
      MembersRemove(list, head, k);
      RemoveKeeps(queue, t);
      RemoveAt(queue, t, k);
    }

    // The list holds each started timer once and no other.
    lemma StartedListed()
      requires Valid()
      ensures Distinct(queue) && Sorted(queue)
      ensures forall t :: Started(queue, t) <==> t in Members(list)
      ensures forall t :: t in all ==> (Started(queue, t) <==> !t.Idle())
    {
      assert forall i :: 0 <= i < |list| ==> queue[i].timer == list[i];
    }

    // Only timers that exist are queued.
    lemma QueueKnown()
      requires Valid()
      ensures forall i :: 0 <= i < |queue| ==> queue[i].timer in all
    {
      hide Sorted, Chain;
    }

    // What the list head tells about the queue.
    lemma HeadListed()
      requires Valid()
      ensures head == if queue == [] then null else queue[0].timer
      ensures head != null ==> head in all && head.stopTime == queue[0].stop
    {
      hide Sorted;
    }

    constructor ()
      ensures Valid() && queue == [] && all == {}
    {
      head := null;
      list := [];
      queue := [];
      all := {};
    }

    // create_timer
    method CreateTimer() returns (t: Timer)
      requires Valid()
      modifies this
      ensures Valid() && fresh(t) && all == old(all) + {t} && queue == old(queue)
    {
      t := new Timer();
      all := all + {t};
    }

    // delete_timer: the memory is given back, so the timer must not be linked.
    method DeleteTimer(t: Timer)
      requires Valid() && t in all && !Started(queue, t)
      modifies this
      ensures Valid() && all == old(all) - {t} && queue == old(queue)
    {
      StartedListed();
      all := all - {t};
    }

    // start_timer
    method StartTimer(t: Timer?, timeout: uint32, now: Instant)
      requires Valid() && (t != null ==> t in all)
      requires now != ZERO
      modifies this, all
      ensures Valid() && all == old(all)
      ensures queue == if t == null then old(queue) else StartSpec(old(queue), t, timeout, now)
    {
      if t == null {
        return;
      }
      assert Started(queue, t) <==> !t.Idle() by {
        StartedListed();
      }
      if t.next != null || t.prev != null
         || t.startTime.sec != 0 || t.startTime.usec != 0 || t.stopTime.sec != 0 || t.stopTime.usec != 0 {
        return;
      }
      hide Started;
      var stop := StopTime(now, timeout);
      if head == null {
        Link(t, null, now, stop, 0);
        return;
      }
      if Before(stop, head.stopTime) {
        PlaceUnique(queue, stop, 0);
        Link(t, null, now, stop, 0);
        return;
      }
      var timer := head;
      ghost var k := 0;
      while timer.next != null
        invariant 0 <= k < |list| && timer == list[k]
        invariant forall i :: 0 <= i <= k ==> !Before(stop, queue[i].stop)
        decreases |list| - k
      {
        if Before(stop, timer.next.stopTime) {
          break;
        }
        timer := timer.next;
        k := k + 1;
      }
      PlaceUnique(queue, stop, k + 1);
      Link(t, timer, now, stop, k + 1);
    }

    // Link t in at place k, given the timer before that place.
    method Link(t: Timer, timer: Timer?, start: Instant, stop: Instant, ghost k: nat)
      requires Valid() && t in all && t !in Members(list)
      requires start != ZERO && Place(queue, stop) == k
      requires timer == if k == 0 then null else list[k - 1]
      modifies this, all
      ensures Valid() && all == old(all) && queue == Insert(old(queue), Entry(t, stop))
    {
      LinkFacts(t, stop, k);
      ghost var q := Insert(queue, Entry(t, stop));
      hide Place, Sorted, Chain, Insert, Dated;
      Splice(t, timer, start, stop, k);
      DatedInsert(list, queue, t, k);
      Relist(list[..k] + [t] + list[k..], q);
    }

    // Record what the linked list has become.
    ghost method Relist(l: seq<Timer>, q: Queue<Timer>)
      requires Members(l) <= all && Chain(l, head) && Dated(l, q) && Sorted(q)
      requires forall t {:trigger t.Idle()} :: t in all && t !in Members(l) ==> t.Idle()
      requires forall t {:trigger t.startTime} :: t in Members(l) ==> t.startTime != ZERO
      modifies this`list, this`queue
      ensures Valid() && list == l && queue == q
    {
      hide Chain, Dated, Sorted, Members;
      list, queue := l, q;
    }

    // The writes of start_timer to the timers and the list head.
    method Splice(t: Timer, timer: Timer?, start: Instant, stop: Instant, ghost k: nat)
      requires Chain(list, head) && t !in Members(list) && k <= |list|
      requires timer == if k == 0 then null else list[k - 1]
      modifies this`head, list`prev, list`next, t
      ensures Chain(list[..k] + [t] + list[k..], head)
      ensures t.startTime == start && t.stopTime == stop
    {
      t.startTime := start;
      t.stopTime := stop;
      if timer == null {
        LinkFront(t);
        assert list[..k] + [t] + list[k..] == [t] + list;
      } else {
        LinkAfter(t, timer, k - 1);
      }
    }

    method LinkFront(t: Timer)
      requires Chain(list, head) && t !in list
      modifies this`head, list`prev, t`prev, t`next
      ensures Chain([t] + list, head)
    {
      t.next := head;
      t.prev := null;
      if head != null {
        head.prev := t;
      }
      head := t;
    }

    method LinkAfter(t: Timer, timer: Timer, ghost k: nat)
      requires Chain(list, head) && t !in list
      requires k < |list| && list[k] == timer
      modifies list`prev, list`next, t`prev, t`next
      ensures Chain(list[..k + 1] + [t] + list[k + 1..], head)
    {
      if timer.next != null {
        timer.next.prev := t;
      }
      t.next := timer.next;
      timer.next := t;
      t.prev := timer;
    }

    // stop_timer
    method StopTimer(t: Timer?)
      requires Valid() && (t != null ==> t in all)
      modifies this, all
      ensures Valid() && all == old(all)
      ensures queue == if t == null then old(queue) else Remove(old(queue), t)
      ensures t != null ==> t.Idle()
    {
      StartedListed();
      var timer := head;
      ghost var k := 0;
      while timer != null
        invariant 0 <= k <= |list|
        invariant timer == if k < |list| then list[k] else null
        invariant forall i :: 0 <= i < k ==> list[i] != t
        decreases |list| - k
      {
        if timer == t {
          break;
        }
        timer := timer.next;
        k := k + 1;
      }
      if timer != null {
        Detach(timer, k);
      } else if t != null {
        RemoveAbsent(queue, t);
        Clear(t);
      }
    }

    method Clear(t: Timer)
      modifies t
      ensures t.Idle()
    {
      t.prev := null;
      t.next := null;
      t.startTime := ZERO;
      t.stopTime := ZERO;
    }

    // Take the timer at place k out of the list and clear it.
    method Detach(t: Timer, ghost k: nat)
      requires Valid() && k < |list| && list[k] == t
      modifies this, all
      ensures Valid() && all == old(all) && queue == Remove(old(queue), t)
      ensures t.Idle()
    {
      DetachFacts(t, k);
      hide Remove, Sorted, Chain, Dated;
      Unlink(t, k);
      Clear(t);
      Relist(list[..k] + list[k + 1..], Remove(queue, t));
    }

    method Unlink(timer: Timer, ghost k: nat)
      requires Chain(list, head) && k < |list| && list[k] == timer
      modifies this`head, list`prev, list`next
      ensures Chain(list[..k] + list[k + 1..], head)
    {
      ghost var r := list[..k] + list[k + 1..];
      assert forall i {:trigger r[i]} :: 0 <= i < |r| ==> r[i] == list[if i < k then i else i + 1];
      if timer.prev != null {
        timer.prev.next := timer.next;
      }
      if timer.next != null {
        timer.next.prev := timer.prev;
      }
      if head == timer {
        head := timer.next;
      }
    }
  }
}
