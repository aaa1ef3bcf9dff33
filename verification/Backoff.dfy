// Retransmission backoff as a log of the event loop shows it: how a timer that is started
// with the doubling timeouts of client/src/client.c spaces its firings.

module Backoff {
  import opened Words
  import opened Time
  import opened EventLoop
  import opened Peer

  // The instants at which t was started.
  function Starts<T(==)>(log: Log<T>, t: T): seq<Instant> {
    if log == [] then []
    else
      var e := log[|log| - 1];
      Starts(log[..|log| - 1], t) + if e.Started? && e.timer == t then [e.at] else []
  }

  // How often t has fired.
  function Firings<T(==)>(log: Log<T>, t: T): nat {
    if log == [] then 0
    else
      var e := log[|log| - 1];
      Firings(log[..|log| - 1], t) + if e.Fired? && e.timer == t then 1 else 0
  }

  predicate WasStopped<T(==)>(log: Log<T>, t: T) {
    Stopped(t) in log
  }

  // The timer's start number k, counted from 0, is for Timeout(k), and there is none after
  // it was stopped.
  ghost predicate BacksOff<T>(log: Log<T>, t: T) {
    forall i :: 0 <= i < |log| && log[i].Started? && log[i].timer == t ==>
      log[i].timeout == Timeout(|Starts(log[..i], t)|) && !WasStopped(log[..i], t)
  }

  lemma OneMore<T>(log: Log<T>, e: Event<T>, t: T)
    ensures Starts(log + [e], t) == Starts(log, t) + if e.Started? && e.timer == t then [e.at] else []
    ensures Firings(log + [e], t) == Firings(log, t) + if e.Fired? && e.timer == t then 1 else 0
    ensures WasStopped(log + [e], t) <==> WasStopped(log, t) || e == Stopped(t)
    ensures BacksOff(log + [e], t) <==>
      BacksOff(log, t)
      && (e.Started? && e.timer == t ==> e.timeout == Timeout(|Starts(log, t)|) && !WasStopped(log, t))
  {
    assert (log + [e])[..|log + [e]| - 1] == log;
    BacksOffMore(log, e, t);
  }

  lemma BacksOffMore<T>(log: Log<T>, e: Event<T>, t: T)
    ensures BacksOff(log + [e], t) <==>
      BacksOff(log, t)
      && (e.Started? && e.timer == t ==> e.timeout == Timeout(|Starts(log, t)|) && !WasStopped(log, t))
  {
    hide Starts, WasStopped, Timeout;
    var r := log + [e];
    assert r[..|log|] == log && r[|log|] == e;
    assert forall i {:trigger log[i]} {:trigger r[i]} :: 0 <= i < |log| ==> r[i] == log[i] && r[..i] == log[..i];
  }

  lemma BacksOffBefore<T>(log: Log<T>, t: T, j: nat)
    requires BacksOff(log, t) && LawfulLog(log) && j <= |log|
    ensures BacksOff(log[..j], t) && LawfulLog(log[..j])
  {
    hide Lawful;
    assert forall i :: 0 <= i < j ==> log[..j][i] == log[i] && log[..j][..i] == log[..i];
  }

  lemma {:induction false} StartsGrow<T>(log: Log<T>, t: T, j: nat)
    requires j <= |log|
    ensures Starts(log[..j], t) <= Starts(log, t)
  {
    if j < |log| {
      StartsGrow(log[..|log| - 1], t, j);
      assert log[..|log| - 1][..j] == log[..j];
    } else {
      assert log[..j] == log;
    }
  }

  // The last timeout of t has run out by now.
  ghost predicate RanOut<T>(log: Log<T>, t: T) {
    var at := Starts(log, t);
    at != [] ==>
      Seen(log).Some? && Seen(log).value.Micros() >= at[|at| - 1].Micros() + 1000 * Timeout(|at| - 1)
  }

  // Starts and firings alternate, and each start is at least its predecessor's timeout
  // after it.
  ghost predicate Spaced<T>(log: Log<T>, t: T) {
    var at := Starts(log, t);
    && (forall i :: 0 <= i < |at| - 1 ==> at[i + 1].Micros() >= at[i].Micros() + 1000 * Timeout(i))
    && (Pending(log, t).Some? ==>
          && |at| == Firings(log, t) + 1 && !WasStopped(log, t)
          && Pending(log, t).value.Micros() == at[|at| - 1].Micros() + 1000 * Timeout(|at| - 1))
    && (Pending(log, t).None? && !WasStopped(log, t) ==> |at| == Firings(log, t) && RanOut(log, t))
  }

  lemma {:induction false} LogIsSpaced<T>(log: Log<T>, t: T)
    requires LawfulLog(log) && BacksOff(log, t)
    ensures Spaced(log, t)
  {
    if log != [] {
      var before, e := log[..|log| - 1], log[|log| - 1];
      assert log == before + [e];
      BacksOffBefore(log, t, |before|);
      LogIsSpaced(before, t);
      OneMore(before, e, t);
      assert Lawful(before, e);
      SpacedStep(before, e, t);
    }
  }

  lemma SpacedStep<T>(log: Log<T>, e: Event<T>, t: T)
    requires Spaced(log, t) && Lawful(log, e)
    requires e.Started? && e.timer == t ==> e.timeout == Timeout(|Starts(log, t)|) && !WasStopped(log, t)
    ensures Spaced(log + [e], t)
  {
    hide Starts, Firings, WasStopped, BacksOff, Pending, Seen, LastFired, Current, Timeout, Timeval.Micros;
    OneMore(log, e, t);
    Append(log, e);
    if e.Started? && e.timer == t {
      assert Spaced(log + [e], t);
    } else {
      assert Starts(log + [e], t) == Starts(log, t);
    }
  }

  // In a lawful log the k-th firing of a timer that backs off comes, for k up to 23, at
  // least 1000 * (2^k - 1) milliseconds after the timer was first started.
  lemma FiringsBackOff<T>(log: Log<T>, t: T, j: nat, k: nat)
    requires LawfulLog(log) && BacksOff(log, t)
    requires j < |log| && log[j].Fired? && log[j].timer == t
    requires k == Firings(log[..j], t) + 1 <= 23
    ensures |Starts(log, t)| >= k
    ensures log[j].at.Micros() >= Starts(log, t)[0].Micros() + 1000 * 1000 * (Pow2(k) - 1)
  {
    hide Starts, Firings, WasStopped, BacksOff, Pending, Seen, LastFired, Current, Timeout, Pow2, Timeval.Micros;
    BacksOffBefore(log, t, j);
    LogIsSpaced(log[..j], t);
    assert Lawful(log[..j], log[j]);
    StartsGrow(log, t, j);
    var at := Starts(log[..j], t);
    var instants := seq(k + 1, i requires 0 <= i <= k => if i < k then at[i].Micros() else log[j].at.Micros());
    BackoffLowerBound(instants, k);
  }
}
