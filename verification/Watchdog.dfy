/**
 The fuzzer's watchdog in integer milliseconds: one thread waits for half the timeout at a time
 and aborts the process if the last reset lies too far back; other threads reset or stop it.
 A wait may end early, and from one poll to the next no more goes by than the wait and `slack`,
 which is what the polling itself takes and the thread may be held up.
 */
module Watchdog {

  datatype Phase = Waiting | Returned | Aborted

  datatype State = State(now: nat, waitingSince: nat, lastReset: nat, running: bool, phase: Phase)

  datatype Event =
    | Pass(time: nat)   // time goes on
    | Reset
    | Stop              // the destructor clears the flag
    | Wake              // the wait ends: its time is up, it was notified, or for no reason

  const START := State(0, 0, 0, true, Waiting)

  predicate Enabled(timeout: nat, slack: nat, s: State, e: Event) {
    s.phase != Aborted &&
    match e
    case Pass(time) => s.phase == Waiting ==> s.now + time <= s.waitingSince + timeout / 2 + slack
    case Wake => s.phase == Waiting
    case Reset => true
    case Stop => true
  }

  function Apply(timeout: nat, slack: nat, s: State, e: Event): State
    requires Enabled(timeout, slack, s, e)
  {
    match e
    case Pass(time) => s.(now := s.now + time)
    case Reset => s.(lastReset := s.now)
    case Stop => s.(running := false)
    case Wake =>
      if !s.running then s.(phase := Returned)
      else if s.now - s.lastReset > timeout then s.(phase := Aborted)
      else s.(waitingSince := s.now)
  }

  predicate Legal(timeout: nat, slack: nat, s: State, events: seq<Event>)
    decreases events
  {
    events != [] ==>
      && Enabled(timeout, slack, s, events[0])
      && Legal(timeout, slack, Apply(timeout, slack, s, events[0]), events[1..])
  }

  function Run(timeout: nat, slack: nat, s: State, events: seq<Event>): State
    requires Legal(timeout, slack, s, events)
    decreases events
  {
    if events == [] then s else Run(timeout, slack, Apply(timeout, slack, s, events[0]), events[1..])
  }

  /** While it runs, every wait began within a timeout of the last reset and has not overrun by more than the slack. */
  ghost predicate Punctual(timeout: nat, slack: nat, s: State) {
    && s.lastReset <= s.now && s.waitingSince <= s.now
    && (s.running ==> s.waitingSince <= s.lastReset + timeout)
    && (s.phase == Waiting || s.phase == Aborted ==> s.now <= s.waitingSince + timeout / 2 + slack)
    && (s.phase == Aborted ==> s.running && timeout < s.now - s.lastReset)
    && (s.phase == Returned ==> !s.running)
  }

  /**
   In every run: it aborts only if running and more than a timeout after the last reset, and
   while it runs no more than a timeout and a half and the slack ever goes by without a reset or
   an abort.
   */
  lemma {:induction false} NeitherEarlyNorLate(timeout: nat, slack: nat, s: State, events: seq<Event>)
    requires Punctual(timeout, slack, s) && Legal(timeout, slack, s, events)
    ensures Punctual(timeout, slack, START)
    ensures var t := Run(timeout, slack, s, events);
            && Punctual(timeout, slack, t)
            && (t.phase == Aborted ==> t.running && timeout < t.now - t.lastReset)
            && (t.running ==> t.now - t.lastReset <= timeout + timeout / 2 + slack)
    decreases events
  {
    if events != [] {
      NeitherEarlyNorLate(timeout, slack, Apply(timeout, slack, s, events[0]), events[1..]);
    }
  }

  /** The flag once cleared stays cleared, and then no abort follows, however the waits end. */
  lemma {:induction false} StoppedNeverAborts(timeout: nat, slack: nat, s: State, events: seq<Event>)
    requires !s.running && s.phase != Aborted && Legal(timeout, slack, s, events)
    ensures var t := Run(timeout, slack, s, events); !t.running && t.phase != Aborted
    decreases events
  {
    if events != [] {
      StoppedNeverAborts(timeout, slack, Apply(timeout, slack, s, events[0]), events[1..]);
    }
  }

  // ---------------------------------------------------------------- told from the events alone

  /** How long ago the last reset was, if it was `idle` ago before these events. */
  function Idle(idle: nat, events: seq<Event>): nat
    decreases events
  {
    if events == [] then idle
    else
      match events[0]
      case Pass(time) => Idle(idle + time, events[1..])
      case Reset => Idle(0, events[1..])
      case _ => Idle(idle, events[1..])
  }

  lemma {:induction false} IdleIsMeasured(timeout: nat, slack: nat, s: State, events: seq<Event>)
    requires Punctual(timeout, slack, s) && Legal(timeout, slack, s, events)
    ensures var t := Run(timeout, slack, s, events);
            t.lastReset <= t.now && t.now - t.lastReset == Idle(s.now - s.lastReset, events)
    decreases events
  {
    if events != [] {
      NeitherEarlyNorLate(timeout, slack, s, [events[0]]);
      assert Run(timeout, slack, s, [events[0]]) == Apply(timeout, slack, s, events[0]);
      IdleIsMeasured(timeout, slack, Apply(timeout, slack, s, events[0]), events[1..]);
    }
  }

  lemma {:induction false} RunningUntilStopped(timeout: nat, slack: nat, s: State, events: seq<Event>)
    requires Legal(timeout, slack, s, events)
    ensures Run(timeout, slack, s, events).running <==> s.running && Stop !in events
    decreases events
  {
    if events != [] {
      RunningUntilStopped(timeout, slack, Apply(timeout, slack, s, events[0]), events[1..]);
      assert events == [events[0]] + events[1..];
    }
  }

  /**
   In any run of a watchdog: an abort means that it was not stopped and that more than a timeout
   has gone by since the last reset or the start; and unless it was stopped, no more than a timeout
   and a half and the slack ever goes by.
   */
  lemma AbortsAreStalls(timeout: nat, slack: nat, events: seq<Event>)
    requires Legal(timeout, slack, START, events)
    ensures var t := Run(timeout, slack, START, events);
            && (t.phase == Aborted ==> Stop !in events && timeout < Idle(0, events))
            && (Stop !in events ==> Idle(0, events) <= timeout + timeout / 2 + slack)
  {
    NeitherEarlyNorLate(timeout, slack, START, events);
    IdleIsMeasured(timeout, slack, START, events);
    RunningUntilStopped(timeout, slack, START, events);
  }

  /** A poll that finds it due aborts, one that finds it stopped ends the thread, any other waits on. */
  lemma PollsDecide(timeout: nat, slack: nat, events: seq<Event>)
    requires Legal(timeout, slack, START, events + [Wake])
    ensures Run(timeout, slack, START, events + [Wake]).phase
            == if Stop in events then Returned else if timeout < Idle(0, events) then Aborted else Waiting
  {
    RunAppends(timeout, slack, START, events, Wake);
    NeitherEarlyNorLate(timeout, slack, START, events);
    IdleIsMeasured(timeout, slack, START, events);
    RunningUntilStopped(timeout, slack, START, events);
  }

  lemma {:induction false} RunAppends(timeout: nat, slack: nat, s: State, events: seq<Event>, e: Event)
    requires Legal(timeout, slack, s, events + [e])
    ensures Legal(timeout, slack, s, events) && Enabled(timeout, slack, Run(timeout, slack, s, events), e)
    ensures Run(timeout, slack, s, events + [e]) == Apply(timeout, slack, Run(timeout, slack, s, events), e)
    decreases events
  {
    if events == [] {
      assert events + [e] == [e];
    } else {
      assert (events + [e])[1..] == events[1..] + [e];
      RunAppends(timeout, slack, Apply(timeout, slack, s, events[0]), events[1..], e);
    }
  }

  // ---------------------------------------------------------------- a stall is noticed

  /** A wait of full length and the poll that ends it. */
  function Waited(timeout: nat, slack: nat, s: State): (t: State)
    requires Punctual(timeout, slack, s) && s.running && s.phase == Waiting
    ensures Punctual(timeout, slack, t) && t.running && t.lastReset == s.lastReset && t.phase != Returned
    ensures t.phase == Waiting ==> t.waitingSince == s.waitingSince + timeout / 2 + slack
  {
    Apply(timeout, slack, Apply(timeout, slack, s, Pass(s.waitingSince + timeout / 2 + slack - s.now)), Wake)
  }

  /** The run in which nothing but waits of full length happens from here on. */
  function Stall(timeout: nat, slack: nat, s: State): (events: seq<Event>)
    requires 1 <= timeout / 2 + slack && Punctual(timeout, slack, s) && s.running && s.phase == Waiting
    decreases s.lastReset + timeout + timeout / 2 + slack + 1 - s.waitingSince
  {
    var t := Waited(timeout, slack, s);
    [Pass(s.waitingSince + timeout / 2 + slack - s.now), Wake] + if t.phase == Aborted then [] else Stall(timeout, slack, t)
  }

  lemma WaitFirst(timeout: nat, slack: nat, s: State, rest: seq<Event>)
    requires Punctual(timeout, slack, s) && s.running && s.phase == Waiting
    requires Legal(timeout, slack, Waited(timeout, slack, s), rest)
    ensures var events := [Pass(s.waitingSince + timeout / 2 + slack - s.now), Wake] + rest;
            && Legal(timeout, slack, s, events)
            && Run(timeout, slack, s, events) == Run(timeout, slack, Waited(timeout, slack, s), rest)
  {
    var pass := Pass(s.waitingSince + timeout / 2 + slack - s.now);
    Prepend(timeout, slack, Apply(timeout, slack, s, pass), Wake, rest);
    Prepend(timeout, slack, s, pass, [Wake] + rest);
    assert [pass, Wake] + rest == [pass] + ([Wake] + rest);
  }

  /** A stall is detected: left alone, the watchdog does abort, and within the bound. */
  lemma {:induction false} StallAborts(timeout: nat, slack: nat, s: State)
    requires 1 <= timeout / 2 + slack && Punctual(timeout, slack, s) && s.running && s.phase == Waiting
    ensures Legal(timeout, slack, s, Stall(timeout, slack, s))
    ensures var t := Run(timeout, slack, s, Stall(timeout, slack, s));
            t.phase == Aborted && t.lastReset == s.lastReset && t.now <= s.lastReset + timeout + timeout / 2 + slack
    decreases s.lastReset + timeout + timeout / 2 + slack + 1 - s.waitingSince
  {
    var t := Waited(timeout, slack, s);
    if t.phase == Aborted {
      WaitFirst(timeout, slack, s, []);
    } else {
      StallAborts(timeout, slack, t);
      WaitFirst(timeout, slack, s, Stall(timeout, slack, t));
    }
  }

  lemma Prepend(timeout: nat, slack: nat, s: State, e: Event, events: seq<Event>)
    requires Enabled(timeout, slack, s, e) && Legal(timeout, slack, Apply(timeout, slack, s, e), events)
    ensures Legal(timeout, slack, s, [e] + events)
    ensures Run(timeout, slack, s, [e] + events) == Run(timeout, slack, Apply(timeout, slack, s, e), events)
  {
    assert ([e] + events)[1..] == events;
  }

  /** Where neither wait nor slack takes any time, no time goes by. */
  lemma {:induction false} NoTimeNoAbort(timeout: nat, slack: nat, s: State, events: seq<Event>)
    requires timeout / 2 + slack == 0 && Legal(timeout, slack, s, events)
    requires s.phase != Aborted && (s.phase == Waiting ==> s.now == s.waitingSince == 0)
    ensures Run(timeout, slack, s, events).phase != Aborted
    decreases events
  {
    if events != [] {
      NoTimeNoAbort(timeout, slack, Apply(timeout, slack, s, events[0]), events[1..]);
    }
  }

  /** That polls take time is all that detecting a stall depends on, whatever the timeout. */
  lemma AbortsIffPollsTakeTime(timeout: nat, slack: nat)
    ensures (exists events ::
               Legal(timeout, slack, START, events) && Run(timeout, slack, START, events).phase == Aborted)
            <==> 1 <= timeout / 2 + slack
  {
    if 1 <= timeout / 2 + slack {
      StallAborts(timeout, slack, START);
    } else {
      forall events | Legal(timeout, slack, START, events)
        ensures Run(timeout, slack, START, events).phase != Aborted
      {
        NoTimeNoAbort(timeout, slack, START, events);
      }
    }
  }
}
