/**
 The fake location provider: a thread reports positions along a square, one a second, until it
 is told to exit; it can be stopped and started again while its counter and position persist.
 The thread's steps are told apart where another thread can come in between.
 */
module LocationWalk {
  import opened Numbers

  const LATITUDE_STEP := 0.000009044 * 4.0
  const LONGITUDE_STEP := 0.000008985 * 4.0
  const SIDE := 10
  const STEPS := 40

  datatype Position = Position(latitude: real, longitude: real)

  const HOME := Position(47.3977419, 8.5455938)

  // ---------------------------------------------------------------- the walk

  /** How many of the first k steps go along the side that begins at step `from`. */
  function Along(k: nat, from: nat): nat {
    if k <= from then 0 else if k <= from + SIDE then k - from else SIDE
  }

  /** Where the walk stands after k steps: south, east, north, west. */
  function Corner(k: nat): Position {
    Position(HOME.latitude + (Along(k, 20) - Along(k, 0)) as real * LATITUDE_STEP,
             HOME.longitude + (Along(k, 10) - Along(k, 30)) as real * LONGITUDE_STEP)
  }

  /** The first k points of the walk. */
  function Walk(k: nat): seq<Position> {
    seq(k, i requires 0 <= i < k => Corner(i))
  }

  /** The walk goes round: opposite sides cancel, and the four corners are a square apart. */
  lemma WalkCloses()
    ensures Corner(STEPS) == Corner(0) == HOME
    ensures Corner(10) == HOME.(latitude := HOME.latitude - 10.0 * LATITUDE_STEP)
    ensures Corner(20) == Corner(10).(longitude := HOME.longitude + 10.0 * LONGITUDE_STEP)
    ensures Corner(30) == HOME.(longitude := HOME.longitude + 10.0 * LONGITUDE_STEP)
  {
  }

  /** Every step goes along one side only, by four metres: ten to the south, east, north and west each. */
  lemma StepByStep(k: nat)
    requires k < 40
    ensures var here, next := Corner(k), Corner(k + 1);
            if k < 10 then next == here.(latitude := here.latitude - 4.0 * 0.000009044)
            else if k < 20 then next == here.(longitude := here.longitude + 4.0 * 0.000008985)
            else if k < 30 then next == here.(latitude := here.latitude + 4.0 * 0.000009044)
            else next == here.(longitude := here.longitude - 4.0 * 0.000008985)
  {
  }

  // ---------------------------------------------------------------- the provider

  /** Where the thread is: none, about to test the flag, past the test, asleep after its report, or out of its loop. */
  datatype Thread = NoThread | Testing | Reporting | Sleeping | Done

  class FakeLocationProvider {
    var thread: Thread
    var shouldExit: bool
    var callback: nat
    var position: Position
    var count: nat

    /** Every report: which callback got which position. */
    var reported: seq<(nat, Position)>

    /** The steps taken: the counter lags while the thread sleeps. */
    ghost function Taken(): nat
      reads this
    {
      count + if thread == Sleeping then 1 else 0
    }

    /** Reports and position depend on nothing but how many steps, of at most 40, were taken. */
    ghost predicate Valid()
      reads this
    {
      && position == Corner(Min(Taken(), STEPS))
      && Positions(reported) == Walk(Min(Taken(), STEPS))
    }

    constructor ()
      ensures Valid() && reported == [] && thread == NoThread
    {
      thread, shouldExit, callback := NoThread, false, 0;
      position, count, reported := HOME, 0, [];
    }

    // ------------------------------------------------------------ the thread

    method Test()
      requires Valid() && thread == Testing
      modifies `thread
      ensures Valid() && thread == if shouldExit then Done else Reporting
    {
      thread := if shouldExit then Done else Reporting;
    }

    /** The body of the loop up to its sleep. */
    method Report()
      requires Valid() && thread == Reporting
      modifies `thread, `shouldExit, `position, `reported
      ensures Valid() && thread == Sleeping
      ensures shouldExit == (old(shouldExit) || STEPS <= count)
      ensures reported == if count < STEPS then old(reported) + [(callback, old(position))] else old(reported)
    {
      WalkStep(count);
      ghost var before := Positions(reported);
      if count < 10 {
        reported := reported + [(callback, position)];
        position := position.(latitude := position.latitude - LATITUDE_STEP);
      } else if count < 20 {
        reported := reported + [(callback, position)];
        position := position.(longitude := position.longitude + LONGITUDE_STEP);
      } else if count < 30 {
        reported := reported + [(callback, position)];
        position := position.(latitude := position.latitude + LATITUDE_STEP);
      } else if count < 40 {
        reported := reported + [(callback, position)];
        position := position.(longitude := position.longitude - LONGITUDE_STEP);
      } else {
        shouldExit := true;
      }
      thread := Sleeping;
      assert count < STEPS ==> Positions(reported) == before + [old(position)];
    }

    method Wake()
      requires Valid() && thread == Sleeping
      modifies `thread, `count
      ensures Valid() && thread == Testing && count == old(count) + 1
    {
      count := count + 1;
      thread := Testing;
    }

    /** Whatever the thread does next, if there is one. */
    method ThreadStep()
      requires Valid()
      modifies this
      ensures Valid() && old(reported) <= reported && callback == old(callback)
      ensures thread == match old(thread)
                        case Testing => (if old(shouldExit) then Done else Reporting)
                        case Reporting => Sleeping
                        case Sleeping => Testing
                        case other => other
      ensures count == old(count) + (if old(thread) == Sleeping then 1 else 0)
      ensures shouldExit == (old(shouldExit) || (old(thread) == Reporting && STEPS <= count))
      ensures reported == if old(thread) == Reporting && count < STEPS
                          then old(reported) + [(callback, old(position))] else old(reported)
    {
      match thread {
        case Testing => Test();
        case Reporting => Report();
        case Sleeping => Wake();
        case _ =>
      }
    }

    // ------------------------------------------------------------ the other thread

    /** Tells the thread to exit and waits for it: what it is in the middle of, it finishes. */
    method Stop()
      requires Valid()
      modifies this
      ensures Valid() && thread == NoThread && shouldExit && callback == old(callback)
      ensures old(reported) <= reported && |reported| <= |old(reported)| + 1
      ensures old(thread) != Reporting ==> reported == old(reported)
    {
      shouldExit := true;
      if thread != NoThread {
        while thread != Done
          invariant Valid() && shouldExit && thread != NoThread && callback == old(callback)
          invariant old(reported) <= reported && |reported| <= |old(reported)| + 1
          invariant reported == old(reported) || (old(thread) == Reporting && thread != Reporting)
          decreases match thread case Reporting => 3 case Sleeping => 2 case Testing => 1 case _ => 0
        {
          match thread {
            case Testing => Test();
            case Reporting => Report();
            case Sleeping => Wake();
          }
        }
        thread := NoThread;
      }
    }

    method Start()
      requires Valid() && thread == NoThread
      modifies `shouldExit, `thread
      ensures Valid() && thread == Testing && !shouldExit
    {
      shouldExit := false;
      thread := Testing;
    }

    method RequestLocationUpdates(callback': nat)
      requires Valid()
      modifies this
      ensures Valid() && thread == Testing && !shouldExit && callback == callback'
      ensures old(reported) <= reported && |reported| <= |old(reported)| + 1
    {
      callback := callback';
      Stop();
      Start();
    }

    /**
     A request that nobody interrupts walks the rest of the square home, tells its own callback every
     point of it, and the thread ends by itself.
     */
    method RunUndisturbed()
      requires Valid() && thread == Testing && !shouldExit
      modifies this
      ensures Valid() && thread == Done
      ensures Positions(reported) == Walk(STEPS) && position == HOME
      ensures old(reported) <= reported && callback == old(callback)
      ensures forall i :: |old(reported)| <= i < |reported| ==> reported[i].0 == callback
    {
      WalkCloses();
      while thread != Done
        invariant Valid() && thread != NoThread
        invariant shouldExit || thread == Done ==> STEPS < Taken()
        invariant !shouldExit && thread == Sleeping ==> count < STEPS
        invariant old(reported) <= reported && callback == old(callback)
        invariant forall i :: |old(reported)| <= i < |reported| ==> reported[i].0 == callback
        decreases if shouldExit then 0 else if STEPS < count then 1 else STEPS + 2 - count,
                  if shouldExit
                  then (match thread case Reporting => 3 case Sleeping => 2 case Testing => 1 case _ => 0)
                  else (match thread case Testing => 3 case Reporting => 2 case Sleeping => 1 case _ => 0)
      {
        match thread {
          case Testing => Test();
          case Reporting => Report();
          case Sleeping => Wake();
        }
      }
    }
  }

  function Positions(reports: seq<(nat, Position)>): seq<Position> {
    seq(|reports|, i requires 0 <= i < |reports| => reports[i].1)
  }

  lemma WalkStep(k: nat)
    ensures k < STEPS ==> Walk(k + 1) == Walk(k) + [Corner(k)]
    ensures k < STEPS ==>
              Corner(k + 1) == if k < 10 then Corner(k).(latitude := Corner(k).latitude - LATITUDE_STEP)
                               else if k < 20 then Corner(k).(longitude := Corner(k).longitude + LONGITUDE_STEP)
                               else if k < 30 then Corner(k).(latitude := Corner(k).latitude + LATITUDE_STEP)
                               else Corner(k).(longitude := Corner(k).longitude - LONGITUDE_STEP)
  {
  }

  // ---------------------------------------------------------------- every run

  datatype Action = Request(callback: nat) | StopIt | Thread

  /** All requests of a run together report a prefix of one walk round the square, never more than forty points. */
  method AnyRun(actions: seq<Action>) returns (reports: seq<(nat, Position)>)
    ensures |reports| <= STEPS && Positions(reports) == Walk(|reports|)
  {
    var provider := new FakeLocationProvider();
    for i := 0 to |actions|
      invariant provider.Valid() && fresh(provider)
    {
      match actions[i] {
        case Request(callback) => provider.RequestLocationUpdates(callback);
        case StopIt => provider.Stop();
        case Thread => provider.ThreadStep();
      }
    }
    reports := provider.reported;
    assert |Positions(reports)| == |Walk(Min(provider.Taken(), STEPS))|;
  }
}
