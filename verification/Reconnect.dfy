/**
 The reconnect example as a protocol: an error callback (remove the connection, then lock and
 mark its entry) interleaves with a loop that, holding the lock, adds what is not connected.
 A state is what both threads share; a step is what one of them does atomically.
 */
module Reconnect {
  import opened Options

  type Handle = nat

  /** A fresh entry's handle equals none that the library returns. */
  datatype Entry = Entry(url: string, handle: Option<Handle>, connected: bool)

  /** Where the retry loop is: without the lock, holding it before entry i, or back from adding entry i. */
  datatype Loop = Sleeping | At(i: nat) | Added(i: nat, h: Handle)

  datatype State = State(
    entries: seq<Entry>,
    loop: Loop,
    live: set<Handle>,          // connections the library has
    issued: set<Handle>,        // every handle it ever returned
    raised: set<Handle>,        // handles that reported an error
    calling: multiset<Handle>,  // callbacks that have not removed their connection yet
    removed: multiset<Handle>,  // callbacks that have, and wait for the lock
    failed: bool)               // the callback's assertion failed

  datatype Step =
    | Lock
    | SkipConnected
    | AddFails
    | AddSucceeds(h: Handle)
    | Record
    | Unlock
    | Raise(h: Handle)
    | Remove(h: Handle)
    | Mark(h: Handle)

  function Start(urls: seq<string>): State {
    State(seq(|urls|, i requires 0 <= i < |urls| => Entry(urls[i], None, false)),
          Sleeping, {}, {}, {}, multiset{}, multiset{}, false)
  }

  /** `std::find_if` on the handle: the first index, or the length. */
  function Find(entries: seq<Entry>, h: Handle): (k: nat)
    ensures k <= |entries|
    ensures forall j :: 0 <= j < k ==> entries[j].handle != Some(h)
    ensures k < |entries| ==> entries[k].handle == Some(h)
  {
    if entries == [] || entries[0].handle == Some(h) then 0 else 1 + Find(entries[1..], h)
  }

  predicate AtEntry(s: State) {
    s.loop.At? && s.loop.i < |s.entries|
  }

  /** A handle is fresh when it is returned, only an existing connection reports errors. */
  predicate Enabled(s: State, step: Step) {
    match step
    case Lock => s.loop.Sleeping?
    case SkipConnected => AtEntry(s) && s.entries[s.loop.i].connected
    case AddFails => AtEntry(s) && !s.entries[s.loop.i].connected
    case AddSucceeds(h) => AtEntry(s) && !s.entries[s.loop.i].connected && h !in s.issued
    case Record => s.loop.Added? && s.loop.i < |s.entries|
    case Unlock => s.loop == At(|s.entries|)
    case Raise(h) => h in s.live
    case Remove(h) => h in s.calling
    case Mark(h) => h in s.removed && s.loop.Sleeping?
  }

  function Apply(s: State, step: Step): State
    requires Enabled(s, step)
  {
    match step
    case Lock => s.(loop := At(0))
    case SkipConnected => s.(loop := At(s.loop.i + 1))
    case AddFails => s.(loop := At(s.loop.i + 1))
    case AddSucceeds(h) => s.(loop := Added(s.loop.i, h), live := s.live + {h}, issued := s.issued + {h})
    case Record =>
      var i := s.loop.i;
      s.(loop := At(i + 1), entries := s.entries[i := s.entries[i].(handle := Some(s.loop.h), connected := true)])
    case Unlock => s.(loop := Sleeping)
    case Raise(h) => s.(raised := s.raised + {h}, calling := s.calling + multiset{h})
    case Remove(h) => s.(live := s.live - {h}, calling := s.calling - multiset{h}, removed := s.removed + multiset{h})
    case Mark(h) =>
      var k := Find(s.entries, h);
      if k == |s.entries| then s.(removed := s.removed - multiset{h}, failed := true)
      else s.(removed := s.removed - multiset{h}, entries := s.entries[k := s.entries[k].(connected := false)])
  }

  // ---------------------------------------------------------------- runs

  predicate Legal(s: State, steps: seq<Step>)
    decreases steps
  {
    steps != [] ==> Enabled(s, steps[0]) && Legal(Apply(s, steps[0]), steps[1..])
  }

  function Run(s: State, steps: seq<Step>): State
    requires Legal(s, steps)
    decreases steps
  {
    if steps == [] then s else Run(Apply(s, steps[0]), steps[1..])
  }

  /** The loop is about to write a new handle over one that a callback still has in hand. */
  predicate Overtakes(s: State, step: Step)
    requires Enabled(s, step)
  {
    step.Record? &&
    var old_ := s.entries[s.loop.i].handle;
    old_.Some? && Pending(s, old_.value)
  }

  /** No reconnect overtakes a callback. */
  predicate NeverOvertakes(s: State, steps: seq<Step>)
    requires Legal(s, steps)
    decreases steps
  {
    steps != [] ==> !Overtakes(s, steps[0]) && NeverOvertakes(Apply(s, steps[0]), steps[1..])
  }

  /** No connection reports a second error. */
  predicate ErrorsOnce(s: State, steps: seq<Step>)
    requires Legal(s, steps)
    decreases steps
  {
    steps != [] ==>
      && (steps[0].Raise? ==> steps[0].h !in s.raised)
      && ErrorsOnce(Apply(s, steps[0]), steps[1..])
  }

  // ---------------------------------------------------------------- the invariant

  predicate Pending(s: State, h: Handle) {
    h in s.calling || h in s.removed
  }

  /** What the library and the callbacks know of one handle. */
  ghost predicate HandleSound(s: State, h: Handle) {
    && (h in s.removed ==> h !in s.live)
    && (h in s.live || h in s.raised || Pending(s, h) ==> h in s.issued)
  }

  /** A connected entry is alive or about to be marked; any other handle is dead. */
  ghost predicate EntrySound(s: State, e: Entry) {
    && (e.connected ==> e.handle.Some?)
    && (e.handle.Some? ==>
          var h := e.handle.value;
          && h in s.issued
          && (if e.connected then h in s.live || h in s.removed else h !in s.live))
  }

  /** A handle still in use is that of an entry, connected if it is alive, or was just returned to the loop. */
  ghost predicate Owned(s: State, h: Handle) {
    || (exists i :: 0 <= i < |s.entries| && s.entries[i].handle == Some(h) && (h in s.live ==> s.entries[i].connected))
    || (s.loop.Added? && s.loop.h == h)
  }

  ghost predicate LoopSound(s: State) {
    && (s.loop.At? ==> s.loop.i <= |s.entries|)
    && (s.loop.Added? ==>
          var h := s.loop.h;
          && s.loop.i < |s.entries| && !s.entries[s.loop.i].connected
          && h in s.issued && (h in s.live || h in s.removed)
          && forall i :: 0 <= i < |s.entries| ==> s.entries[i].handle != Some(h))
  }

  ghost predicate Distinct(entries: seq<Entry>) {
    forall i, j :: 0 <= i < j < |entries| && entries[i].handle.Some? ==> entries[i].handle != entries[j].handle
  }

  ghost predicate Invariant(s: State) {
    && !s.failed
    && LoopSound(s)
    && Distinct(s.entries)
    && (forall h :: HandleSound(s, h))
    && (forall i :: 0 <= i < |s.entries| ==> EntrySound(s, s.entries[i]))
    && (forall h :: h in s.live || Pending(s, h) ==> Owned(s, h))
  }

  lemma StartIsSound(urls: seq<string>)
    ensures Invariant(Start(urls))
  {
  }

  lemma LockKeeps(s: State, step: Step)
    requires Invariant(s) && Enabled(s, step)
    requires step.Lock? || step.SkipConnected? || step.AddFails? || step.Unlock?
    ensures Invariant(Apply(s, step))
  {
    var t := Apply(s, step);
    assert forall h :: HandleSound(s, h) ==> HandleSound(t, h);
    assert forall e :: EntrySound(s, e) ==> EntrySound(t, e);
    assert forall h :: Owned(s, h) ==> Owned(t, h);
  }

  lemma AddKeeps(s: State, h: Handle)
    requires Invariant(s) && Enabled(s, AddSucceeds(h))
    ensures Invariant(Apply(s, AddSucceeds(h)))
  {
    var t := Apply(s, AddSucceeds(h));
    assert HandleSound(s, h);
    assert forall g :: HandleSound(s, g) ==> HandleSound(t, g);
    assert forall i :: 0 <= i < |s.entries| ==> EntrySound(s, s.entries[i]) && EntrySound(t, t.entries[i]);
    assert forall g :: g != h && Owned(s, g) ==> Owned(t, g);
  }

  lemma RecordKeeps(s: State)
    requires Invariant(s) && Enabled(s, Record) && !Overtakes(s, Record)
    ensures Invariant(Apply(s, Record))
  {
    var t := Apply(s, Record);
    var i, h := s.loop.i, s.loop.h;
    assert forall g :: HandleSound(s, g) ==> HandleSound(t, g);
    assert EntrySound(s, s.entries[i]);
    forall j | 0 <= j < |t.entries|
      ensures EntrySound(t, t.entries[j])
    {
      if j != i {
        assert EntrySound(s, s.entries[j]);
      }
    }
    forall g | g in t.live || Pending(t, g)
      ensures Owned(t, g)
    {
      assert Owned(s, g);
      if g == h {
        assert t.entries[i].handle == Some(g);
      } else {
        var j :| 0 <= j < |s.entries| && s.entries[j].handle == Some(g) && (g in s.live ==> s.entries[j].connected);
        assert t.entries[j] == s.entries[j];
      }
    }
  }

  lemma ErrorKeeps(s: State, step: Step)
    requires Invariant(s) && Enabled(s, step) && (step.Raise? || step.Remove?)
    ensures Invariant(Apply(s, step))
  {
    var t := Apply(s, step);
    forall g
      ensures HandleSound(t, g)
    {
      assert HandleSound(s, g);
    }
    forall j | 0 <= j < |t.entries|
      ensures EntrySound(t, t.entries[j])
    {
      assert EntrySound(s, s.entries[j]);
    }
    assert forall g :: Owned(s, g) ==> Owned(t, g);
  }

  /** The callback finds its entry: nothing has replaced a handle whose callback is pending. */
  lemma MarkFinds(s: State, h: Handle)
    requires Invariant(s) && Enabled(s, Mark(h))
    ensures Find(s.entries, h) < |s.entries|
    ensures Single(s) ==> s.entries[Find(s.entries, h)].connected
  {
    assert Owned(s, h);
    var i :| 0 <= i < |s.entries| && s.entries[i].handle == Some(h);
    assert Find(s.entries, h) <= i;
  }

  lemma MarkKeeps(s: State, h: Handle)
    requires Invariant(s) && Enabled(s, Mark(h))
    ensures Invariant(Apply(s, Mark(h)))
  {
    MarkFinds(s, h);
    var k := Find(s.entries, h);
    var t := Apply(s, Mark(h));
    assert HandleSound(s, h);
    forall g
      ensures HandleSound(t, g)
    {
      assert HandleSound(s, g);
    }
    forall j | 0 <= j < |t.entries|
      ensures EntrySound(t, t.entries[j])
    {
      assert EntrySound(s, s.entries[j]);
      assert j < k ==> s.entries[j].handle != s.entries[k].handle;
      assert k < j ==> s.entries[j].handle != s.entries[k].handle;
    }
    forall g | g in t.live || Pending(t, g)
      ensures Owned(t, g)
    {
      assert Owned(s, g);
      var j :| 0 <= j < |s.entries| && s.entries[j].handle == Some(g) && (g in s.live ==> s.entries[j].connected);
      assert t.entries[j].handle == Some(g);
    }
  }

  lemma StepKeeps(s: State, step: Step)
    requires Invariant(s) && Enabled(s, step) && !Overtakes(s, step)
    ensures Invariant(Apply(s, step))
  {
    match step {
      case AddSucceeds(h) => AddKeeps(s, h);
      case Record => RecordKeeps(s);
      case Raise(h) => ErrorKeeps(s, step);
      case Remove(h) => ErrorKeeps(s, step);
      case Mark(h) => MarkKeeps(s, h);
      case _ => LockKeeps(s, step);
    }
  }

  /** Over every interleaving in which no reconnect overtakes a callback, however many errors a connection reports. */
  lemma {:induction false} RunsStaySound(s: State, steps: seq<Step>)
    requires Invariant(s) && Legal(s, steps) && NeverOvertakes(s, steps)
    ensures Invariant(Run(s, steps))
    decreases steps
  {
    if steps != [] {
      StepKeeps(s, steps[0]);
      RunsStaySound(Apply(s, steps[0]), steps[1..]);
    }
  }

  // ---------------------------------------------------------------- one error each

  /** Every connection has reported at most once, and while its callback is pending it is as its entry says. */
  ghost predicate Single(s: State) {
    && (forall h :: SingleHandle(s, h))
    && (forall i :: 0 <= i < |s.entries| && s.entries[i].handle.Some? && !s.entries[i].connected ==>
          !Pending(s, s.entries[i].handle.value))
  }

  ghost predicate SingleHandle(s: State, h: Handle) {
    && s.calling[h] + s.removed[h] <= 1
    && (Pending(s, h) ==> h in s.raised)
    && (h in s.calling ==> h in s.live)
  }

  lemma StepKeepsSingleHandle(s: State, step: Step, h: Handle)
    requires Invariant(s) && Single(s) && Enabled(s, step) && (step.Raise? ==> step.h !in s.raised)
    ensures SingleHandle(Apply(s, step), h)
  {
    assert SingleHandle(s, h) && HandleSound(s, h);
  }

  lemma StepKeepsSingle(s: State, step: Step)
    requires Invariant(s) && Single(s) && Enabled(s, step) && (step.Raise? ==> step.h !in s.raised)
    ensures !Overtakes(s, step) && Single(Apply(s, step))
  {
    var t := Apply(s, step);
    forall h
      ensures SingleHandle(t, h)
    {
      StepKeepsSingleHandle(s, step, h);
    }
    forall i | 0 <= i < |t.entries| && t.entries[i].handle.Some? && !t.entries[i].connected
      ensures !Pending(t, t.entries[i].handle.value)
    {
      assert EntrySound(s, s.entries[i]);
      assert SingleHandle(s, t.entries[i].handle.value);
    }
  }

  /** With at most one error per connection no reconnect overtakes a callback. */
  lemma {:induction false} OneErrorNeverOvertakes(s: State, steps: seq<Step>)
    requires Invariant(s) && Single(s) && Legal(s, steps) && ErrorsOnce(s, steps)
    ensures NeverOvertakes(s, steps) && Single(Run(s, steps))
    decreases steps
  {
    if steps != [] {
      StepKeepsSingle(s, steps[0]);
      StepKeeps(s, steps[0]);
      OneErrorNeverOvertakes(Apply(s, steps[0]), steps[1..]);
    }
  }

  // ---------------------------------------------------------------- what it means

  /**
   In every reachable state the assertion has not failed; a live connection whose add has
   completed is the handle of exactly one entry, marked connected; an entry marked connected
   whose handle is dead has its callback between remove and mark; and a callback about to mark
   finds its entry.
   */
  ghost predicate Accounted(s: State) {
    && !s.failed
    && (forall h :: h in s.live && !(s.loop.Added? && s.loop.h == h) ==>
          exists i :: 0 <= i < |s.entries| && s.entries[i].handle == Some(h) && s.entries[i].connected
                      && forall j :: 0 <= j < |s.entries| && j != i ==> s.entries[j].handle != Some(h))
    && (forall i :: 0 <= i < |s.entries| && s.entries[i].connected ==>
          s.entries[i].handle.Some?
          && (s.entries[i].handle.value !in s.live ==> s.entries[i].handle.value in s.removed))
    && (forall h :: Enabled(s, Mark(h)) ==> Find(s.entries, h) < |s.entries|)
  }

  lemma SoundIsAccounted(s: State)
    requires Invariant(s)
    ensures Accounted(s)
  {
    forall h | h in s.live && !(s.loop.Added? && s.loop.h == h)
      ensures exists i :: 0 <= i < |s.entries| && s.entries[i].handle == Some(h) && s.entries[i].connected
                          && forall j :: 0 <= j < |s.entries| && j != i ==> s.entries[j].handle != Some(h)
    {
      assert Owned(s, h);
      var i :| 0 <= i < |s.entries| && s.entries[i].handle == Some(h) && s.entries[i].connected;
      assert forall j :: 0 <= j < i ==> s.entries[j].handle != s.entries[i].handle;
    }
    forall i | 0 <= i < |s.entries| && s.entries[i].connected
      ensures s.entries[i].handle.Some?
              && (s.entries[i].handle.value !in s.live ==> s.entries[i].handle.value in s.removed)
    {
      assert EntrySound(s, s.entries[i]);
    }
    forall h | Enabled(s, Mark(h))
      ensures Find(s.entries, h) < |s.entries|
    {
      MarkFinds(s, h);
    }
  }

  /** Every state is accounted for that is reached without a reconnect overtaking a callback. */
  lemma EveryRunIsAccounted(urls: seq<string>, steps: seq<Step>)
    requires Legal(Start(urls), steps) && NeverOvertakes(Start(urls), steps)
    ensures Accounted(Run(Start(urls), steps))
  {
    StartIsSound(urls);
    RunsStaySound(Start(urls), steps);
    SoundIsAccounted(Run(Start(urls), steps));
  }

  /** One error per connection at most is such a case, and there a marking callback's entry is still connected. */
  lemma OneErrorEachIsAccounted(urls: seq<string>, steps: seq<Step>)
    requires Legal(Start(urls), steps) && ErrorsOnce(Start(urls), steps)
    ensures var s := Run(Start(urls), steps);
            && Accounted(s)
            && forall h :: Enabled(s, Mark(h)) ==> s.entries[Find(s.entries, h)].connected
  {
    StartIsSound(urls);
    OneErrorNeverOvertakes(Start(urls), steps);
    EveryRunIsAccounted(urls, steps);
    RunsStaySound(Start(urls), steps);
    var s := Run(Start(urls), steps);
    forall h | Enabled(s, Mark(h))
      ensures s.entries[Find(s.entries, h)].connected
    {
      MarkFinds(s, h);
    }
  }

  /** Once no callback is pending and the lock is free, the flags say exactly what is alive. */
  lemma QuietMeansExact(urls: seq<string>, steps: seq<Step>)
    requires Legal(Start(urls), steps) && NeverOvertakes(Start(urls), steps)
    requires var s := Run(Start(urls), steps);
             s.loop.Sleeping? && s.calling == multiset{} && s.removed == multiset{}
    ensures var s := Run(Start(urls), steps);
            && (forall i :: 0 <= i < |s.entries| ==>
                  (s.entries[i].connected <==> s.entries[i].handle.Some? && s.entries[i].handle.value in s.live))
            && s.live == set e | e in s.entries && e.connected && e.handle.Some? :: e.handle.value
  {
    StartIsSound(urls);
    RunsStaySound(Start(urls), steps);
    var s := Run(Start(urls), steps);
    forall i | 0 <= i < |s.entries|
      ensures s.entries[i].connected <==> s.entries[i].handle.Some? && s.entries[i].handle.value in s.live
    {
      assert EntrySound(s, s.entries[i]);
    }
    forall h | h in s.live
      ensures exists e :: e in s.entries && e.connected && e.handle == Some(h)
    {
      assert Owned(s, h);
      var i :| 0 <= i < |s.entries| && s.entries[i].handle == Some(h) && s.entries[i].connected;
      assert s.entries[i] in s.entries;
    }
  }

  // ---------------------------------------------------------------- a pass gets to every entry

  /** What the loop did about an entry: passed it over, or tried it and got a handle or not. */
  datatype Visit = PassedOver(i: nat) | Tried(i: nat, got: Option<Handle>)

  /** The entries that the loop comes to in a run, in order. */
  function Visits(s: State, steps: seq<Step>): seq<Visit>
    requires Legal(s, steps)
    decreases steps
  {
    if steps == [] then []
    else Here(s, steps[0]) + Visits(Apply(s, steps[0]), steps[1..])
  }

  /** Before the loop takes or gives up the lock. */
  predicate WithinPass(steps: seq<Step>) {
    Lock !in steps && Unlock !in steps
  }

  /** How many entries are still to come. */
  function Next(s: State): nat {
    match s.loop
    case Sleeping => 0
    case At(i) => i
    case Added(i, _) => i + 1
  }

  /** What a visit leaves of an entry. */
  function Visited(e: Entry, visit: Visit): Entry {
    match visit
    case PassedOver(_) => e
    case Tried(_, None) => e
    case Tried(_, Some(h)) => Entry(e.url, Some(h), true)
  }

  /** The entries after these visits, of which the first is to entry `from`. */
  ghost predicate EntriesVisited(before: seq<Entry>, after: seq<Entry>, visits: seq<Visit>, from: nat) {
    && |after| == |before| && from + |visits| == |before|
    && (forall j :: 0 <= j < |visits| ==>
          && visits[j].i == from + j
          && visits[j].PassedOver? == before[from + j].connected
          && after[from + j] == Visited(before[from + j], visits[j]))
    && forall j :: 0 <= j < from ==> after[j] == before[j]
  }

  /** From where the loop is in a pass to its end it visits every remaining entry, once and in order. */
  lemma {:induction false} PassVisitsTheRest(s: State, steps: seq<Step>)
    requires Legal(s, steps) && WithinPass(steps) && !s.loop.Sleeping?
    requires Run(s, steps).loop == At(|s.entries|) && Next(s) <= |s.entries|
    ensures EntriesVisited(Recorded(s), Run(s, steps).entries, Visits(s, steps), Next(s))
    decreases steps
  {
    if steps != [] {
      var t := Apply(s, steps[0]);
      assert steps[0] in steps && forall step :: step in steps[1..] ==> step in steps;
      PassVisitsTheRest(t, steps[1..]);
      PassStep(s, steps[0], Run(s, steps).entries, Visits(t, steps[1..]));
    }
  }

  /** The entries once the loop has written down the handle it was just given. */
  function Recorded(s: State): seq<Entry> {
    if s.loop.Added? && s.loop.i < |s.entries|
    then s.entries[s.loop.i := Entry(s.entries[s.loop.i].url, Some(s.loop.h), true)]
    else s.entries
  }

  lemma PassStep(s: State, step: Step, after: seq<Entry>, rest: seq<Visit>)
    requires Enabled(s, step) && !s.loop.Sleeping? && !step.Lock? && !step.Unlock? && Next(s) <= |s.entries|
    requires var t := Apply(s, step); EntriesVisited(Recorded(t), after, rest, Next(t))
    ensures EntriesVisited(Recorded(s), after, Here(s, step) + rest, Next(s))
  {
    if Here(s, step) == [] {
      assert Here(s, step) + rest == rest;
    } else {
      var visit := Here(s, step)[0];
      assert Here(s, step) == [visit];
      VisitOneMore(s.entries, Recorded(Apply(s, step)), after, visit, rest);
    }
  }

  /** The visit that a step of the loop makes, if it makes one. */
  function Here(s: State, step: Step): seq<Visit>
    requires Enabled(s, step)
  {
    match step
    case SkipConnected => [PassedOver(s.loop.i)]
    case AddFails => [Tried(s.loop.i, None)]
    case AddSucceeds(h) => [Tried(s.loop.i, Some(h))]
    case _ => []
  }

  lemma VisitOneMore(before: seq<Entry>, now: seq<Entry>, after: seq<Entry>, visit: Visit, rest: seq<Visit>)
    requires visit.i < |before| && visit.PassedOver? == before[visit.i].connected
    requires now == before[visit.i := Visited(before[visit.i], visit)]
    requires EntriesVisited(now, after, rest, visit.i + 1)
    ensures EntriesVisited(before, after, [visit] + rest, visit.i)
  {
    var all := [visit] + rest;
    assert after[visit.i] == now[visit.i];
    forall j | 0 < j < |all|
      ensures all[j] == rest[j - 1] && now[visit.i + j] == before[visit.i + j]
      ensures after[visit.i + j] == Visited(before[visit.i + j], all[j]) && all[j].i == visit.i + j
      ensures all[j].PassedOver? == before[visit.i + j].connected
    {
      assert visit.i + 1 + (j - 1) == visit.i + j;
      assert rest[j - 1].i == visit.i + 1 + (j - 1);
    }
  }

  /**
   Every pass of the retry loop comes to all entries in order, whatever errors arrive meanwhile: one
   that is connected is passed over, one that is not is tried, and it is connected with the new
   handle afterwards if that succeeded and as it was if not.
   */
  lemma PassVisitsAll(s: State, pass: seq<Step>)
    requires s.loop.Sleeping? && Legal(s, [Lock] + pass + [Unlock]) && WithinPass(pass)
    ensures EntriesVisited(s.entries, Run(s, [Lock] + pass + [Unlock]).entries, Visits(s, [Lock] + pass + [Unlock]), 0)
  {
    var locked := Apply(s, Lock);
    assert [Lock] + pass + [Unlock] == [Lock] + (pass + [Unlock]);
    assert ([Lock] + (pass + [Unlock]))[1..] == pass + [Unlock];
    UnlockEnds(locked, pass);
    PassVisitsTheRest(locked, pass);
  }

  lemma {:induction false} UnlockEnds(s: State, steps: seq<Step>)
    requires Legal(s, steps + [Unlock])
    ensures Legal(s, steps) && Run(s, steps).loop == At(|s.entries|)
    ensures Run(s, steps + [Unlock]).entries == Run(s, steps).entries
    ensures Visits(s, steps + [Unlock]) == Visits(s, steps)
    decreases steps
  {
    if steps == [] {
      assert steps + [Unlock] == [Unlock];
    } else {
      assert (steps + [Unlock])[1..] == steps[1..] + [Unlock];
      UnlockEnds(Apply(s, steps[0]), steps[1..]);
    }
  }

  /** No step touches the URLs or their order. */
  lemma {:induction false} UrlsStay(urls: seq<string>, s: State, steps: seq<Step>)
    requires Legal(s, steps) && |s.entries| == |urls| && forall i :: 0 <= i < |urls| ==> s.entries[i].url == urls[i]
    ensures |Start(urls).entries| == |urls| && forall i :: 0 <= i < |urls| ==> Start(urls).entries[i] == Entry(urls[i], None, false)
    ensures var t := Run(s, steps);
            |t.entries| == |urls| && forall i :: 0 <= i < |urls| ==> t.entries[i].url == urls[i]
    decreases steps
  {
    if steps != [] {
      UrlsStay(urls, Apply(s, steps[0]), steps[1..]);
    }
  }

  /** A callback removes the connection it was called for, and marks its entry and no other. */
  lemma CallbackSteps(s: State, h: Handle)
    ensures Enabled(s, Remove(h)) ==> Apply(s, Remove(h)).live == s.live - {h} && Apply(s, Remove(h)).entries == s.entries
    ensures Enabled(s, Mark(h)) ==>
              var t := Apply(s, Mark(h));
              && t.live == s.live && |t.entries| == |s.entries|
              && forall i :: 0 <= i < |s.entries| ==>
                   t.entries[i] == s.entries[i]
                   || (s.entries[i].handle == Some(h) && t.entries[i] == s.entries[i].(connected := false))
  {
  }

  // ---------------------------------------------------------------- exactly when the assertion is safe

  /** What finishes the pass under way and the callbacks pending, without a new connection or error. */
  predicate Drains(step: Step) {
    step.SkipConnected? || step.AddFails? || step.Unlock? || step.Remove? || step.Mark?
  }

  /** The assertion fails if from here on everything is merely finished, in some order. */
  ghost predicate CanFail(s: State) {
    exists steps :: Legal(s, steps) && (forall i :: 0 <= i < |steps| ==> Drains(steps[i])) && Run(s, steps).failed
  }

  /** At no point of this run can the assertion fail. */
  ghost predicate Safe(s: State, steps: seq<Step>)
    requires Legal(s, steps)
    decreases steps
  {
    !CanFail(s) && (steps != [] ==> Safe(Apply(s, steps[0]), steps[1..]))
  }

  lemma {:induction false} DrainingKeeps(s: State, steps: seq<Step>)
    requires Invariant(s) && Legal(s, steps) && forall i :: 0 <= i < |steps| ==> Drains(steps[i])
    ensures !Run(s, steps).failed
    decreases steps
  {
    if steps != [] {
      StepKeeps(s, steps[0]);
      DrainingKeeps(Apply(s, steps[0]), steps[1..]);
    }
  }

  lemma CanFailBefore(s: State, step: Step)
    requires Enabled(s, step) && Drains(step) && CanFail(Apply(s, step))
    ensures CanFail(s)
  {
    var steps :| Legal(Apply(s, step), steps) && (forall i :: 0 <= i < |steps| ==> Drains(steps[i]))
                 && Run(Apply(s, step), steps).failed;
    Prepend(s, step, steps);
    assert forall i :: 0 <= i < |steps| + 1 ==> Drains(([step] + steps)[i]);
  }

  /** A callback is pending for a handle that no entry has. */
  ghost predicate Orphaned(s: State, g: Handle) {
    && Pending(s, g)
    && forall i :: 0 <= i < |s.entries| ==> s.entries[i].handle != Some(g)
  }

  /** The pass ends, the callback removes and marks, and there is no entry to mark. */
  lemma {:induction false} OrphanFails(s: State, g: Handle)
    requires Orphaned(s, g) && (s.loop.At? ==> s.loop.i <= |s.entries|) && !s.loop.Added?
    ensures CanFail(s)
    decreases if s.loop.At? then |s.entries| - s.loop.i + 2 else if g in s.removed then 0 else 1
  {
    var step := if s.loop == At(|s.entries|) then Unlock
                else if s.loop.At? then (if s.entries[s.loop.i].connected then SkipConnected else AddFails)
                else if g in s.removed then Mark(g)
                else Remove(g);
    var t := Apply(s, step);
    if step.Mark? {
      assert Legal(t, []) && Run(t, []).failed;
    } else {
      OrphanFails(t, g);
    }
    CanFailBefore(s, step);
  }

  lemma OvertakingFails(s: State)
    requires Invariant(s) && Enabled(s, Record) && Overtakes(s, Record)
    ensures CanFail(Apply(s, Record))
  {
    OrphanFails(Apply(s, Record), s.entries[s.loop.i].handle.value);
  }

  /**
   A run is safe at every point exactly if in it no reconnect overtakes a callback: it is the
   overtaking, and not the number of errors, that the assertion cannot stand.
   */
  lemma {:induction false} SafeIffNeverOvertakes(s: State, steps: seq<Step>)
    requires Invariant(s) && Legal(s, steps)
    ensures Safe(s, steps) <==> NeverOvertakes(s, steps)
    decreases steps
  {
    if CanFail(s) {
      var more :| Legal(s, more) && (forall i :: 0 <= i < |more| ==> Drains(more[i])) && Run(s, more).failed;
      DrainingKeeps(s, more);
    }
    if steps != [] {
      if Overtakes(s, steps[0]) {
        OvertakingFails(s);
      } else {
        StepKeeps(s, steps[0]);
        SafeIffNeverOvertakes(Apply(s, steps[0]), steps[1..]);
      }
    }
  }

  // ---------------------------------------------------------------- overtaking does happen

  lemma Prepend(s: State, step: Step, steps: seq<Step>)
    requires Enabled(s, step) && Legal(Apply(s, step), steps)
    ensures Legal(s, [step] + steps) && Run(s, [step] + steps) == Run(Apply(s, step), steps)
    ensures !ErrorsOnce(Apply(s, step), steps) || (step.Raise? && step.h in s.raised) ==> !ErrorsOnce(s, [step] + steps)
  {
    assert ([step] + steps)[1..] == steps;
  }

  /** One pass of the loop over a single unconnected entry. */
  function Reconnected(s: State, h: Handle): State
    requires |s.entries| == 1
  {
    s.(entries := [s.entries[0].(handle := Some(h), connected := true)], live := s.live + {h}, issued := s.issued + {h})
  }

  lemma PrependPass(s: State, h: Handle, steps: seq<Step>) returns (all: seq<Step>)
    requires |s.entries| == 1 && !s.entries[0].connected && s.loop.Sleeping? && h !in s.issued
    requires Legal(Reconnected(s, h), steps)
    ensures Legal(s, all) && Run(s, all) == Run(Reconnected(s, h), steps)
    ensures !ErrorsOnce(Reconnected(s, h), steps) ==> !ErrorsOnce(s, all)
  {
    var s1 := Apply(s, Lock);
    var s2 := Apply(s1, AddSucceeds(h));
    var s3 := Apply(s2, Record);
    assert Apply(s3, Unlock) == Reconnected(s, h);
    Prepend(s3, Unlock, steps);
    Prepend(s2, Record, [Unlock] + steps);
    Prepend(s1, AddSucceeds(h), [Record] + ([Unlock] + steps));
    Prepend(s, Lock, [AddSucceeds(h)] + ([Record] + ([Unlock] + steps)));
    all := [Lock] + ([AddSucceeds(h)] + ([Record] + ([Unlock] + steps)));
  }

  /** A callback for handle 1 when the entry it belonged to has become connection 2. */
  lemma LateCallbackFails(s: State, url: string) returns (steps: seq<Step>)
    requires s.entries == [Entry(url, Some(2), true)] && s.loop.Sleeping? && 1 in s.calling
    ensures Legal(s, steps) && Run(s, steps).failed
  {
    var s1 := Apply(s, Remove(1));
    assert Find(s1.entries, 1) == 1;
    assert Apply(s1, Mark(1)).failed;
    steps := [];
    Prepend(s1, Mark(1), steps);
    steps := [Mark(1)] + steps;
    Prepend(s, Remove(1), steps);
    steps := [Remove(1)] + steps;
  }

  /** Two errors of one connection can bring it about: the second one, told after the reconnect, finds no entry. */
  lemma SecondErrorFailsTheAssertion(url: string)
    ensures exists steps ::
              Legal(Start([url]), steps) && !ErrorsOnce(Start([url]), steps) && Run(Start([url]), steps).failed
  {
    var s0 := Start([url]);
    var s4 := Reconnected(s0, 1);
    var s5 := Apply(s4, Raise(1));
    var s6 := Apply(s5, Raise(1));
    var s8 := s6.(live := {}, calling := multiset{1}, entries := [Entry(url, Some(1), false)]);
    var steps := LateCallbackFails(Reconnected(s8, 2), url);
    steps := PrependPass(s8, 2, steps);
    steps := PrependCallback(s6, s8, steps);
    Prepend(s5, Raise(1), steps);
    steps := [Raise(1)] + steps;
    Prepend(s4, Raise(1), steps);
    steps := PrependPass(s0, 1, [Raise(1)] + steps);
  }

  lemma PrependCallback(s: State, t: State, steps: seq<Step>) returns (all: seq<Step>)
    requires |s.entries| == 1 && s.entries[0].handle == Some(1)
    requires s.loop.Sleeping? && 1 in s.calling && s.removed == multiset{}
    requires t == s.(live := s.live - {1}, calling := s.calling - multiset{1},
                     entries := [s.entries[0].(connected := false)])
    requires Legal(t, steps)
    ensures Legal(s, all) && Run(s, all) == Run(t, steps)
  {
    var s1 := Apply(s, Remove(1));
    assert Find(s1.entries, 1) == 0;
    assert Apply(s1, Mark(1)) == t;
    Prepend(s1, Mark(1), steps);
    all := [Mark(1)] + steps;
    Prepend(s, Remove(1), all);
    all := [Remove(1)] + all;
  }
}
