/** The channel poller: a thread that keeps a connectivity watch on a channel, and a destructor that
    lets go of the channel, closes the thread's completion queue, and waits for the thread.

    A step is one critical section, or one action of the library: a watch on the channel fires, or the
    completion queue hands out an event. A watch may fire at any time; once nobody owns the channel any
    more it is sure to. */
module ChannelPoller {

  datatype Thread = Polling | Delivering | Left

  datatype Destructor = NotCalled | Swapped | Released | Closed | Joined

  /** `channel` says whether the poller's pointer is set, `others` whether the channel has other owners.
      The completion queue has `watches` operations pending and `queued` events to hand out; `registered`
      and `delivered` count all watches and all events so far. */
  datatype State = State(
    channel: bool, shutdown: bool, others: bool, watches: nat, queued: nat,
    thread: Thread, destructor: Destructor, registered: nat, delivered: nat)

  datatype Event = Fire | Next | NextEnds | Handle | Swap | Reset | OthersLeave | Shutdown | Join

  function StartWatch(s: State): State {
    if s.channel then s.(watches := s.watches + 1, registered := s.registered + 1) else s
  }

  function Initial(channel: bool, others: bool): State {
    StartWatch(State(channel, false, others, 0, 0, Polling, NotCalled, 0, 0))
  }

  ghost predicate Step(s: State, e: Event, s': State) {
    match e
    case Fire => s.watches > 0 && s' == s.(watches := s.watches - 1, queued := s.queued + 1)
    case Next =>
      && s.thread.Polling? && s.queued > 0
      && s' == s.(queued := s.queued - 1, delivered := s.delivered + 1, thread := Delivering)
    case NextEnds =>
      && s.thread.Polling? && s.shutdown && s.watches == 0 && s.queued == 0
      && s' == s.(thread := Left)
    case Handle =>
      && s.thread.Delivering?
      && s' == (if s.shutdown then s.(thread := Left) else StartWatch(s).(thread := Polling))
    case Swap => s.destructor.NotCalled? && s' == s.(channel := false, destructor := Swapped)
    case Reset => s.destructor.Swapped? && s' == s.(destructor := Released)
    case OthersLeave => s.others && s' == s.(others := false)
    case Shutdown => s.destructor.Released? && s' == s.(shutdown := true, destructor := Closed)
    case Join => s.destructor.Closed? && s.thread.Left? && s' == s.(destructor := Joined)
  }

  /** What any interleaving of the thread, the destructor and the library makes of state `s`. */
  ghost predicate Continues(s: State, events: seq<Event>, run: seq<State>) {
    && |run| == |events| + 1
    && run[0] == s
    && forall k :: 0 <= k < |events| ==> Step(run[k], events[k], run[k + 1])
  }

  ghost predicate IsRun(channel: bool, others: bool, events: seq<Event>, run: seq<State>) {
    Continues(Initial(channel, others), events, run)
  }

  // ----- Safety -----

  /** The watches that are pending, queued, or in the thread's hands. */
  function Outstanding(s: State): nat {
    s.watches + s.queued + if s.thread.Delivering? then 1 else 0
  }

  ghost predicate Valid(s: State) {
    && Outstanding(s) <= 1
    && (s.channel ==> s.destructor.NotCalled? && Outstanding(s) == 1)
    && (s.destructor.NotCalled? && !s.channel ==> Outstanding(s) == 0)
    && (s.shutdown <==> s.destructor.Closed? || s.destructor.Joined?)
    && (s.thread.Left? ==> s.shutdown && s.watches == 0 && s.queued == 0)
    && (s.destructor.Joined? ==> s.thread.Left?)
    && s.registered == s.delivered + s.watches + s.queued
  }

  lemma {:induction false} ValidStays(s: State, events: seq<Event>, run: seq<State>)
    requires Valid(s) && Continues(s, events, run)
    ensures Valid(run[|events|])
  {
    if events != [] {
      var k := |events| - 1;
      ValidStays(s, events[..k], run[..k + 1]);
    }
  }

  /** In every interleaving: at most one watch is outstanding, and exactly one as long as the poller has
      its channel; when the thread has left its loop, every watch ever registered has been delivered and
      the queue is empty; the destructor returns only then. */
  lemma OneWatchAtATime(channel: bool, others: bool, events: seq<Event>, run: seq<State>)
    requires IsRun(channel, others, events, run)
    ensures Valid(run[|events|])
  {
    ValidStays(Initial(channel, others), events, run);
  }

  /** Once the destructor has taken the channel away, let alone set the shutdown flag and closed the
      queue, no watch is registered any more. */
  lemma {:induction false} NoWatchAfterSwap(s: State, events: seq<Event>, run: seq<State>)
    requires Valid(s) && Continues(s, events, run)
    requires s.shutdown || !s.destructor.NotCalled?
    ensures run[|events|].registered == s.registered
    ensures !run[|events|].destructor.NotCalled?
  {
    if events != [] {
      var k := |events| - 1;
      NoWatchAfterSwap(s, events[..k], run[..k + 1]);
      ValidStays(s, events[..k], run[..k + 1]);
    }
  }

  // ----- Shutting down -----

  /** A bound on the steps that are left once the destructor has begun. */
  function StepsLeft(s: State): nat {
    (match s.destructor case NotCalled => 4 case Swapped => 3 case Released => 2 case Closed => 1 case Joined => 0)
    + (if s.others then 1 else 0)
    + 3 * s.watches + 2 * s.queued
    + match s.thread case Polling => 1 case Delivering => 2 case Left => 0
  }

  lemma StepUsesBudget(s: State, e: Event, s': State)
    requires Valid(s) && Step(s, e, s') && !s.destructor.NotCalled?
    ensures StepsLeft(s') < StepsLeft(s)
  {
  }

  /** Once the destructor has begun, at most nine more steps follow, whoever takes them. */
  lemma {:induction false} ShutdownIsShort(s: State, events: seq<Event>, run: seq<State>)
    requires Valid(s) && Continues(s, events, run) && !s.destructor.NotCalled?
    ensures |events| + StepsLeft(run[|events|]) <= StepsLeft(s) <= 9
  {
    if events != [] {
      var k := |events| - 1;
      ShutdownIsShort(s, events[..k], run[..k + 1]);
      NoWatchAfterSwap(s, events[..k], run[..k + 1]);
      ValidStays(s, events[..k], run[..k + 1]);
      StepUsesBudget(run[k], events[k], run[k + 1]);
    }
  }

  /** Nobody owns the channel any more. */
  predicate Destroyed(s: State) {
    !s.others && (s.destructor.Released? || s.destructor.Closed? || s.destructor.Joined?)
  }

  /** A step that is bound to happen: the other owners need never let go, and a watch need not fire as
      long as the channel exists. */
  ghost predicate Due(s: State, e: Event) {
    && (exists s' :: Step(s, e, s'))
    && !e.OthersLeave? && (e.Fire? ==> Destroyed(s))
  }

  /** Nothing is bound to happen any more. */
  ghost predicate Stalled(s: State) {
    forall e :: !Due(s, e)
  }

  /** The destructor waits for the thread, which waits for a watch on a channel that others keep alive. */
  predicate WaitsOnOthers(s: State) {
    s.destructor.Closed? && s.thread.Polling? && s.watches > 0 && s.queued == 0 && s.others
  }

  /** From where it begins, the destructor comes to an end or to that wait. */
  lemma StalledIff(s: State)
    requires Valid(s) && !s.destructor.NotCalled?
    ensures Stalled(s) <==> s.destructor.Joined? || WaitsOnOthers(s)
  {
    if !s.destructor.Joined? && !WaitsOnOthers(s) {
      var e, s' := DueStep(s);
      assert Due(s, e);
    }
  }

  lemma DueStep(s: State) returns (e: Event, s': State)
    requires Valid(s) && !s.destructor.NotCalled? && !s.destructor.Joined? && !WaitsOnOthers(s)
    ensures Step(s, e, s') && !e.OthersLeave? && (e.Fire? ==> Destroyed(s))
  {
    match s.destructor
    case Swapped => e, s' := Reset, s.(destructor := Released);
    case Released => e, s' := Shutdown, s.(shutdown := true, destructor := Closed);
    case Closed =>
      match s.thread {
        case Left => e, s' := Join, s.(destructor := Joined);
        case Delivering => e, s' := Handle, s.(thread := Left);
        case Polling =>
          if s.queued > 0 {
            e, s' := Next, s.(queued := s.queued - 1, delivered := s.delivered + 1, thread := Delivering);
          } else if s.watches > 0 {
            e, s' := Fire, s.(watches := s.watches - 1, queued := s.queued + 1);
          } else {
            e, s' := NextEnds, s.(thread := Left);
          }
      }
  }

  lemma {:induction false} OthersStayAway(s: State, events: seq<Event>, run: seq<State>)
    requires Continues(s, events, run) && !s.others
    ensures !run[|events|].others
  {
    if events != [] {
      var k := |events| - 1;
      OthersStayAway(s, events[..k], run[..k + 1]);
    }
  }

  lemma {:induction false} NothingToWaitFor(s: State, events: seq<Event>, run: seq<State>)
    requires Valid(s) && s.destructor.NotCalled? && !s.channel && Continues(s, events, run)
    ensures var s' := run[|events|]; !s'.channel && s'.watches == 0 && s'.queued == 0 && !s'.thread.Delivering?
  {
    if events != [] {
      var k := |events| - 1;
      NothingToWaitFor(s, events[..k], run[..k + 1]);
    }
  }

  lemma Then(s: State, events: seq<Event>, run: seq<State>, e: Event, s': State)
    returns (events': seq<Event>, run': seq<State>)
    requires Continues(s, events, run) && Step(run[|events|], e, s')
    ensures Continues(s, events', run') && run'[|events'|] == s'
  {
    events', run' := events + [e], run + [s'];
  }

  /** The thread can go back to waiting with a watch registered, as long as the poller has its channel. */
  lemma WatchAgain(s: State) returns (events: seq<Event>, run: seq<State>)
    requires Valid(s) && s.channel
    ensures Continues(s, events, run)
    ensures var s' := run[|events|];
      && s'.channel && s'.others == s.others && s'.destructor.NotCalled?
      && s'.thread.Polling? && s'.watches == 1 && s'.queued == 0
  {
    events, run := [], [s];
    var t := s;
    if t.queued == 1 {
      t := t.(queued := 0, delivered := t.delivered + 1, thread := Delivering);
      events, run := Then(s, events, run, Next, t);
    }
    if t.thread.Delivering? {
      t := StartWatch(t).(thread := Polling);
      events, run := Then(s, events, run, Handle, t);
    }
  }

  /** With a channel that has another owner, the destructor may come to wait for it. */
  lemma MayBlock(s: State) returns (events: seq<Event>, run: seq<State>)
    requires Valid(s) && s.channel && s.others
    ensures Continues(s, events, run) && WaitsOnOthers(run[|events|])
  {
    events, run := WatchAgain(s);
    var t := run[|events|];
    t := t.(channel := false, destructor := Swapped);
    events, run := Then(s, events, run, Swap, t);
    t := t.(destructor := Released);
    events, run := Then(s, events, run, Reset, t);
    t := t.(shutdown := true, destructor := Closed);
    events, run := Then(s, events, run, Shutdown, t);
  }

  ghost predicate CanBlock(s: State) {
    exists events, run :: Continues(s, events, run) && WaitsOnOthers(run[|events|])
  }

  /** Before the destructor is called, it is known whether it can come to wait for other owners: exactly
      when the poller has a channel, and the channel has another owner. */
  lemma CanBlockIff(s: State)
    requires Valid(s) && s.destructor.NotCalled?
    ensures CanBlock(s) <==> s.channel && s.others
  {
    if s.channel && s.others {
      var events, run := MayBlock(s);
    } else {
      forall events, run | Continues(s, events, run) ensures !WaitsOnOthers(run[|events|]) {
        if s.others {
          NothingToWaitFor(s, events, run);
        } else {
          OthersStayAway(s, events, run);
        }
      }
    }
  }

  /** A destructor that was called and can go no further has returned. */
  ghost predicate NotStuck(s: State) {
    !s.destructor.NotCalled? && Stalled(s) ==> s.destructor.Joined?
  }

  ghost predicate AlwaysReturns(s: State) {
    forall events: seq<Event>, run: seq<State> :: Continues(s, events, run) ==> NotStuck(run[|events|])
  }

  /** The destructor always returns, exactly when the poller has no channel, or one without other owners. */
  lemma AlwaysReturnsIff(s: State)
    requires Valid(s) && s.destructor.NotCalled?
    ensures AlwaysReturns(s) <==> !(s.channel && s.others)
  {
    CanBlockIff(s);
    if s.channel && s.others {
      var events, run := MayBlock(s);
      ValidStays(s, events, run);
      StalledIff(run[|events|]);
      assert !NotStuck(run[|events|]);
    } else {
      forall events: seq<Event>, run: seq<State> | Continues(s, events, run) ensures NotStuck(run[|events|]) {
        ValidStays(s, events, run);
        assert !WaitsOnOthers(run[|events|]);
        if !run[|events|].destructor.NotCalled? {
          StalledIff(run[|events|]);
        }
      }
    }
  }

  /** When no other owner is around as the destructor takes the channel, at most seven more steps follow,
      and when no step is bound to follow, the destructor has returned. */
  lemma ReturnsWithinSevenSteps(s: State, events: seq<Event>, run: seq<State>)
    requires Valid(s) && s.destructor.Swapped? && !s.others && Continues(s, events, run)
    ensures |events| <= 7
    ensures Stalled(run[|events|]) ==> run[|events|].destructor.Joined?
    ensures |events| == 7 ==> run[|events|].destructor.Joined?
  {
    ShutdownIsShort(s, events, run);
    ValidStays(s, events, run);
    OthersStayAway(s, events, run);
    NoWatchAfterSwap(s, events, run);
    StalledIff(run[|events|]);
  }

  // ----- The poller -----

  class ChannelPoller {
    var channel: bool
    var shutdown: bool
    var watches: nat
    var queued: nat
    ghost var others: bool
    ghost var thread: Thread
    ghost var destructor: Destructor
    ghost var registered: nat
    ghost var delivered: nat

    ghost function Now(): State
      reads this
    {
      State(channel, shutdown, others, watches, queued, thread, destructor, registered, delivered)
    }

    constructor (channel: bool, ghost others: bool)
      ensures Now() == Initial(channel, others)
    {
      this.channel, shutdown, this.others, watches, queued := channel, false, others, 0, 0;
      thread, destructor, registered, delivered := Polling, NotCalled, 0, 0;
      new;
      DoStartWatch();
    }

    method DoStartWatch()
      modifies this
      ensures Now() == StartWatch(old(Now()))
    {
      if channel {
        watches, registered := watches + 1, registered + 1;
      }
    }

    /** The body of the thread's loop. */
    method HandleEvent() returns (stop: bool)
      requires thread.Delivering?
      modifies this
      ensures Step(old(Now()), Handle, Now()) && (stop <==> thread.Left?)
    {
      if shutdown {
        thread := Left;
        return true;
      }
      DoStartWatch();
      thread := Polling;
      return false;
    }

    /** The destructor's first critical section: the channel moves to a local pointer. */
    method TakeChannel() returns (tmpChannel: bool)
      requires destructor.NotCalled?
      modifies this
      ensures Step(old(Now()), Swap, Now()) && tmpChannel == old(channel)
    {
      tmpChannel := false;
      tmpChannel, channel := channel, tmpChannel;
      destructor := Swapped;
    }

    /** The destructor's second critical section. */
    method CloseQueue()
      requires destructor.Released?
      modifies this
      ensures Step(old(Now()), Shutdown, Now())
    {
      shutdown := true;
      destructor := Closed;
    }
  }
}
