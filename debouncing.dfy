/** search.go's `debounce`: every change of the search text stops the pending
    timer, cancels the context of the previous fetch, and installs a fresh
    context, callback and timer. Time is explicit: a `do` happens at a given
    instant, and a timer fires when the clock reaches its deadline. The
    contexts and timers `do` creates are recorded by index, so that what
    happens to the old ones can be stated. */
module Debouncing {
  import opened Common

  /** The search field's debounce duration, in milliseconds. */
  const SearchDelay := 200

  datatype TimerState = Pending | Stopped | Fired

  /** The callback a timer runs: the search fetch for `text`, bound to the
      context with index `ctx`. */
  datatype Callback = Callback(ctx: nat, text: seq<byte>)

  datatype Timer = Timer(deadline: int, run: Callback, state: TimerState)

  /** The struct's fields (`dur`, `timer`, `cancel`, `callback`: `timer` and
      `cancel` hold the index of the timer or context they refer to) and every
      context and timer it created: `cancelled[i]` says whether context `i` is
      cancelled. */
  datatype DebounceState = DebounceState(
    dur: int,
    timer: Option<nat>,
    cancel: Option<nat>,
    callback: Option<Callback>,
    cancelled: seq<bool>,
    timers: seq<Timer>)

  /** What `do` keeps true: one context per timer, the fields refer to the
      newest ones, and every context but the newest is cancelled and every
      timer but the newest has stopped or fired. */
  predicate Valid(s: DebounceState)
  {
    && |s.timers| == |s.cancelled|
    && s.timer == s.cancel
    && (s.timer.None? <==> s.timers == [])
    && (s.timer.None? ==> s.callback.None?)
    && (s.timer.Some? ==> s.timer.value == |s.timers| - 1 && s.callback == Some(s.timers[s.timer.value].run))
    && (forall i | 0 <= i < |s.timers| :: s.timers[i].run.ctx == i)
    && (forall i | 0 <= i < |s.timers| - 1 :: s.cancelled[i] && s.timers[i].state != Pending)
  }

  /** The zero value of the struct with its duration set. */
  function Init(dur: int): (s: DebounceState)
    ensures Valid(s)
  {
    DebounceState(dur, None, None, None, [], [])
  }

  /** `Timer.Stop`: a pending timer stops; a stopped or fired one is left as
      it is. */
  function Stop(t: Timer): Timer
  {
    if t.state == Pending then t.(state := Stopped) else t
  }

  /** `do` at time `now` for a change to `text`. */
  function AfterDo(s: DebounceState, now: int, text: seq<byte>): DebounceState
    requires Valid(s)
  {
    var s1 :=
      if s.timer.Some? then
        s.(timers := s.timers[s.timer.value := Stop(s.timers[s.timer.value])],
           cancelled := s.cancelled[s.cancel.value := true])
      else s;
    var id := |s1.cancelled|;
    var cb := Callback(id, text);
    s1.(cancelled := s1.cancelled + [false],
        cancel := Some(id),
        callback := Some(cb),
        timers := s1.timers + [Timer(now + s.dur, cb, Pending)],
        timer := Some(id))
  }

  /** Timer `id` fires if it is still pending; otherwise nothing happens. */
  function AfterFire(s: DebounceState, id: nat): DebounceState
  {
    if id < |s.timers| && s.timers[id].state == Pending then
      s.(timers := s.timers[id := s.timers[id].(state := Fired)])
    else s
  }

  /** `do` installs a fresh, uncancelled context, a callback bound to it and
      to the text, and a pending timer due `dur` later; it keeps the
      invariant; and what it created before keeps its deadline and callback. */
  lemma DoInstallsFresh(s: DebounceState, now: int, text: seq<byte>)
    requires Valid(s)
    ensures var t := AfterDo(s, now, text);
      var id := |s.timers|;
      && Valid(t)
      && |t.timers| == id + 1
      && t.cancel == Some(id) && t.timer == Some(id)
      && t.callback == Some(Callback(id, text))
      && !t.cancelled[id]
      && t.timers[id] == Timer(now + s.dur, Callback(id, text), Pending)
      && (forall i | 0 <= i < id :: t.timers[i].deadline == s.timers[i].deadline && t.timers[i].run == s.timers[i].run)
  {
  }

  /** When a timer was already installed, `do` stops it and cancels its
      context; nothing else that existed changes. */
  lemma DoCancelsPrevious(s: DebounceState, now: int, text: seq<byte>)
    requires Valid(s) && s.timer.Some?
    ensures var t := AfterDo(s, now, text);
      var prev := s.timer.value;
      && t.cancelled[prev]
      && t.timers[prev].state == (if s.timers[prev].state == Fired then Fired else Stopped)
      && t.cancelled[..prev] == s.cancelled[..prev]
      && t.timers[..prev] == s.timers[..prev]
  {
  }

  /** The first `do` cancels nothing: its context is the only one. */
  lemma FirstDoCancelsNothing(s: DebounceState, now: int, text: seq<byte>)
    requires Valid(s) && s.timer.None?
    ensures AfterDo(s, now, text).cancelled == [false]
  {
  }

  /** A context that is still live is the newest one, so only the newest
      fetch can ever show its result. */
  lemma LiveIsNewest(s: DebounceState, id: nat)
    requires Valid(s) && id < |s.cancelled| && !s.cancelled[id]
    ensures id == |s.cancelled| - 1
  {
  }

  // ---------------------------------------------------------------------------
  // Sequences of events

  /** What happens to the controller: a text change at a given time, or a
      timer firing. */
  datatype Event = Changed(now: int, text: seq<byte>) | Fire(id: nat)

  function Apply(s: DebounceState, e: Event): (t: DebounceState)
    requires Valid(s)
    ensures Valid(t)
  {
    match e
    case Changed(now, text) => AfterDo(s, now, text)
    case Fire(id) => AfterFire(s, id)
  }

  /** The state after the events, applied from first to last. */
  function Replay(s: DebounceState, events: seq<Event>): (t: DebounceState)
    requires Valid(s)
    ensures Valid(t)
    decreases |events|
  {
    if events == [] then s else Replay(Apply(s, events[0]), events[1..])
  }

  function CountChanges(events: seq<Event>): nat
  {
    if events == [] then 0 else (if events[0].Changed? then 1 else 0) + CountChanges(events[1..])
  }

  /** However text changes and timer firings interleave, one context is
      created per change and every context except the most recent one is
      cancelled. */
  lemma {:induction false} ReplayCancelsAllButNewest(s: DebounceState, events: seq<Event>)
    requires Valid(s)
    ensures var t := Replay(s, events);
      && |t.cancelled| == |s.cancelled| + CountChanges(events)
      && forall i | 0 <= i < |t.cancelled| - 1 :: t.cancelled[i]
    decreases |events|
  {
    if events != [] {
      ReplayCancelsAllButNewest(Apply(s, events[0]), events[1..]);
    }
  }

  // ---------------------------------------------------------------------------
  // Typing against the clock

  /** A keystroke: the instant it happens and the text of the field after it. */
  datatype Keystroke = Keystroke(time: int, text: seq<byte>)

  /** Lets the clock run to `now`: the newest timer fires if it is pending and
      due by then (the older ones are never pending). */
  function Advance(s: DebounceState, now: int): (t: DebounceState)
    requires Valid(s)
    ensures Valid(t)
  {
    if s.timer.Some? && s.timers[s.timer.value].state == Pending && s.timers[s.timer.value].deadline <= now then
      AfterFire(s, s.timer.value)
    else s
  }

  /** The controller after the keystrokes, each preceded by whatever timer
      fired before it. */
  function Typed(dur: int, keys: seq<Keystroke>): (t: DebounceState)
    ensures Valid(t)
  {
    if keys == [] then Init(dur)
    else
      var last := keys[|keys| - 1];
      AfterDo(Advance(Typed(dur, keys[..|keys| - 1]), last.time), last.time, last.text)
  }

  /** After a run of keystrokes, the timer of keystroke `i` is due `dur` after
      it and fetches its text; it has fired exactly when the next keystroke
      came no earlier than its deadline, it was stopped otherwise, and only the
      timer of the last keystroke is still pending. */
  lemma {:induction false} TypedFires(dur: int, keys: seq<Keystroke>)
    ensures var t := Typed(dur, keys);
      && |t.timers| == |keys|
      && (forall i | 0 <= i < |keys| ::
            t.timers[i].deadline == keys[i].time + dur && t.timers[i].run == Callback(i, keys[i].text))
      && (forall i | 0 <= i < |keys| - 1 ::
            t.timers[i].state == (if keys[i].time + dur <= keys[i + 1].time then Fired else Stopped))
      && (keys != [] ==> t.timers[|keys| - 1].state == Pending)
  {
    if keys != [] {
      var n := |keys|;
      var prefix := keys[..n - 1];
      TypedFires(dur, prefix);
      var p := Typed(dur, prefix);
      var a := Advance(p, keys[n - 1].time);
      var t := Typed(dur, keys);
      assert t == AfterDo(a, keys[n - 1].time, keys[n - 1].text);
      forall i | 0 <= i < n - 1
        ensures t.timers[i].deadline == keys[i].time + dur && t.timers[i].run == Callback(i, keys[i].text)
      {
        assert prefix[i] == keys[i];
      }
      forall i | 0 <= i < n - 1
        ensures t.timers[i].state == (if keys[i].time + dur <= keys[i + 1].time then Fired else Stopped)
      {
        assert prefix[i] == keys[i];
        if i < n - 2 {
          assert prefix[i + 1] == keys[i + 1];
        }
      }
    }
  }

  /** Keystrokes at 0, 50, 100 and 350 ms with the 200 ms delay: the first two
      timers are stopped, the third fires at 300 ms with the text typed at
      100 ms, and the fourth is still pending (due at 550 ms). */
  lemma TypingExample(a: seq<byte>, b: seq<byte>, c: seq<byte>, d: seq<byte>)
    ensures var t := Typed(SearchDelay, [Keystroke(0, a), Keystroke(50, b), Keystroke(100, c), Keystroke(350, d)]);
      && t.timers[0].state == Stopped
      && t.timers[1].state == Stopped
      && t.timers[2] == Timer(300, Callback(2, c), Fired)
      && t.timers[3] == Timer(550, Callback(3, d), Pending)
  {
    TypedFires(SearchDelay, [Keystroke(0, a), Keystroke(50, b), Keystroke(100, c), Keystroke(350, d)]);
  }

  /** The debounce struct, updated in place by `do`. It also records the
      contexts and timers it has created, so that its methods can say what
      they do to them. */
  class Debouncer {
    const dur: int
    var timer: Option<nat>
    var cancel: Option<nat>
    var callback: Option<Callback>
    var cancelled: seq<bool>
    var timers: seq<Timer>

    function Model(): DebounceState
      reads this
    {
      DebounceState(dur, timer, cancel, callback, cancelled, timers)
    }

    constructor (dur: int)
      ensures Model() == Init(dur)
    {
      this.dur := dur;
      timer, cancel, callback := None, None, None;
      cancelled, timers := [], [];
    }

    /** `do`: stop the pending timer and cancel its context, then create a
        child context, bind the callback to it and start a new timer. */
    method Do(now: int, text: seq<byte>)
      requires Valid(Model())
      modifies this
      ensures Model() == AfterDo(old(Model()), now, text)
    {
      if timer.Some? {
        timers := timers[timer.value := Stop(timers[timer.value])];
        cancelled := cancelled[cancel.value := true];
      }
      var id := |cancelled|;
      cancelled := cancelled + [false];
      cancel := Some(id);
      callback := Some(Callback(id, text));
      timers := timers + [Timer(now + dur, callback.value, Pending)];
      timer := Some(id);
    }

    /** The clock reaches the deadline of timer `id`: if it is pending, it
        fires and returns the callback it runs. */
    method Fire(id: nat) returns (run: Option<Callback>)
      requires Valid(Model())
      modifies this
      ensures Model() == AfterFire(old(Model()), id) && Valid(Model())
      ensures cancelled == old(cancelled) && |timers| == |old(timers)|
      ensures run == if id < |old(timers)| && old(timers)[id].state == Pending then Some(old(timers)[id].run) else None
    {
      run := None;
      if id < |timers| && timers[id].state == Pending {
        run := Some(timers[id].run);
        timers := timers[id := timers[id].(state := Fired)];
      }
    }
  }
}
