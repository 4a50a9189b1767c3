/**
 * The per-slot reconnect rate limiter shared by the single-camera window and
 * every slot of a group window.
 *
 * A playback attempt is recorded only when the camera has a url and at least
 * one second has passed since the previous attempt; the periodic monitor asks
 * for an attempt only when the slot has a player that is neither playing nor
 * paused and more than five seconds have passed.  Clock readings are
 * parameters; the player state reported by VLC is an input.
 */
module Playback {

  /** The states a VLC media player reports. */
  datatype PlayerState = NothingSpecial | Opening | Buffering | Playing | Paused | Stopped | Ended | Error

  /** Seconds after the last attempt before the monitor retries (`RECONNECT_INTERVAL`). */
  const ReconnectInterval: real := 5.0

  /** Minimum seconds between two recorded attempts on one slot. */
  const MinAttemptSpacing: real := 1.0

  /** The states the monitor leaves alone. */
  predicate IsLive(s: PlayerState) {
    s == Playing || s == Paused
  }

  /** The effect of one call on a slot: whether playback was attempted, and the new last-attempt time. */
  datatype Outcome = Outcome(attempted: bool, last: real)

  /**
   * `start_playback` at time `now`: nothing without a url or within the
   * minimum spacing, otherwise the attempt is recorded at `now` (before the
   * player is touched, so a failing player still counts as an attempt).
   */
  function Start(url: string, last: real, now: real): (o: Outcome)
    ensures o.attempted <==> url != "" && now >= last + MinAttemptSpacing
    ensures o.attempted ==> o.last == now
    ensures !o.attempted ==> o.last == last
  {
    if url == "" then Outcome(false, last)
    else if now - last < MinAttemptSpacing then Outcome(false, last)
    else Outcome(true, now)
  }

  /**
   * One monitor tick: a slot without a player is skipped; a live player is
   * left alone; a stale one is restarted through `Start`.
   */
  function Monitor(hasPlayer: bool, url: string, state: PlayerState, last: real, now: real): (o: Outcome)
    ensures o.attempted <==> hasPlayer && !IsLive(state) && now > last + ReconnectInterval && url != ""
    ensures o.last == (if o.attempted then now else last)
  {
    if hasPlayer && !IsLive(state) && now - last > ReconnectInterval then Start(url, last, now)
    else Outcome(false, last)
  }

  /** A call the application makes on one slot. */
  datatype Event = StartCall(at: real) | MonitorTick(state: PlayerState, at: real)

  function EventTime(e: Event): real {
    match e
    case StartCall(t) => t
    case MonitorTick(_, t) => t
  }

  function Step(hasPlayer: bool, url: string, last: real, e: Event): Outcome {
    match e
    case StartCall(t) => Start(url, last, t)
    case MonitorTick(s, t) => Monitor(hasPlayer, url, s, last, t)
  }

  /** The last-attempt time after a sequence of calls. */
  function LastAfter(hasPlayer: bool, url: string, last: real, events: seq<Event>): real {
    if events == [] then last
    else Step(hasPlayer, url, LastAfter(hasPlayer, url, last, events[..|events| - 1]), events[|events| - 1]).last
  }

  /** The times at which playback was attempted during a sequence of calls. */
  function AttemptsDuring(hasPlayer: bool, url: string, last: real, events: seq<Event>): seq<real> {
    if events == [] then []
    else
      var before := LastAfter(hasPlayer, url, last, events[..|events| - 1]);
      var o := Step(hasPlayer, url, before, events[|events| - 1]);
      AttemptsDuring(hasPlayer, url, last, events[..|events| - 1])
        + (if o.attempted then [EventTime(events[|events| - 1])] else [])
  }

  /** One call attempts only at its own time, and at least the minimum spacing after `last`. */
  lemma StepSpacing(hasPlayer: bool, url: string, last: real, e: Event)
    ensures var o := Step(hasPlayer, url, last, e);
      && (o.attempted ==> o.last == EventTime(e) && last + MinAttemptSpacing <= EventTime(e))
      && (!o.attempted ==> o.last == last)
  {
  }

  /** The last step of a run, spelled out. */
  lemma AttemptsDuringSnoc(hasPlayer: bool, url: string, last: real, events: seq<Event>)
    requires events != []
    ensures var init, e := events[..|events| - 1], events[|events| - 1];
      var o := Step(hasPlayer, url, LastAfter(hasPlayer, url, last, init), e);
      && AttemptsDuring(hasPlayer, url, last, events)
        == AttemptsDuring(hasPlayer, url, last, init) + (if o.attempted then [EventTime(e)] else [])
      && LastAfter(hasPlayer, url, last, events) == o.last
  {
  }

  /**
   * Rate limiting over any run of calls, whatever the clock readings: the first attempt is
   * at least a second after the initial attempt time, each attempt at least a
   * second after the previous one, and the slot remembers the latest attempt.
   */
  lemma {:induction false} AttemptsAreSpaced(hasPlayer: bool, url: string, last: real, events: seq<Event>)
    ensures var a := AttemptsDuring(hasPlayer, url, last, events);
      && (forall i :: 0 <= i < |a| ==> last + MinAttemptSpacing <= a[i])
      && (forall i :: 0 <= i < |a| - 1 ==> a[i] + MinAttemptSpacing <= a[i + 1])
      && LastAfter(hasPlayer, url, last, events) == (if a == [] then last else a[|a| - 1])
  {
    if events != [] {
      var init, e := events[..|events| - 1], events[|events| - 1];
      AttemptsAreSpaced(hasPlayer, url, last, init);
      var l := LastAfter(hasPlayer, url, last, init);
      AttemptsDuringSnoc(hasPlayer, url, last, events);
      StepSpacing(hasPlayer, url, l, e);
    }
  }

  /** Every attempt happens at the time of one of the calls. */
  lemma {:induction false} AttemptsAtEventTimes(hasPlayer: bool, url: string, last: real, events: seq<Event>)
    ensures var a := AttemptsDuring(hasPlayer, url, last, events);
      forall i :: 0 <= i < |a| ==> exists k :: 0 <= k < |events| && EventTime(events[k]) == a[i]
  {
    if events != [] {
      var init := events[..|events| - 1];
      AttemptsAtEventTimes(hasPlayer, url, last, init);
      AttemptsDuringSnoc(hasPlayer, url, last, events);
      var a := AttemptsDuring(hasPlayer, url, last, events);
      var b := AttemptsDuring(hasPlayer, url, last, init);
      forall i | 0 <= i < |a|
        ensures exists k :: 0 <= k < |events| && EventTime(events[k]) == a[i]
      {
        if i < |b| {
          var k :| 0 <= k < |init| && EventTime(init[k]) == b[i];
          assert events[k] == init[k];
        } else {
          assert EventTime(events[|events| - 1]) == a[i];
        }
      }
    }
  }

  /** A camera without a url is never attempted, whatever the calls. */
  lemma {:induction false} NoUrlNoAttempt(hasPlayer: bool, last: real, events: seq<Event>)
    ensures AttemptsDuring(hasPlayer, "", last, events) == []
    ensures LastAfter(hasPlayer, "", last, events) == last
  {
    if events != [] {
      NoUrlNoAttempt(hasPlayer, last, events[..|events| - 1]);
    }
  }

  /** Predicate: every call in the run is a monitor tick. */
  predicate OnlyTicks(events: seq<Event>) {
    forall k :: 0 <= k < |events| ==> events[k].MonitorTick?
  }

  /** The monitor alone never retries a slot whose player is missing. */
  lemma {:induction false} MissingPlayerNeverRetried(url: string, last: real, events: seq<Event>)
    requires OnlyTicks(events)
    ensures AttemptsDuring(false, url, last, events) == []
    ensures LastAfter(false, url, last, events) == last
  {
    if events != [] {
      var init := events[..|events| - 1];
      assert OnlyTicks(init);
      MissingPlayerNeverRetried(url, last, init);
    }
  }

  /**
   * Driven by the monitor alone, attempts on one slot are more than
   * `ReconnectInterval` apart.
   */
  lemma {:induction false} TickAttemptsSpacedByInterval(hasPlayer: bool, url: string, last: real, events: seq<Event>)
    requires OnlyTicks(events)
    ensures var a := AttemptsDuring(hasPlayer, url, last, events);
      && (forall i :: 0 <= i < |a| ==> last + ReconnectInterval < a[i])
      && (forall i :: 0 <= i < |a| - 1 ==> a[i] + ReconnectInterval < a[i + 1])
      && LastAfter(hasPlayer, url, last, events) == (if a == [] then last else a[|a| - 1])
  {
    if events != [] {
      var init := events[..|events| - 1];
      assert OnlyTicks(init);
      TickAttemptsSpacedByInterval(hasPlayer, url, last, init);
      var l, e := LastAfter(hasPlayer, url, last, init), events[|events| - 1];
      AttemptsDuringSnoc(hasPlayer, url, last, events);
      assert e.MonitorTick?;
      assert Step(hasPlayer, url, l, e) == Monitor(hasPlayer, url, e.state, l, e.at);
    }
  }

  /**
   * The single-camera window: one player, one last-attempt time starting at
   * 0.0, and the log of attempt times (each one a `play` on the player).
   */
  class CamWindow {
    const url: string
    const hasPlayer: bool
    var lastPlayAttempt: real
    var attempts: seq<real>

    constructor(url: string, hasPlayer: bool)
      ensures this.url == url && this.hasPlayer == hasPlayer
      ensures lastPlayAttempt == 0.0 && attempts == []
    {
      this.url := url;
      this.hasPlayer := hasPlayer;
      lastPlayAttempt := 0.0;
      attempts := [];
    }

    /** `start_playback`, called at `now`. */
    method StartPlayback(now: real)
      modifies this
      ensures var o := Start(url, old(lastPlayAttempt), now);
        && lastPlayAttempt == o.last
        && attempts == old(attempts) + (if o.attempted then [now] else [])
    {
      if url == "" {
        return;
      }
      if now - lastPlayAttempt < MinAttemptSpacing {
        return;
      }
      lastPlayAttempt := now;
      attempts := attempts + [now];
    }

    /** `_monitor`, the periodic check, reading the player's state `state` at `now`. */
    method MonitorPlayer(state: PlayerState, now: real)
      modifies this
      ensures var o := Monitor(hasPlayer, url, state, old(lastPlayAttempt), now);
        && lastPlayAttempt == o.last
        && attempts == old(attempts) + (if o.attempted then [now] else [])
    {
      if !hasPlayer {
        return;
      }
      if !IsLive(state) {
        if now - lastPlayAttempt > ReconnectInterval {
          StartPlayback(now);
        }
      }
    }

    /** Replays a run of calls; the window's state follows `LastAfter` and `AttemptsDuring`. */
    method Run(events: seq<Event>)
      modifies this
      ensures lastPlayAttempt == LastAfter(hasPlayer, url, old(lastPlayAttempt), events)
      ensures attempts == old(attempts) + AttemptsDuring(hasPlayer, url, old(lastPlayAttempt), events)
    {
      var i := 0;
      while i < |events|
        invariant 0 <= i <= |events|
        invariant lastPlayAttempt == LastAfter(hasPlayer, url, old(lastPlayAttempt), events[..i])
        invariant attempts == old(attempts) + AttemptsDuring(hasPlayer, url, old(lastPlayAttempt), events[..i])
      {
        assert events[..i + 1][..i] == events[..i];
        match events[i] {
          case StartCall(t) => StartPlayback(t);
          case MonitorTick(s, t) => MonitorPlayer(s, t);
        }
        i := i + 1;
      }
      assert events[..i] == events;
    }
  }
}
