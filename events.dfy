/** The unified `video-*` events and the play debounce of `_emitEvent`
    (lib/video-player.ts), as a gate over a millisecond clock. */
module Events {
  import opened Wrappers
  import opened Resolver

  /** `video-load`, `video-play`, `video-pause`, `video-ended`. */
  datatype EventKind = VideoLoad | VideoPlay | VideoPause | VideoEnded

  /** The event's `detail`: the player type, `getAttribute('src')` at dispatch
      time, and whether `currentTime` and `duration` were filled in. */
  datatype Detail = Detail(playerType: PlayerType, src: Option<string>, timed: bool)

  /** A dispatched `CustomEvent` and the clock reading it was created at. */
  datatype Event = Event(kind: EventKind, detail: Detail, timeStamp: int)

  /** `_debounceInterval` */
  const DebounceInterval: int := 500
  /** How far ahead of the click an accepted poster-click play pushes the mark. */
  const PosterClickBias: int := 5000

  /** The outcome of the debounce step: the event is dropped, or it goes ahead
      and `_lastPlayEventTime` becomes `lastPlay`. */
  datatype Gate = Drop | Pass(lastPlay: int)

  /** The value `_lastPlayEventTime` is left at by a play accepted at `now`. */
  function PlayMark(now: int, initialClick: bool): int {
    if initialClick then now + PosterClickBias else now
  }

  /** The debounce at the top of `_emitEvent`. */
  function PlayGate(lastPlay: int, kind: EventKind, initialClick: bool, now: int): (g: Gate)
    ensures g.Drop? <==> kind == VideoPlay && now - lastPlay < DebounceInterval
    ensures kind != VideoPlay ==> g == Pass(lastPlay)
    ensures kind == VideoPlay && g.Pass? ==>
              now >= lastPlay + DebounceInterval && g.lastPlay == PlayMark(now, initialClick) >= now
  {
    if kind != VideoPlay then Pass(lastPlay)
    else if now - lastPlay < DebounceInterval then Drop
    else Pass(PlayMark(now, initialClick))
  }

  /** With the mark still at its initial 0, no play is accepted in the first
      half second. */
  lemma NoPlayAtStartup(initialClick: bool, now: int)
    requires now < DebounceInterval
    ensures PlayGate(0, VideoPlay, initialClick, now) == Drop
  {
  }

  /** After a play accepted from a poster click at `now`, every play before
      `now + 5500` is dropped, whatever its own flag. */
  lemma PosterClickHoldsOff(lastPlay: int, now: int, later: int, initialClick: bool)
    requires PlayGate(lastPlay, VideoPlay, true, now).Pass?
    requires later < now + PosterClickBias + DebounceInterval
    ensures PlayGate(PlayGate(lastPlay, VideoPlay, true, now).lastPlay, VideoPlay, initialClick, later) == Drop
  {
  }

  /** One attempt to emit: the arguments of an `_emitEvent` call and its clock. */
  datatype Attempt = Attempt(kind: EventKind, initialClick: bool, now: int)

  datatype Outcome = Outcome(lastPlay: int, dispatched: seq<Attempt>)

  /** A run of `_emitEvent` calls from a given mark: the final mark and the
      calls that got past the debounce, in order. */
  function Run(lastPlay: int, attempts: seq<Attempt>): Outcome
    decreases |attempts|
  {
    if attempts == [] then Outcome(lastPlay, [])
    else
      var a := attempts[0];
      match PlayGate(lastPlay, a.kind, a.initialClick, a.now)
      case Drop => Run(lastPlay, attempts[1..])
      case Pass(mark) =>
        var rest := Run(mark, attempts[1..]);
        Outcome(rest.lastPlay, [a] + rest.dispatched)
  }

  /** Dispatched plays relative to a starting mark: each is at least the
      interval past the mark, and each is at least the interval past the mark
      every earlier dispatched play left behind. */
  predicate PlaysSpaced(lastPlay: int, ds: seq<Attempt>) {
    (forall i :: 0 <= i < |ds| && ds[i].kind == VideoPlay ==> ds[i].now >= lastPlay + DebounceInterval)
    && (forall i, j :: 0 <= i < j < |ds| && ds[i].kind == VideoPlay && ds[j].kind == VideoPlay ==>
          ds[j].now >= PlayMark(ds[i].now, ds[i].initialClick) + DebounceInterval)
  }

  /** Whatever order the clock readings come in, the plays a run dispatches are
      spaced by the interval (by 5500 ms after a poster click), the final mark
      never moves back, and it covers every dispatched play. */
  lemma {:induction false} RunSpacesPlays(lastPlay: int, attempts: seq<Attempt>)
    ensures PlaysSpaced(lastPlay, Run(lastPlay, attempts).dispatched)
    ensures Run(lastPlay, attempts).lastPlay >= lastPlay
    ensures forall i :: 0 <= i < |Run(lastPlay, attempts).dispatched| ==>
              var d := Run(lastPlay, attempts).dispatched[i];
              d.kind == VideoPlay ==> Run(lastPlay, attempts).lastPlay >= PlayMark(d.now, d.initialClick)
    decreases |attempts|
  {
    if attempts != [] {
      var a := attempts[0];
      match PlayGate(lastPlay, a.kind, a.initialClick, a.now)
      case Drop =>
        RunSpacesPlays(lastPlay, attempts[1..]);
      case Pass(mark) =>
        RunSpacesPlays(mark, attempts[1..]);
        var rest := Run(mark, attempts[1..]);
        var ds := [a] + rest.dispatched;
        assert Run(lastPlay, attempts).dispatched == ds;
        assert mark >= lastPlay;
        forall i | 0 <= i < |ds| && ds[i].kind == VideoPlay
          ensures ds[i].now >= lastPlay + DebounceInterval
        {
          if i > 0 { assert ds[i] == rest.dispatched[i - 1]; }
        }
        forall i, j | 0 <= i < j < |ds| && ds[i].kind == VideoPlay && ds[j].kind == VideoPlay
          ensures ds[j].now >= PlayMark(ds[i].now, ds[i].initialClick) + DebounceInterval
        {
          assert ds[j] == rest.dispatched[j - 1];
          if i > 0 { assert ds[i] == rest.dispatched[i - 1]; }
        }
        forall i | 0 <= i < |ds| && ds[i].kind == VideoPlay
          ensures rest.lastPlay >= PlayMark(ds[i].now, ds[i].initialClick)
        {
          if i > 0 { assert ds[i] == rest.dispatched[i - 1]; }
        }
    }
  }

  /** Only plays are ever dropped: every other call is dispatched, and nothing
      is dispatched that was not asked for. */
  lemma {:induction false} RunKeepsOtherKinds(lastPlay: int, attempts: seq<Attempt>)
    ensures forall a :: a in attempts && a.kind != VideoPlay ==> a in Run(lastPlay, attempts).dispatched
    ensures forall d :: d in Run(lastPlay, attempts).dispatched ==> d in attempts
    decreases |attempts|
  {
    if attempts != [] {
      var a := attempts[0];
      assert attempts == [a] + attempts[1..];
      match PlayGate(lastPlay, a.kind, a.initialClick, a.now)
      case Drop =>
        RunKeepsOtherKinds(lastPlay, attempts[1..]);
      case Pass(mark) =>
        RunKeepsOtherKinds(mark, attempts[1..]);
    }
  }

  /** A run without plays dispatches everything and leaves the mark alone. */
  lemma {:induction false} RunWithoutPlays(lastPlay: int, attempts: seq<Attempt>)
    requires forall i :: 0 <= i < |attempts| ==> attempts[i].kind != VideoPlay
    ensures Run(lastPlay, attempts) == Outcome(lastPlay, attempts)
    decreases |attempts|
  {
    if attempts != [] {
      RunWithoutPlays(lastPlay, attempts[1..]);
      assert [attempts[0]] + attempts[1..] == attempts;
    }
  }
}
