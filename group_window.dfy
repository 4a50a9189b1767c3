/**
 * A camera-group window: the cameras of one group (at most six), padded with
 * black tiles to fill the 2x2 grid, laid out on the tile topology for their
 * count, with one player slot and one last-attempt time per frame.
 *
 * Creating a player, binding it to a frame and starting it are VLC calls; the
 * model records only whether a slot holds a player (`attachOk` says, per
 * frame, whether those calls succeed) and which slots were restarted.
 */
module GroupWindow {
  import opened Wrappers
  import opened Boundaries
  import opened Tiles
  import opened Playback
  import opened Grouping

  /** Cameras shown by one group window. */
  const MaxCamsPerGroup: nat := 6

  function Max(a: int, b: int): int {
    if a < b then b else a
  }

  /**
   * The cameras a group window keeps: the first six when there are more.
   * Slicing `cams[:6]` unconditionally, as the second script version does,
   * keeps the same cameras.
   */
  function Truncate(cams: seq<Camera>): (t: seq<Camera>)
    ensures |t| == if |cams| > MaxCamsPerGroup then MaxCamsPerGroup else |cams|
    ensures t == cams[..|t|]
  {
    if |cams| > MaxCamsPerGroup then cams[..MaxCamsPerGroup] else cams
  }

  /** A frame shows a camera or is a black padding tile. */
  datatype Frame = CamFrame(cam: Camera) | BlackTile

  /** Padding tiles added so that two or three cameras fill the 2x2 grid. */
  function Padding(n: nat): nat {
    if n == 2 then 2 else if n == 3 then 1 else 0
  }

  /** The frame list: one frame per camera, in order, then the padding tiles. */
  function BuildFrames(cams: seq<Camera>): (f: seq<Frame>)
    ensures |f| == |cams| + Padding(|cams|)
    ensures forall i :: 0 <= i < |cams| ==> f[i] == CamFrame(cams[i])
    ensures forall i :: |cams| <= i < |f| ==> f[i] == BlackTile
  {
    if cams == [] then []
    else if |cams| == 2 then [CamFrame(cams[0]), CamFrame(cams[1]), BlackTile, BlackTile]
    else if |cams| == 3 then [CamFrame(cams[0]), CamFrame(cams[1]), CamFrame(cams[2]), BlackTile]
    else seq(|cams|, i requires 0 <= i < |cams| => CamFrame(cams[i]))
  }

  /**
   * Every frame of a window over at most six cameras has a slot in its tile
   * map and an entry in its last-attempt list; two to four cameras always
   * make four frames, and the 1-, 4- and 6-camera windows fill every slot.
   */
  lemma FramesFitTopology(cams: seq<Camera>)
    requires |cams| <= MaxCamsPerGroup
    ensures var f, m := BuildFrames(cams), GetTileMap(|cams|);
      && |f| <= |m|
      && |f| <= Max(4, |cams|)
      && (2 <= |cams| <= 4 ==> |f| == 4)
      && (|cams| == 1 || |cams| == 4 || |cams| == 6 ==> |f| == |m|)
  {
  }

  /** The url `_start_playback` reads for frame `i`, empty when it has none. */
  function SlotUrl(frames: seq<Frame>, i: nat): string {
    if i < |frames| && frames[i].CamFrame? then frames[i].cam.url.GetOr("") else ""
  }

  /** Whether a player is bound to a frame. */
  datatype PlayerSlot = NoPlayer | Attached

  function HasPlayer(players: seq<PlayerSlot>, i: nat): bool {
    i < |players| && players[i] == Attached
  }

  /**
   * The first attach pass: padding gets no player; a camera gets one when
   * its entry has a url and the VLC calls succeed, and none when they raise.
   */
  function AttachAll(frames: seq<Frame>, attachOk: seq<bool>): (p: seq<PlayerSlot>)
    requires |attachOk| == |frames|
    ensures |p| == |frames|
    ensures forall i :: 0 <= i < |p| ==>
      (p[i] == Attached <==> frames[i].CamFrame? && frames[i].cam.url.Some? && attachOk[i])
  {
    seq(|frames|, i requires 0 <= i < |frames| =>
      match frames[i]
      case BlackTile => NoPlayer
      case CamFrame(cam) => if cam.url.Some? && attachOk[i] then Attached else NoPlayer)
  }

  /** Whether the monitor restarts frame `i`, given the last-attempt times before the tick. */
  predicate Retried(frames: seq<Frame>, players: seq<PlayerSlot>, states: seq<PlayerState>, last: seq<real>, now: real, i: nat)
    requires |states| == |frames| <= |last|
  {
    i < |frames| && frames[i].CamFrame?
      && Monitor(HasPlayer(players, i), SlotUrl(frames, i), states[i], last[i], now).attempted
  }

  /** The last-attempt times after the monitor has visited the first `n` frames, one frame at a time. */
  function MonitorUpTo(frames: seq<Frame>, players: seq<PlayerSlot>, states: seq<PlayerState>, last: seq<real>, now: real, n: nat): (r: seq<real>)
    requires |states| == |frames| <= |last| && n <= |frames|
    ensures |r| == |last|
  {
    if n == 0 then last
    else
      MonitorUpTo(frames, players, states, last, now, n - 1)[n - 1 := if Retried(frames, players, states, last, now, n - 1) then now else last[n - 1]]
  }

  /** After the monitor has visited the first `n` frames, exactly the restarted slots among them take the time `now`. */
  lemma {:induction false} MonitorUpToExactly(frames: seq<Frame>, players: seq<PlayerSlot>, states: seq<PlayerState>, last: seq<real>, now: real, n: nat)
    requires |states| == |frames| <= |last| && n <= |frames|
    ensures forall i :: 0 <= i < |last| ==>
      MonitorUpTo(frames, players, states, last, now, n)[i] == (if i < n && Retried(frames, players, states, last, now, i) then now else last[i])
  {
    if n > 0 {
      MonitorUpToExactly(frames, players, states, last, now, n - 1);
    }
  }

  /** The slots restarted while the monitor visits the first `n` frames, in visiting order. */
  function RetriedSlots(frames: seq<Frame>, players: seq<PlayerSlot>, states: seq<PlayerState>, last: seq<real>, now: real, n: nat): seq<nat>
    requires |states| == |frames| <= |last|
  {
    if n == 0 then []
    else
      RetriedSlots(frames, players, states, last, now, n - 1)
        + (if Retried(frames, players, states, last, now, n - 1) then [n - 1] else [])
  }

  /** Sequence concatenation is associative (lets the monitor loop regroup its restart log). */
  lemma ConcatAssoc<T>(a: seq<T>, b: seq<T>, c: seq<T>)
    ensures (a + b) + c == a + (b + c)
  {
  }

  /** Visiting frame `n` settles its time and may append it to the restarted slots. */
  lemma MonitorStep(frames: seq<Frame>, players: seq<PlayerSlot>, states: seq<PlayerState>, last: seq<real>, now: real, n: nat)
    requires |states| == |frames| <= |last| && n < |frames|
    ensures MonitorUpTo(frames, players, states, last, now, n)[n] == last[n]
    ensures MonitorUpTo(frames, players, states, last, now, n + 1)
      == MonitorUpTo(frames, players, states, last, now, n)[n := if Retried(frames, players, states, last, now, n) then now else last[n]]
    ensures RetriedSlots(frames, players, states, last, now, n + 1)
      == RetriedSlots(frames, players, states, last, now, n) + (if Retried(frames, players, states, last, now, n) then [n] else [])
  {
    MonitorUpToExactly(frames, players, states, last, now, n);
  }

  /**
   * A monitor tick restarts a slot exactly when it is no padding tile, has a
   * player, that player is neither playing nor paused, the camera has a url
   * and more than `ReconnectInterval` seconds have passed.
   */
  lemma RetriedExactly(frames: seq<Frame>, players: seq<PlayerSlot>, states: seq<PlayerState>, last: seq<real>, now: real, i: nat)
    requires |states| == |frames| <= |last| && i < |frames|
    ensures Retried(frames, players, states, last, now, i) <==>
      && frames[i].CamFrame?
      && i < |players| && players[i] == Attached
      && !IsLive(states[i])
      && frames[i].cam.url.GetOr("") != ""
      && now > last[i] + ReconnectInterval
  {
  }

  /** The restarted slots, in visiting order, are camera frames holding a player. */
  predicate RestartedSlotsValid(r: seq<nat>, n: nat, frames: seq<Frame>, players: seq<PlayerSlot>) {
    && (forall k :: 0 <= k < |r| ==> r[k] < n)
    && (forall k :: 0 <= k < |r| ==> r[k] < |frames| && frames[r[k]].CamFrame?)
    && (forall k :: 0 <= k < |r| ==> HasPlayer(players, r[k]))
    && (forall k, l :: 0 <= k < l < |r| ==> r[k] < r[l])
  }

  /** Padding tiles and slots whose attach failed are never restarted by the monitor. */
  lemma {:induction false} RetriedSlotsHavePlayers(frames: seq<Frame>, players: seq<PlayerSlot>, states: seq<PlayerState>, last: seq<real>, now: real, n: nat)
    requires |states| == |frames| <= |last|
    ensures RestartedSlotsValid(RetriedSlots(frames, players, states, last, now, n), n, frames, players)
  {
    if n > 0 {
      RetriedSlotsHavePlayers(frames, players, states, last, now, n - 1);
      var r0 := RetriedSlots(frames, players, states, last, now, n - 1);
      var r := RetriedSlots(frames, players, states, last, now, n);
      if Retried(frames, players, states, last, now, n - 1) {
        var o := Monitor(HasPlayer(players, n - 1), SlotUrl(frames, n - 1), states[n - 1], last[n - 1], now);
        assert o.attempted;
        assert r == r0 + [n - 1];
      } else {
        assert r == r0;
      }
    }
  }

  /**
   * A window over one camera has a single frame, and its slot follows the
   * same rules as the single-camera window.
   */
  lemma SingleSlotIsCamWindow(cam: Camera, players: seq<PlayerSlot>, state: PlayerState, last: real, now: real)
    ensures var frames := BuildFrames([cam]);
      && |frames| == 1
      && MonitorUpTo(frames, players, [state], [last], now, 1)
        == [Monitor(HasPlayer(players, 0), cam.url.GetOr(""), state, last, now).last]
  {
    var frames := BuildFrames([cam]);
    assert frames == [CamFrame(cam)];
  }

  /** Any two frames of a group window over at most six cameras are apart on screen. */
  lemma GroupFramesDisjoint(cams: seq<Camera>, sw: int, sh: int, i: nat, j: nat)
    requires |cams| <= MaxCamsPerGroup && sw >= 0 && sh >= 0
    requires i < |BuildFrames(cams)| && j < |BuildFrames(cams)| && i != j
    ensures PixelDisjoint(FrameRect(sw, sh, GetTileMap(|cams|), i), FrameRect(sw, sh, GetTileMap(|cams|), j))
  {
    FramesFitTopology(cams);
    FrameRectsDisjoint(sw, sh, GetTileMap(|cams|), i, j);
  }

  /**
   * `CustomLayoutWindow`: the group window whose tile map depends on the
   * number of cameras, with the reconnect monitor.
   */
  class CustomLayoutWindow {
    const cams: seq<Camera>
    const frames: seq<Frame>
    const tileMap: seq<Tile>
    var lastPlayAttempts: seq<real>
    var players: seq<PlayerSlot>
    var geometry: seq<Rect>
    var restarts: seq<nat>

    /** The layout fixed at construction: the cameras, their frames, their tile map and the attempt buffer. */
    predicate Shape() {
      && |cams| <= MaxCamsPerGroup
      && frames == BuildFrames(cams)
      && tileMap == GetTileMap(|cams|)
      && |frames| <= Max(4, |cams|)
      && |frames| <= |tileMap|
    }

    /** The facts the constructor establishes and that no method disturbs. */
    predicate Valid()
      reads this
    {
      && Shape()
      && |lastPlayAttempts| == Max(4, |cams|)
      && (players == [] || |players| == |frames|)
    }

    constructor(group: seq<Camera>)
      ensures Valid()
      ensures cams == Truncate(group)
      ensures forall i :: 0 <= i < |lastPlayAttempts| ==> lastPlayAttempts[i] == 0.0
      ensures players == [] && geometry == [] && restarts == []
    {
      var cs := group;
      if |cs| > MaxCamsPerGroup {
        cs := cs[..MaxCamsPerGroup];
      }
      var fs: seq<Frame> := [];
      var i := 0;
      while i < |cs|
        invariant 0 <= i <= |cs|
        invariant fs == seq(i, k requires 0 <= k < i => CamFrame(cs[k]))
      {
        fs := fs + [CamFrame(cs[i])];
        i := i + 1;
      }
      if |cs| == 2 {
        fs := fs + [BlackTile, BlackTile];
      } else if |cs| == 3 {
        fs := fs + [BlackTile];
      }
      assert fs == BuildFrames(cs);
      FramesFitTopology(cs);
      cams := cs;
      frames := fs;
      tileMap := GetTileMap(|cs|);
      lastPlayAttempts := seq(Max(4, |cs|), _ => 0.0);
      players := [];
      geometry := [];
      restarts := [];
    }

    /**
     * `_layout_and_attach` on an `sw` x `sh` screen: every frame gets its
     * slot's rectangle; on the first call each frame gets a player slot,
     * later calls only rebind the existing players.
     */
    method LayoutAndAttach(sw: int, sh: int, attachOk: seq<bool>)
      requires Valid() && |attachOk| == |frames|
      modifies this
      ensures Valid()
      ensures |geometry| == |frames|
      ensures forall i :: 0 <= i < |frames| ==> geometry[i] == FrameRect(sw, sh, tileMap, i)
      ensures players == if old(players) == [] then AttachAll(frames, attachOk) else old(players)
      ensures lastPlayAttempts == old(lastPlayAttempts) && restarts == old(restarts)
    {
      geometry := LayoutFrames(sw, sh);
      AttachPlayers(attachOk);
    }

    /** The geometry part of `_layout_and_attach`: each frame's rectangle, and the empty one past the tile map. */
    method LayoutFrames(sw: int, sh: int) returns (g: seq<Rect>)
      requires Shape()
      ensures |g| == |frames|
      ensures forall i :: 0 <= i < |frames| ==> g[i] == FrameRect(sw, sh, tileMap, i)
    {
      var xb := ComputeBoundaries(sw, MaxCol(tileMap));
      var yb := ComputeBoundaries(sh, MaxRow(tileMap));
      g := [];
      var idx := 0;
      while idx < |frames|
        invariant 0 <= idx <= |frames|
        invariant |g| == idx
        invariant forall i :: 0 <= i < idx ==> g[i] == FrameRect(sw, sh, tileMap, i)
      {
        var r := Rect(0, 0, 0, 0);
        if idx < |tileMap| {
          r := TileRect(xb, yb, tileMap[idx]);
        }
        assert r == FrameRect(sw, sh, tileMap, idx);
        g := g + [r];
        idx := idx + 1;
      }
    }

    /**
     * The player part of `_layout_and_attach`: on the first call each frame
     * gets a player slot; later calls only rebind the existing players.
     */
    method AttachPlayers(attachOk: seq<bool>)
      requires Valid() && |attachOk| == |frames|
      modifies this
      ensures Valid()
      ensures players == if old(players) == [] then AttachAll(frames, attachOk) else old(players)
      ensures geometry == old(geometry) && lastPlayAttempts == old(lastPlayAttempts) && restarts == old(restarts)
    {
      if players == [] {
        ghost var all := AttachAll(frames, attachOk);
        var p: seq<PlayerSlot> := [];
        var idx := 0;
        while idx < |frames|
          invariant 0 <= idx <= |frames|
          invariant p == all[..idx]
        {
          var slot := NoPlayer;
          match frames[idx] {
            case BlackTile =>
            case CamFrame(cam) =>
              if cam.url.Some? && attachOk[idx] {
                slot := Attached;
              }
          }
          assert all[..idx + 1] == all[..idx] + [slot];
          p := p + [slot];
          idx := idx + 1;
        }
        assert all[..idx] == all;
        players := p;
      }
    }

    /**
     * `_start_playback(idx)` at `now`.  The attempt is recorded before the
     * player is touched; playback actually restarts only when the slot holds
     * a player (otherwise the player call raises and is swallowed).
     */
    method StartPlayback(idx: nat, now: real)
      requires Valid()
      modifies this
      ensures Valid()
      ensures players == old(players) && geometry == old(geometry)
      ensures !(idx < |frames| && frames[idx].CamFrame?) ==>
        lastPlayAttempts == old(lastPlayAttempts) && restarts == old(restarts)
      ensures idx < |frames| && frames[idx].CamFrame? ==>
        var o := Start(SlotUrl(frames, idx), old(lastPlayAttempts[idx]), now);
        && lastPlayAttempts == old(lastPlayAttempts)[idx := o.last]
        && restarts == old(restarts) + (if o.attempted && HasPlayer(players, idx) then [idx] else [])
    {
      if idx >= |frames| || frames[idx].BlackTile? {
        return;
      }
      var url := frames[idx].cam.url.GetOr("");
      if url == "" {
        return;
      }
      if now - lastPlayAttempts[idx] < MinAttemptSpacing {
        return;
      }
      lastPlayAttempts := lastPlayAttempts[idx := now];
      if idx < |players| && players[idx] == Attached {
        restarts := restarts + [idx];
      }
    }

    /**
     * One pass of the body of `_monitor_players`: frame `idx` is restarted
     * when the monitor finds it stale (`Retried`).
     */
    method VisitFrame(idx: nat, states: seq<PlayerState>, now: real)
      requires Valid() && |states| == |frames| && idx < |frames|
      modifies this
      ensures Valid()
      ensures players == old(players) && geometry == old(geometry)
      ensures var retried := Retried(frames, players, states, old(lastPlayAttempts), now, idx);
        && lastPlayAttempts == old(lastPlayAttempts)[idx := if retried then now else old(lastPlayAttempts[idx])]
        && restarts == old(restarts) + (if retried then [idx] else [])
    {
      if frames[idx].CamFrame? {
        var hasPlayer := idx < |players| && players[idx] == Attached;
        if hasPlayer && !IsLive(states[idx]) && now - lastPlayAttempts[idx] > ReconnectInterval {
          StartPlayback(idx, now);
        }
      }
    }

    /**
     * `_monitor_players`, one tick at `now`, with `states[i]` the state the
     * player of frame `i` reports.
     */
    method MonitorPlayers(states: seq<PlayerState>, now: real)
      requires Valid() && |states| == |frames|
      modifies this
      ensures Valid()
      ensures players == old(players) && geometry == old(geometry)
      ensures lastPlayAttempts == MonitorUpTo(frames, players, states, old(lastPlayAttempts), now, |frames|)
      ensures restarts == old(restarts) + RetriedSlots(frames, players, states, old(lastPlayAttempts), now, |frames|)
    {
      ghost var last0 := lastPlayAttempts;
      var idx := 0;
      while idx < |frames|
        invariant 0 <= idx <= |frames|
        invariant Valid() && players == old(players) && geometry == old(geometry)
        invariant lastPlayAttempts == MonitorUpTo(frames, players, states, last0, now, idx)
        invariant restarts == old(restarts) + RetriedSlots(frames, players, states, last0, now, idx)
      {
        MonitorStep(frames, players, states, last0, now, idx);
        ghost var log := restarts;
        VisitFrame(idx, states, now);
        ConcatAssoc(old(restarts), RetriedSlots(frames, players, states, last0, now, idx), restarts[|log|..]);
        idx := idx + 1;
      }
    }
  }

  /** The rectangle the six-slot windows give frame `idx`: always three columns and three rows. */
  function FixedFrameRect(sw: int, sh: int, idx: nat): (r: Rect)
    ensures idx >= |HeroGrid| ==> r == Rect(0, 0, 0, 0)
  {
    if idx >= |HeroGrid| then Rect(0, 0, 0, 0)
    else TileRect(ComputeBoundaries(sw, 3), ComputeBoundaries(sh, 3), HeroGrid[idx])
  }

  /** The fixed three-way split is the split the dynamic layout picks for the six-slot map. */
  lemma FixedFrameRectIsFrameRect(sw: int, sh: int, idx: nat)
    ensures PartitionsGrid(HeroGrid)
    ensures FixedFrameRect(sw, sh, idx) == FrameRect(sw, sh, HeroGrid, idx)
  {
    HeroGridPartitionsGrid();
  }

  /**
   * The six-slot `CustomLayoutWindow` of the first two script versions: the
   * first keeps every camera, the second the first six; there is no padding
   * and no monitor.
   */
  class FixedLayoutWindow {
    const cams: seq<Camera>
    const frames: seq<Frame>
    var players: seq<PlayerSlot>
    var geometry: seq<Rect>

    predicate Valid()
      reads this
    {
      && |frames| == |cams|
      && (forall i :: 0 <= i < |cams| ==> frames[i] == CamFrame(cams[i]))
      && (players == [] || |players| == |frames|)
    }

    constructor(group: seq<Camera>, limitToSix: bool)
      ensures Valid()
      ensures cams == if limitToSix then group[..if |group| < MaxCamsPerGroup then |group| else MaxCamsPerGroup] else group
      ensures players == [] && geometry == []
    {
      var cs := if limitToSix then group[..if |group| < MaxCamsPerGroup then |group| else MaxCamsPerGroup] else group;
      var fs: seq<Frame> := [];
      var i := 0;
      while i < |cs|
        invariant 0 <= i <= |cs|
        invariant |fs| == i
        invariant forall k :: 0 <= k < i ==> fs[k] == CamFrame(cs[k])
      {
        fs := fs + [CamFrame(cs[i])];
        i := i + 1;
      }
      cams := cs;
      frames := fs;
      players := [];
      geometry := [];
    }

    /** `_layout_and_attach`: three-way split, frames past the sixth hidden, every frame attached once. */
    method LayoutAndAttach(sw: int, sh: int, attachOk: seq<bool>)
      requires Valid() && |attachOk| == |frames|
      modifies this
      ensures Valid()
      ensures |geometry| == |frames|
      ensures forall i :: 0 <= i < |frames| ==> geometry[i] == FixedFrameRect(sw, sh, i)
      ensures players == if old(players) == [] then AttachAll(frames, attachOk) else old(players)
    {
      var xb := ComputeBoundaries(sw, 3);
      var yb := ComputeBoundaries(sh, 3);
      var g: seq<Rect> := [];
      var idx := 0;
      while idx < |frames|
        invariant 0 <= idx <= |frames|
        invariant |g| == idx
        invariant forall i :: 0 <= i < idx ==> g[i] == FixedFrameRect(sw, sh, i)
      {
        if idx >= |HeroGrid| {
          g := g + [Rect(0, 0, 0, 0)];
        } else {
          g := g + [TileRect(xb, yb, HeroGrid[idx])];
        }
        idx := idx + 1;
      }
      geometry := g;
      if players == [] {
        var p: seq<PlayerSlot> := [];
        idx := 0;
        while idx < |frames|
          invariant 0 <= idx <= |frames|
          invariant p == AttachAll(frames, attachOk)[..idx]
        {
          var cam := frames[idx].cam;
          if cam.url.Some? && attachOk[idx] {
            p := p + [Attached];
          } else {
            p := p + [NoPlayer];
          }
          idx := idx + 1;
        }
        players := p;
      }
    }
  }

  /**
   * The first script version keeps every camera of the list: with more than
   * six, the frames past the sixth get an empty rectangle, yet each still
   * had a player attached.
   */
  lemma HiddenFramesStillAttached(cams: seq<Camera>, attachOk: seq<bool>, sw: int, sh: int, i: nat)
    requires |attachOk| == |cams| && MaxCamsPerGroup <= i < |cams|
    requires cams[i].url.Some? && attachOk[i]
    ensures var frames := seq(|cams|, k requires 0 <= k < |cams| => CamFrame(cams[k]));
      && FixedFrameRect(sw, sh, i) == Rect(0, 0, 0, 0)
      && AttachAll(frames, attachOk)[i] == Attached
  {
  }
}
