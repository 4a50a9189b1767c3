/**
 * The Socket.IO client hook: the room, username and event name it was set
 * up with, whether it is connected, and the join-room messages it emits.
 * The transport itself is left out; the socket's own `connected` flag is an
 * input where the client consults it.
 */
module Socket {
  import opened Wrappers

  const DefaultRoom: string := "room-count-in-department"
  const DefaultUsername: string := "FE_CameraAI"
  const DefaultEventName: string := "broadcast-count-in-department"
  const RoomJoinedEvent: string := "room-count-in-department-joined"

  /** The option values the client holds. */
  datatype Settings = Settings(roomId: string, username: string, eventName: string)

  /** A `join-room` message: the room and the username it was sent with. */
  datatype JoinMessage = JoinMessage(roomId: string, username: string)

  function Lookup(options: map<string, string>, key: string, default: string): string {
    if key in options then options[key] else default
  }

  /** The settings at construction: each option present, or its default (`options or {}`). */
  function InitialSettings(options: Option<map<string, string>>): (s: Settings)
    ensures var o := options.GetOr(map[]);
      && s.roomId == (if "roomId" in o then o["roomId"] else DefaultRoom)
      && s.username == (if "username" in o then o["username"] else DefaultUsername)
      && s.eventName == (if "eventName" in o then o["eventName"] else DefaultEventName)
  {
    var o := if options.Some? then options.value else map[];
    Settings(Lookup(o, "roomId", DefaultRoom), Lookup(o, "username", DefaultUsername),
      Lookup(o, "eventName", DefaultEventName))
  }

  /** No options and an empty dict set the client up alike, with the three defaults. */
  lemma NoOptionsMeansDefaults()
    ensures InitialSettings(None) == InitialSettings(Some(map[]))
      == Settings(DefaultRoom, DefaultUsername, DefaultEventName)
  {
  }

  /**
   * The field updates of `update_options`: a field is replaced when its key
   * is present and the value differs.
   */
  function ApplyOptions(s: Settings, options: map<string, string>): (r: Settings)
    ensures r.roomId == (if "roomId" in options then options["roomId"] else s.roomId)
    ensures r.username == (if "username" in options then options["username"] else s.username)
    ensures r.eventName == (if "eventName" in options then options["eventName"] else s.eventName)
  {
    var room := if "roomId" in options && options["roomId"] != s.roomId then options["roomId"] else s.roomId;
    var user := if "username" in options && options["username"] != s.username then options["username"] else s.username;
    var event := if "eventName" in options && options["eventName"] != s.eventName then options["eventName"] else s.eventName;
    Settings(room, user, event)
  }

  /** Whether `update_options` re-emits the join: the room or username changed while connected. */
  function Rejoins(s: Settings, options: map<string, string>, connected: bool): (b: bool)
    ensures b <==> (connected
      && (ApplyOptions(s, options).roomId != s.roomId || ApplyOptions(s, options).username != s.username))
  {
    var roomChanged := "roomId" in options && options["roomId"] != s.roomId;
    var usernameChanged := "username" in options && options["username"] != s.username;
    (roomChanged || usernameChanged) && connected
  }

  /** Applying the same options a second time changes nothing and emits nothing. */
  lemma ApplyOptionsIdempotent(s: Settings, options: map<string, string>, connected: bool)
    ensures ApplyOptions(ApplyOptions(s, options), options) == ApplyOptions(s, options)
    ensures !Rejoins(ApplyOptions(s, options), options, connected)
  {
  }

  /** Options naming none of the three keys change nothing. */
  lemma UnrelatedOptionsChangeNothing(s: Settings, options: map<string, string>, connected: bool)
    requires "roomId" !in options && "username" !in options && "eventName" !in options
    ensures ApplyOptions(s, options) == s && !Rejoins(s, options, connected)
  {
  }

  /** Changing only the event name never rejoins the room. */
  lemma EventNameOnlyNeverRejoins(s: Settings, options: map<string, string>, connected: bool)
    requires forall k :: k in options ==> k == "eventName"
    ensures !Rejoins(s, options, connected)
    ensures ApplyOptions(s, options).roomId == s.roomId && ApplyOptions(s, options).username == s.username
  {
  }

  /** A disconnected client never rejoins, whatever the options. */
  lemma NoRejoinWhileDisconnected(s: Settings, options: map<string, string>)
    ensures !Rejoins(s, options, false)
  {
  }

  /** What happens to the client: the server's connect and disconnect events, option updates, and `disconnect()`. */
  datatype ClientEvent =
    | ConnectEvent
    | DisconnectEvent
    | UpdateCall(options: map<string, string>)
    | DisconnectCall(socketConnected: bool)

  datatype ClientState = ClientState(settings: Settings, connected: bool)

  /** The join the client emits in state `st` when asked to join (`_join_room`). */
  function JoinIfConnected(st: ClientState): (j: seq<JoinMessage>)
    ensures |j| <= 1
    ensures j != [] <==> st.connected
    ensures j != [] ==> j[0] == JoinMessage(st.settings.roomId, st.settings.username)
  {
    if st.connected then [JoinMessage(st.settings.roomId, st.settings.username)] else []
  }

  /** One event: the new state and the joins it emits. */
  function Step(st: ClientState, e: ClientEvent): (ClientState, seq<JoinMessage>) {
    match e
    case ConnectEvent =>
      var st' := st.(connected := true);
      (st', JoinIfConnected(st'))
    case DisconnectEvent => (st.(connected := false), [])
    case UpdateCall(o) =>
      var st' := st.(settings := ApplyOptions(st.settings, o));
      (st', if Rejoins(st.settings, o, st.connected) then JoinIfConnected(st') else [])
    case DisconnectCall(sc) => (if sc then st.(connected := false) else st, [])
  }

  /** The state after a run of events. */
  function StateAfter(st: ClientState, events: seq<ClientEvent>): ClientState {
    if events == [] then st else Step(StateAfter(st, events[..|events| - 1]), events[|events| - 1]).0
  }

  /** The joins emitted during a run of events. */
  function JoinsDuring(st: ClientState, events: seq<ClientEvent>): seq<JoinMessage> {
    if events == [] then []
    else JoinsDuring(st, events[..|events| - 1]) + Step(StateAfter(st, events[..|events| - 1]), events[|events| - 1]).1
  }

  /** Predicate: the run contains no connect event. */
  predicate NoConnect(events: seq<ClientEvent>) {
    forall k :: 0 <= k < |events| ==> !events[k].ConnectEvent?
  }

  /** A client that starts disconnected and never sees a connect event emits no join and stays disconnected. */
  lemma {:induction false} NoJoinWithoutConnect(st: ClientState, events: seq<ClientEvent>)
    requires !st.connected && NoConnect(events)
    ensures JoinsDuring(st, events) == []
    ensures !StateAfter(st, events).connected
  {
    if events != [] {
      var init := events[..|events| - 1];
      assert NoConnect(init);
      NoJoinWithoutConnect(st, init);
    }
  }

  /** Every join emitted during a run names a room and username the client held at some point. */
  lemma {:induction false} JoinsCarryHeldSettings(st: ClientState, events: seq<ClientEvent>)
    ensures forall j :: j in JoinsDuring(st, events) ==>
      exists k :: 0 <= k <= |events| && HoldsJoin(StateAfter(st, events[..k]), j)
  {
    if events != [] {
      var init, e := events[..|events| - 1], events[|events| - 1];
      JoinsCarryHeldSettings(st, init);
      var before := StateAfter(st, init);
      forall j | j in JoinsDuring(st, events)
        ensures exists k :: 0 <= k <= |events| && HoldsJoin(StateAfter(st, events[..k]), j)
      {
        if j in JoinsDuring(st, init) {
          var k :| 0 <= k <= |init| && HoldsJoin(StateAfter(st, init[..k]), j);
          assert init[..k] == events[..k];
        } else {
          assert j in Step(before, e).1;
          assert events[..|events|] == events;
          assert HoldsJoin(StateAfter(st, events[..|events|]), j);
        }
      }
    }
  }

  /** The join a client in state `st` would send. */
  predicate HoldsJoin(st: ClientState, j: JoinMessage) {
    j == JoinMessage(st.settings.roomId, st.settings.username)
  }

  /** The options a client ends with depend only on the update calls, not on connection events. */
  lemma {:induction false} ConnectionEventsKeepSettings(st: ClientState, events: seq<ClientEvent>)
    requires forall k :: 0 <= k < |events| ==> !events[k].UpdateCall?
    ensures StateAfter(st, events).settings == st.settings
  {
    if events != [] {
      ConnectionEventsKeepSettings(st, events[..|events| - 1]);
    }
  }

  /**
   * `SocketClient`.  The handler for incoming payloads is registered once,
   * under the event name held at set-up (`subscribedEvent`); later changes
   * of `eventName` do not move it.
   */
  class SocketClient {
    const subscribedEvent: string
    const roomJoined: string
    var roomId: string
    var username: string
    var eventName: string
    var isConnected: bool
    var emitted: seq<JoinMessage>

    function State(): ClientState
      reads this
    {
      ClientState(Settings(roomId, username, eventName), isConnected)
    }

    constructor(options: Option<map<string, string>>)
      ensures Settings(roomId, username, eventName) == InitialSettings(options)
      ensures subscribedEvent == eventName && roomJoined == RoomJoinedEvent
      ensures !isConnected && emitted == []
    {
      var o := if options.Some? then options.value else map[];
      roomId := Lookup(o, "roomId", DefaultRoom);
      username := Lookup(o, "username", DefaultUsername);
      eventName := Lookup(o, "eventName", DefaultEventName);
      roomJoined := RoomJoinedEvent;
      subscribedEvent := eventName;
      isConnected := false;
      emitted := [];
    }

    /** `_join_room`: one join with the current room and username, only while connected. */
    method JoinRoom()
      modifies this
      ensures State() == old(State())
      ensures emitted == old(emitted) + JoinIfConnected(State())
    {
      if !isConnected {
        return;
      }
      emitted := emitted + [JoinMessage(roomId, username)];
    }

    /** The connect handler: mark connected, then join. */
    method OnConnect()
      modifies this
      ensures State() == Step(old(State()), ConnectEvent).0
      ensures emitted == old(emitted) + Step(old(State()), ConnectEvent).1
    {
      isConnected := true;
      JoinRoom();
    }

    /** The disconnect handler. */
    method OnDisconnect()
      modifies this
      ensures State() == Step(old(State()), DisconnectEvent).0 && emitted == old(emitted)
    {
      isConnected := false;
    }

    /** `disconnect()`: clears the flag only when the socket reports itself connected. */
    method Disconnect(socketConnected: bool)
      modifies this
      ensures State() == Step(old(State()), DisconnectCall(socketConnected)).0 && emitted == old(emitted)
    {
      if socketConnected {
        isConnected := false;
      }
    }

    /** `update_options`. */
    method UpdateOptions(options: map<string, string>)
      modifies this
      ensures State() == Step(old(State()), UpdateCall(options)).0
      ensures emitted == old(emitted) + Step(old(State()), UpdateCall(options)).1
      ensures "eventName" in options ==> (eventName == subscribedEvent <==> options["eventName"] == subscribedEvent)
    {
      var roomChanged := false;
      var usernameChanged := false;
      if "roomId" in options && options["roomId"] != roomId {
        roomId := options["roomId"];
        roomChanged := true;
      }
      if "username" in options && options["username"] != username {
        username := options["username"];
        usernameChanged := true;
      }
      if "eventName" in options && options["eventName"] != eventName {
        eventName := options["eventName"];
      }
      if (roomChanged || usernameChanged) && isConnected {
        JoinRoom();
      }
    }

    /** Whether an incoming event reaches the message callback: only under the name subscribed at set-up. */
    method Receive(event: string) returns (delivered: bool)
      ensures delivered <==> event == subscribedEvent
    {
      delivered := event == subscribedEvent;
    }

    /** Replays a run of events; the client follows `StateAfter` and `JoinsDuring`. */
    method Run(events: seq<ClientEvent>)
      modifies this
      ensures State() == StateAfter(old(State()), events)
      ensures emitted == old(emitted) + JoinsDuring(old(State()), events)
    {
      var i := 0;
      while i < |events|
        invariant 0 <= i <= |events|
        invariant State() == StateAfter(old(State()), events[..i])
        invariant emitted == old(emitted) + JoinsDuring(old(State()), events[..i])
      {
        assert events[..i + 1][..i] == events[..i];
        match events[i] {
          case ConnectEvent => OnConnect();
          case DisconnectEvent => OnDisconnect();
          case UpdateCall(o) => UpdateOptions(o);
          case DisconnectCall(sc) => Disconnect(sc);
        }
        i := i + 1;
      }
      assert events[..i] == events;
    }
  }
}
