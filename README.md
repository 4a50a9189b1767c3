# Camera video wall: a Dafny model

The system shows a list of RTSP cameras on screen. The cameras are grouped by
area (by name in one script version), and each group gets a window of at most
six cameras. The window's tile topology depends on the group size:

- one camera is full screen;
- two to four cameras use a 2x2 grid, padded with black tiles;
- five or six cameras use a 3x3 grid with one 2x2 hero slot.

Frame rectangles come from an integer boundary partition of the screen,
`compute_boundaries`, which rounds half to even as Python's `round` does.
Each slot has a player and a last-attempt time. A monitor restarts players
that are neither playing nor paused. Restarts are rate-limited: more than
five seconds must pass since the last attempt, and any two attempts are at
least one second apart.

A second program listens on a Socket.IO room for per-department counts of
prisoners, officers and relatives. The latest report per department is kept
(a new report overwrites the old one), and the counts are summed per area
through a static department directory. Departments without an area are
reported under a placeholder built from the first eight characters of their
id.

The modules follow the program's structure:

- `Boundaries`: `compute_boundaries`.
- `Tiles`: the tile maps and frame geometry.
- `Playback`: the per-slot rate limiter and the single-camera window.
- `Grouping`: the grouping pass of `main`.
- `GroupWindow`: the group windows (`CustomLayoutWindow`, one version with a
  dynamic topology and a monitor, and the fixed six-slot versions).
- `Departments`: the directory.
- `AreaCounts`: the count tracker and the message filter.
- `Socket`: the room/username/event-name state machine of the socket client.
- `Wrappers`: `Option`.

Clock readings, the screen size, the player states VLC reports, whether the
VLC calls of an attach succeed, decoded JSON payloads and the socket's own
`connected` flag are all inputs.

## Model

| member | source | states |
|---|---|---|
| Boundaries.RoundHalfEven | multiplecam.py:56 | the result is within half a unit of `p / q`, and is even on an exact tie (Python's `round`) |
| Boundaries.RoundHalfEvenUnique | multiplecam.py:56 | any integer that is within half a unit and even on ties is that rounding (the rounding is well defined) |
| Boundaries.RoundHalfEvenMonotone | multiplecam.py:56 | rounding is monotone in the numerator |
| Boundaries.ComputeBoundaries | multiplecam.py:54-56 | `segments + 1` boundaries, the first 0 and the last `total`, each within half a pixel of `i * total / segments` |
| Boundaries.BoundariesAreRoundings | multiplecam.py:56 | each boundary is `i * total / segments` rounded half to even, so a tie goes to the even neighbour |
| Boundaries.BoundariesMonotone | multiplecam.py:54-56 | on a non-negative span the boundaries never decrease |
| Boundaries.WidthsTelescope | multiplecam.py:55 | the widths between consecutive boundaries sum to last minus first |
| Boundaries.BoundariesSumToSpan | draft.py:56-63 | the segment widths sum to the total (no pixel loss), as the docstring promises |
| Boundaries.SegmentWidthNearIdeal | multiplecam.py:54-56 | every segment width times `segments` lies strictly within `segments` of `total` |
| Boundaries.ComputeBoundariesExamples | multiplecam.py:56 | worked values: 1536 into 3, 1535 into 3, and the ties 3 into 2 and 1 into 2 (rounded to even) |
| Tiles.MaxCol | multiplecam.py:182 | no slot ends past the computed column count |
| Tiles.MaxColAttained | multiplecam.py:182 | some slot of a non-empty map ends on the column count, so it is the maximum |
| Tiles.MaxRow | multiplecam.py:183 | no slot ends past the computed row count |
| Tiles.MaxRowAttained | multiplecam.py:183 | some slot of a non-empty map ends on the row count, so it is the maximum |
| Tiles.GetTileMap | multiplecam.py:153-173 | the map partitions its grid; 1 camera gives the 1x1 map, 2-4 the 2x2 map, anything else the 3x3 six-slot map |
| Tiles.TopologiesPartitionGrid | multiplecam.py:153-173 | each of the three maps has pairwise-disjoint slots covering every cell of its 1x1, 2x2 or 3x3 grid |
| Tiles.HeroGridCellCounts | multiplecam.py:167-172 | the hero slot covers 4 cells and the five others 1 cell each |
| Tiles.FrameRect | multiplecam.py:187-199 | rectangle widths and heights are never negative, and a frame with no slot gets the empty rectangle |
| Tiles.FrameRectSpan | multiplecam.py:192-199 | on a non-negative screen a slot's rectangle is exactly its boundary span and lies on the screen |
| Tiles.FrameRectsDisjoint | multiplecam.py:175-199 | frames of two different slots share no pixel |
| Tiles.LayoutCoversScreen | multiplecam.py:175-199 | for 1, 4 and 6 cameras the frame areas add up to the screen area (no gap) |
| Tiles.SlotArea | multiplecam.py:192-199 | a slot's area is the product of its column and row boundary spans |
| Tiles.HeroSlotRects | multiplecam.py:165-173 | on the six-slot map the hero slot spans two columns and two rows from the origin, slots 1-3 stack in the third column and slots 4-5 fill the bottom row beside it |
| Tiles.HeroGridExample | multiplecam.py:165-173 | on 1920x1080 the hero slot is 1280x720 at the origin and slots 1 and 5 are 640x360 at (1280,0) and (640,720) |
| Playback.Start | multiplecam.py:255-266 | an attempt is recorded exactly when the url is non-empty and at least one second has passed, and then at `now` |
| Playback.Monitor | multiplecam.py:235-244 | a monitor tick attempts exactly when there is a player, it is neither playing nor paused, more than five seconds have passed and the url is non-empty |
| Playback.StepSpacing | multiplecam.py:263-266 | one call attempts only at its own time and at least a second after the previous attempt |
| Playback.AttemptsAreSpaced | multiplecam.py:255-266 | over any run of calls, whatever the clock readings, attempts are one second apart and the slot remembers the latest one |
| Playback.AttemptsAtEventTimes | multiplecam.py:263-266 | every attempt happens at the time of one of the calls |
| Playback.NoUrlNoAttempt | multiplecam.py:260-262 | a camera without a url is never attempted |
| Playback.MissingPlayerNeverRetried | multiplecam.py:240-241 | the monitor alone never retries a slot whose player is missing |
| Playback.TickAttemptsSpacedByInterval | multiplecam.py:241-244 | driven by the monitor alone, attempts are more than `RECONNECT_INTERVAL` apart |
| Playback.CamWindow.constructor | draft.py:104 | a new window has last-attempt time 0.0 and no attempts |
| Playback.CamWindow.StartPlayback | draft.py:124-138 | updates the last-attempt time and the attempt log as `Start` says |
| Playback.CamWindow.MonitorPlayer | draft.py:140-147 | updates the last-attempt time and the attempt log as `Monitor` says |
| Playback.CamWindow.Run | draft.py:124-147 | after any run of calls the window's state is `LastAfter` and its log `AttemptsDuring` |
| Grouping.GroupCameras | multiplecam.py:316-321 | the dict's keys, in insertion order, are the distinct keys by first occurrence, and each group is the cameras with that key in list order |
| Grouping.MembersHaveKey | multiplecam.py:318-321 | every camera of a group carries the group's key |
| Grouping.MembersExact | multiplecam.py:316-321 | a group holds exactly the cameras of the list with its key |
| Grouping.KeysExact | multiplecam.py:319-320 | the keys occur once each and are exactly the keys that occur in the list |
| Grouping.GroupsArePermutation | multiplecam.py:316-321 | the groups together are a permutation of the camera list (nothing lost or duplicated) |
| Grouping.GroupSizesAddUp | multiplecam.py:316-321 | the group sizes add up to the number of cameras |
| Grouping.FlattenContiguous | multiplecam.py:316-321 | concatenating groups under distinct keys gives a list in which equal keys are adjacent |
| Grouping.FlattenIsIdentityIffContiguous | multiplecam.py:316-321 | concatenating the groups in dict order gives back the list exactly when each key's cameras are adjacent in it |
| GroupWindow.Truncate | multiplecam.py:88-92 | a group keeps its first six cameras, or all of them when there are fewer |
| GroupWindow.BuildFrames | multiplecam.py:108-136 | one frame per camera in order, then 2 black tiles for 2 cameras and 1 for 3 |
| GroupWindow.FramesFitTopology | multiplecam.py:100 | for at most six cameras every frame has a slot and a last-attempt entry (`max(4, n)`); 2-4 cameras give 4 frames; 1, 4 and 6 cameras fill every slot |
| GroupWindow.AttachAll | multiplecam.py:208-226 | a frame gets a player exactly when it shows a camera with a url whose VLC calls succeed |
| GroupWindow.MonitorUpToExactly | multiplecam.py:237-244 | after the monitor visits the first `n` frames, exactly the restarted slots among them take the time `now`; every other slot keeps its time |
| GroupWindow.RetriedExactly | multiplecam.py:237-266 | a slot is restarted exactly when it is not padding, holds a player that is neither playing nor paused, has a url, and more than five seconds have passed |
| GroupWindow.RetriedSlotsHavePlayers | multiplecam.py:238-241 | a restarted slot is in range, is a camera frame and holds a player, and the restarts come in frame order |
| GroupWindow.SingleSlotIsCamWindow | multiplecam.py:155-156 | a one-camera group window's slot follows the single-camera window's rules |
| GroupWindow.GroupFramesDisjoint | multiplecam.py:187-199 | any two frames of a group window over at most six cameras share no pixel |
| GroupWindow.CustomLayoutWindow.constructor | multiplecam.py:86-139 | the window keeps the truncated cameras, their padded frames and their tile map, with `max(4, n)` last-attempt times of 0.0 and no players |
| GroupWindow.CustomLayoutWindow.LayoutFrames | multiplecam.py:181-199 | each frame's rectangle is its slot's boundary span, and a frame without a slot gets the empty rectangle |
| GroupWindow.CustomLayoutWindow.AttachPlayers | multiplecam.py:208-233 | the first call gives every frame the player slot `AttachAll` says; a later call keeps the players; times, restarts and geometry are unchanged |
| GroupWindow.CustomLayoutWindow.VisitFrame | multiplecam.py:237-244 | one frame of a monitor tick: the slot's time becomes `now` and the slot is logged as restarted exactly when `Retried` holds; nothing else changes |
| GroupWindow.CustomLayoutWindow.LayoutAndAttach | multiplecam.py:175-233 | every frame gets its slot's rectangle; the first call attaches as `AttachAll` says; later calls keep the players |
| GroupWindow.CustomLayoutWindow.StartPlayback | multiplecam.py:255-279 | padding and out-of-range indexes change nothing; otherwise the slot's time changes as `Start` says, and a restart is logged only when the slot holds a player |
| GroupWindow.CustomLayoutWindow.MonitorPlayers | multiplecam.py:235-253 | the last-attempt times become `MonitorUpTo` and the restarts logged are `RetriedSlots`; the players and geometry are unchanged |
| GroupWindow.FixedFrameRect | draft.py:249-253 | frames past the sixth get the empty rectangle |
| GroupWindow.FixedFrameRectIsFrameRect | draft.py:244-262 | the fixed 3x3 layout gives each frame the rectangle the dynamic layout gives it on the six-slot map |
| GroupWindow.FixedLayoutWindow.constructor | draft.py:190-215 | the first version keeps every camera and the second (`cams[:6]`, draft.py:548) the first six; one frame per camera, no players |
| GroupWindow.FixedLayoutWindow.LayoutAndAttach | draft.py:235-284 | every frame gets the fixed 3x3 rectangle; the first call attaches as `AttachAll` says |
| GroupWindow.HiddenFramesStillAttached | draft.py:249-278 | with more than six cameras in the first version, a frame past the sixth is hidden yet still gets a player |
| Departments.DepartmentInfo | department_mapping.py:82-92 | the entry exactly for a listed id, nothing otherwise |
| Departments.DepartmentName | department_mapping.py:50-63 | the listed name, or the id itself for an unknown id |
| Departments.DepartmentArea | department_mapping.py:66-79 | the listed area, or the empty string for an unknown id |
| Departments.AllDepartments | department_mapping.py:95-102 | a copy with the same ids and entries |
| Departments.LookupsAgreeWithInfo | department_mapping.py:50-92 | the name and area lookups agree with the full entry for every id |
| Departments.DirectoryShape | department_mapping.py:6-47 | ten departments, every area non-empty, six distinct areas |
| Departments.CellBlocksShareArea | department_mapping.py:11-18 | the two cell-block departments are different entries of one area |
| Departments.UnknownIdFallbacks | department_mapping.py:50-92 | an unknown id names itself and has no area or entry |
| AreaCounts.Counter | realtime_area_counts.py:33-35 | `get(key, 0)` read as a number: an integer counter is its value, a boolean is 0 or 1, a missing key is 0 |
| AreaCounts.CountsOf | realtime_area_counts.py:31-36 | a counter missing from `data_count` counts 0, and an integer counter is stored with its value |
| AreaCounts.ResolveArea | realtime_area_counts.py:55-60 | never empty: the directory's area when it has one, otherwise the placeholder of the id |
| AreaCounts.UnknownAreaByPrefix | realtime_area_counts.py:59-60 | two unmapped departments share a placeholder area exactly when their ids share the first eight characters |
| AreaCounts.UnknownAreaIsNoDirectoryArea | realtime_area_counts.py:59-60 | a placeholder never coincides with a real area |
| AreaCounts.TotalsKeys | realtime_area_counts.py:48-67 | the aggregation lists each area once and has a total for exactly the listed areas |
| AreaCounts.AreaOrderExactly | realtime_area_counts.py:54-60 | the listed areas are exactly the areas of the reporting departments |
| AreaCounts.TotalsAreAreaSums | realtime_area_counts.py:54-65 | each area's counters are the sum over the departments in that area |
| AreaCounts.AreaTotalsConserveCounts | realtime_area_counts.py:96-109 | the sum of all area totals equals the sum over all departments |
| AreaCounts.SumOverPermutation | realtime_area_counts.py:93 | the grand total does not depend on the order the areas are visited in (the display sorts them) |
| AreaCounts.EmptyAggregation | realtime_area_counts.py:86-90 | the aggregation is empty exactly when no department has reported |
| AreaCounts.GrandTotalAfterUpdate | realtime_area_counts.py:31-36 | overwriting a department's counts moves the grand total by the difference |
| AreaCounts.CellBlocksMerge | realtime_area_counts.py:54-65 | the two cell-block departments add up into the one cell-block area |
| AreaCounts.AreaCountTracker.constructor | realtime_area_counts.py:16-20 | no counts and no update time |
| AreaCounts.AreaCountTracker.UpdateCounts | realtime_area_counts.py:22-38 | a truthy dict replaces the department's entry; a falsy value leaves the table; the time is set in both cases; a truthy non-dict raises before any change |
| AreaCounts.AreaCountTracker.AggregateByArea | realtime_area_counts.py:40-67 | the areas in first-seen order and their totals are `AreaOrder` and `Totals` of the table |
| AreaCounts.AreaCountTracker.DisplayCounts | realtime_area_counts.py:69-125 | nothing when no department has reported, otherwise the sum of the area totals, which is the sum over all departments |
| AreaCounts.AcceptedUpdate | realtime_area_counts.py:128-162 | a dict payload, or a text decoding to a dict, passes exactly when its `department_id` is a non-empty string and its `data_count` is truthy, and then yields both; any other payload is rejected |
| AreaCounts.TextAndObjectAgree | realtime_area_counts.py:134-159 | a text payload decoding to a dict is handled like that dict |
| AreaCounts.FalsyFieldsIgnored | realtime_area_counts.py:140-141 | a payload with a missing or falsy id or `data_count` updates nothing |
| AreaCounts.MessageHandler | realtime_area_counts.py:128-162 | a rejected payload, or an accepted one whose `data_count` is no dict (`update_counts` raises and the handler swallows it), changes nothing and displays nothing; otherwise the entry is overwritten, a new id is appended, the time is set and the grand total of the new table is displayed |
| Socket.InitialSettings | hooks/use_socket.py:34-38 | each option present is used, otherwise its default |
| Socket.NoOptionsMeansDefaults | hooks/use_socket.py:34-38 | no options and an empty dict give the three defaults |
| Socket.ApplyOptions | hooks/use_socket.py:127-141 | a field present in the options takes its value; fields not named are unchanged |
| Socket.Rejoins | hooks/use_socket.py:148-150 | the join is re-emitted exactly when connected and the room or username actually changed |
| Socket.ApplyOptionsIdempotent | hooks/use_socket.py:127-150 | applying the same options twice: the second call changes nothing and emits nothing |
| Socket.UnrelatedOptionsChangeNothing | hooks/use_socket.py:130-141 | options naming none of the three keys change nothing |
| Socket.EventNameOnlyNeverRejoins | hooks/use_socket.py:138-150 | an event-name-only change never rejoins, and keeps room and username |
| Socket.NoRejoinWhileDisconnected | hooks/use_socket.py:149 | a disconnected client never rejoins |
| Socket.JoinIfConnected | hooks/use_socket.py:90-99 | no message when disconnected, otherwise exactly one carrying the current room and username |
| Socket.NoJoinWithoutConnect | hooks/use_socket.py:58-99 | a client that starts disconnected and never sees a connect event emits nothing and stays disconnected |
| Socket.JoinsCarryHeldSettings | hooks/use_socket.py:95-99 | every emitted join carries a room and username the client held at some point of the run |
| Socket.ConnectionEventsKeepSettings | hooks/use_socket.py:58-118 | connection events never change the options |
| Socket.SocketClient.constructor | hooks/use_socket.py:21-45 | the settings come from the options with defaults; the handler is subscribed under that event name; not connected; nothing emitted |
| Socket.SocketClient.JoinRoom | hooks/use_socket.py:90-100 | emits `JoinIfConnected` of the current state and changes nothing else |
| Socket.SocketClient.OnConnect | hooks/use_socket.py:58-62 | marks the client connected and then emits one join with the current settings |
| Socket.SocketClient.OnDisconnect | hooks/use_socket.py:64-70 | marks the client disconnected |
| Socket.SocketClient.Disconnect | hooks/use_socket.py:114-118 | clears the flag only when the socket reports itself connected |
| Socket.SocketClient.UpdateOptions | hooks/use_socket.py:120-151 | the settings become `ApplyOptions` and the join is emitted as `Rejoins` says; after a rename the current event name is the subscribed one only when the new name is |
| Socket.SocketClient.Receive | hooks/use_socket.py:86-88 | a payload reaches the callback only under the event name subscribed at set-up |
| Socket.SocketClient.Run | hooks/use_socket.py:58-151 | after any run of events the client's state is `StateAfter` and its emissions `JoinsDuring` |

## Left out

- Qt and VLC calls have no model:
  - widget and label creation, styling and positioning;
  - the full-screen and resize key handling, the timers, window offsets and titles;
  - `set_player_window_for_platform`.

  The re-layout triggered by resize and show events is a repeated `LayoutAndAttach` call.
- `closeEvent` stops every player. The model has no player to stop, so it is not modelled.
- `main` of the first script version opens one single-camera window per camera and one fixed window over the whole list. The model covers both windows but not the list of windows.
- Tiles.MaxCol, Tiles.MaxRow: Python's `max` raises on an empty tile map, where the model returns 0. Every map `GetTileMap` returns is non-empty, so the case does not arise.
- Boundaries.RoundHalfEven: the quotient `i * total / segments` is an exact rational here. The source divides in floating point, which agrees for pixel-sized operands; floating-point error is not modelled.
- Playback.CamWindow.MonitorPlayer: the single-camera window always creates its player, so `hasPlayer` is a constructor input rather than the result of a VLC call.
- Playback.Monitor, Playback.CamWindow.MonitorPlayer, GroupWindow.CustomLayoutWindow.MonitorPlayers: the source reads the clock once in the monitor and again in the start call it makes (draft.py:140-147, multiplecam.py:242-263). The model uses one reading `now` for both. The recorded attempt time is therefore the first reading, not the second. Under a clock that steps back between the two readings, the source could skip an attempt that the model makes.
- AreaCounts.AreaCountTracker.DisplayCounts: only the grand total is returned. The console output, the per-area lines and their sorted order are left out. Order independence of the total is `SumOverPermutation`.
- AreaCounts.Counter: a counter value that is neither an integer nor a boolean reads as 0. The source would store it and then raise in the aggregation.
- AreaCounts.AcceptedUpdate: a truthy department id that is not a string is rejected. The source would store it and then raise when it slices the id.
- JSON decoding is an input (`TextPayload.decoded`). Arrays and floats are not modelled among JSON values.
- The Socket.IO transport is left out: `connect()`, the URL, `emit` as real I/O, and the connect-error, error and room-joined handlers. Emitted joins are recorded in a log instead.
- Socket.SocketClient.Receive: changing `eventName` does not move the payload handler, because the source registers it once at set-up. The model keeps this as-written behaviour.
- Threading: socket callbacks update the tracker on another thread. The model applies updates one at a time.
- `time.strftime` is the `clock` parameter. `time.time()` is the `now` parameter.
- Departments.AllDepartments, Departments.DepartmentInfo: `DEPARTMENT_MAPPING.copy()` is a shallow copy, and `get_department_info` returns the directory's own inner dict. A caller that mutates either result changes the directory. Maps are values in the model, so this aliasing is not captured.
- test_socket.py is an interactive manual client. It is not part of this model.
