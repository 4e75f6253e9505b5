# Verified model of the glacier display server

glacier is a server-authoritative display server: one z-ordered stack of windows, changed by three
parties (window-manager policy, the native client transport, the Wayland frontend) and painted by a
CPU compositor. This project models that core in Dafny and proves what each step and every run of
it keeps.

## How it is built

* **The stack** (`Windows`, `StackOperations`, `ZOrder`, `AltTab`): every operation of `src/window.c` on values; the
  order-free view of a stack (a map from id to window); what z-order invariants every operation keeps.
* **The three parties on values**: `WmPolicy` (`src/wm.c`), `Transport` (`src/transport.c`),
  `Wayland` (`src/wayland.c`), `Modes` (mode listing and selection).
* **The server as a state machine** (`Session`): eleven kinds of events, `Step`, `Run`, `Boot`. Any
  interleaving of them is a run. `SessionProofs.SysOk` is the one invariant everything else rests
  on; `RunKeeps` and `SessionBoot.ReachableOk` make it hold in every reachable state. `Books`,
  `StackSteps`, `SceneBasics`, `SceneMoves`, `SceneTables`, `SceneProofs`, `WmProofs` and
  `WaylandProofs` are its parts.
* **What each operation does, written out**: `StackOperations`, `Placements`, `Served`,
  `Announcements`, `Resolutions`, `SurfaceEvents` and parts of `Pixels`, `Modes` and `Cursors` state the
  effect of every operation in numbers, rectangles and messages, without the functions the model
  decides with.
* **Guarantees over runs**: `Always`, `Ownership`, `Buffers`, `Contents`, `NativeContents`, `Descriptors`,
  `FocusReports`, `FocusHistory`, `Untold`, `WireNames`, `Entries`, `Resizes`, `Requests`,
  `Newcomers`, `Reconnect`, `RoundTrips`, `Tokens`, `Expiry`, `Gestures`, `Snaps`, `Clicks`, `Deliveries`,
  `Screens`. `Runs`, `Shortfalls` and `SurfaceShortfalls` hold the runs from boot on which a
  guarantee one would expect fails.
* **The program's own form**: `WindowStacks`, `WindowManagers`, `TransportServers`,
  `WaylandFrontends` and `Servers` are classes with the program's fields, arrays and loops, updated
  in place. Each method is proved equal to its counterpart on values, and `Server.Handle` is proved
  to do exactly one `Step`, so that every theorem about runs is a theorem about these classes.
* **The compositor**: `Pixels` says what each pixel should show, by the same top-down search a click
  uses; `FrameBuffers` holds the clipped painting loops, proved to show it; `Cursors` is the blended
  cursor.

`dafny verify dfyconfig.toml` checks the whole project.

## What is assumed

* Window ids, reconnect tokens and mapping numbers do not wrap (`src/window.c:21`,
  `src/transport.c:135-140`): they are unbounded naturals here.
* Coordinates are small enough that sums do not overflow; conversions between `uint32_t` and `int`
  on the wire are modelled (`Transport.AsInt`, `Transport.AsU32`).
* What is visible of a client's buffer lies within the length the client declared
  (`Screens.Honest`). The server does not check this (`src/transport.c:313-317`);
  `Pixels.ReadsWithinIff` says exactly which pixels the blit reads, and `Pixels.RowsFit` that rows no
  longer than the stride are enough. That the mapping has the declared length is proved
  (`Screens.NoFreedMemory`); that the bytes behind a mapping are there is `Screens.Backed`.
* A shared-memory buffer that libwayland hands over is as long as its last row needs (`Wayland.Whole`).
* `accept` hands out a descriptor that no client has, modes have at least one pixel, Wayland requests
  name existing surfaces (`Session.Enabled`). A datagram carries at most two descriptors.
* Transport and Wayland frontend both came up (`src/server.c:493-498`, `519-520`).
* Sends succeed; a connection's messages are kept in `Client.sent`, those of surfaces in
  `Frontend.sent`, one per surface however many pointer or keyboard objects its client has.

## Where the code and its documentation part

* Wid 0 is reserved by the protocol (`include/protocol.h:120`), but CREATE_WINDOW accepts it and
  makes a window nobody owns. `Ownership.NativeWindowsOwned` proves that every native window has an
  owner if and only if no such request was served; `Shortfalls.StrayReachable` is a run with one.
* A COMMIT with two descriptors and no fence leaves the second one open:
  `Descriptors.ReceiveClosesExactly` is the exact condition, `Descriptors.SomeCommitDropsOne` an instance.
* A taskbar docked at the top or left that leaves no pixel on its axis pushes the work area off the
  screen: `WmPolicy.WorkAreaInside` is the exact condition, `WmPolicy.WorkAreaCanLeaveScreen` an
  instance, `Shortfalls.OffScreenReachable` a run.
* The title bar is painted at full height on a window that is lower: `Pixels.SeenAsClickedIff`. Only a
  snap into a work area that low can make one (`Always.OnlySnapsAreLow`, `Screens.SeeWhatYouClick`);
  `Shortfalls.LowSnapReachable` is a run with such a snap and a pixel that shows something else than a
  click there hits.
* The frontend does not look again which surface has the pointer, or the keyboard, when windows change
  between motions or within a turn, so a press or a key can go to a surface and to a native client.
  `Clicks.WaylandExclusive` and `Deliveries.KeyExclusiveIff` are the exact conditions,
  `Shortfalls.StaleReachable` is a run with both.
* A focused window that its client gets back by its token is not reported again, because the server
  still counts it as focused. `Untold.UntoldIff` proves that this is the only way a connected holder
  of the reported window can be untold; `Shortfalls.FocusUntold` says when it happens and
  `Shortfalls.UntoldReachable` is a run.
* CL_FOCUS names a window by the client's wid. Seen that way a client that destroys a focused window and
  uses its wid again still stands as told about the new one: `Shortfalls.WidReusedReachable` is a run,
  `WireNames.OneFocusedByWid` the guarantee for clients that do not.
* The owner of a window that was snapped or taken out of a snap is to be told its new size
  (`include/wm.h:26-29`, `include/window.h:93-94`, `src/server.c:671-673`). It never is. Only windows
  with a server title bar are resized, no native client holds one, and a surface hears of a size at
  its first commit only (`src/wayland.c:222-231`). `Resizes.RectangleToldIff` is the exact condition under
  which the end of a turn tells a rectangle at all, `Resizes.SurfacesUnsized` the other half,
  `SurfaceShortfalls.SnapUntold` a run.
* A surface that is unmapped and mapped again while it has the pointer or the keyboard is told to enter
  twice and never to leave: its window has a new id. By window `Entries.EnteredIff` is exact,
  `SurfaceShortfalls.EnteredTwice` is a run of one surface.
* WELCOME carries the server's version, not the negotiated one (`src/transport.c:202`).
* `wm_init` leaves `reconfigured_id` unset, so `Boot` starts with any value. All it can do is make the
  first turn tell one client a rectangle it did not ask for (`Resizes.RectangleToldIff`,
  `Shortfalls.GarbageTold`); no other guarantee depends on it.

## Model

| member | source | states |
|---|---|---|
| WindowStacks.WindowStack.constructor | src/window.c:7-11 | an empty stack whose first id is 1 |
| WindowStacks.WindowStack.Create | src/window.c:13-29 | a full stack refuses with id 0 and is unchanged, otherwise the window is on top under the next id |
| WindowStacks.WindowStack.Index | src/window.c:31-43 | the loop finds the first entry with the id, or -1 when there is none |
| WindowStacks.WindowStack.CloseGap | src/window.c:50-52 | the shifting loop is sequence removal |
| WindowStacks.WindowStack.Destroy | src/window.c:45-55 | exactly the named window is removed; if it had focus, the new top one gets it |
| WindowStacks.WindowStack.At | src/window.c:57-69 | the topmost mapped window whose rectangle has the point |
| WindowStacks.WindowStack.MoveToTop | src/window.c:72-80 | remove and append |
| WindowStacks.WindowStack.MoveToBottom | src/window.c:82-90 | remove and prepend |
| WindowStacks.WindowStack.Raise | src/window.c:92-95 | the named window on top, the rest in order |
| WindowStacks.WindowStack.Lower | src/window.c:97-100 | the named window at the bottom, the rest in order |
| WindowStacks.WindowStack.Move | src/window.c:102-109 | only the position of the named window changes |
| WindowStacks.WindowStack.SetGeometry | src/window.c:111-123 | only the rectangle changes; nonpositive sizes are ignored |
| WindowStacks.WindowStack.Focus | src/window.c:125-133 | focus goes to the window and raises it unless it is a wallpaper; a dead id changes nothing |
| WindowStacks.WindowStack.CycleIndex | src/window.c:144-152 | the modular scan finds the first candidate after the start |
| WindowStacks.WindowStack.FocusCycle | src/window.c:140-153 | focus moves to the candidate the scan finds, if any |
| StackOperations.CreateSays | src/window.c:13-29 | the field values of a new window, its place on top of at most 63 others, and that it does not get the focus |
| StackOperations.DeadId | src/window.c:45-133 | no operation does anything about an id no window has |
| StackOperations.FocusSays | src/window.c:125-133 | the order of all windows after a focus change: the focused one last, unless it is a wallpaper |
| StackOperations.RaiseSays | src/window.c:92-95 | the order of all windows after a raise |
| StackOperations.LowerSays | src/window.c:97-100 | the order of all windows after a lowering |
| StackOperations.DestroySays | src/window.c:45-55 | the order of what is left, and which window gets a focus that is lost |
| StackOperations.MoveSays | src/window.c:102-109 | each window before and after a move |
| StackOperations.GeometrySays | src/window.c:111-123 | each window before and after a resize, for positive and nonpositive sizes |
| StackOperations.TabSays | src/window.c:140-153 | Alt-Tab in either direction focuses the first mapped NORMAL window that a walk round the stack from the focused one comes to, or does nothing if it comes to none |
| Windows.WrapIsEuclidean | src/window.c:146-147 | the double remainder is the index modulo the count, for negative values too |
| Windows.CreateOk | src/window.c:13-29 | ids stay distinct, nonzero and below the next id; the count stays within 64; the new window is the only change |
| Windows.FocusOk | src/window.c:125-133 | focusing keeps the stack well-formed and every window as it was |
| Windows.LowerOk | src/window.c:82-100 | lowering keeps the stack well-formed and every window as it was |
| Windows.DestroyIsReaped | src/window.c:45-55 | destroying is the removal of a one-element set: survivors keep order and fields |
| Windows.ReapedTwice | src/window.c:45-55 | removing windows one after another, with focus falling each time, equals removing them at once |
| Windows.ReapedOk | src/window.c:45-55 | after any set of windows is gone focus is 0 or live and ids stay distinct |
| Windows.FocusCycleOk | src/window.c:140-153 | Alt-Tab keeps every window as it was and the stack well-formed |
| ZOrder.FocusOrdered | src/window.c:125-133 | focusing keeps wallpapers at the bottom and puts focus above all Alt-Tab candidates or below them all |
| ZOrder.ReapedOrdered | src/window.c:45-55 | removal of any windows keeps wallpapers at the bottom and the focused one extreme |
| AltTab.LandsOnLowest | src/window.c:140-153 | from an extreme focus the scan always lands on the lowest candidate |
| AltTab.OnePress | src/window.c:140-153 | one press takes the lowest candidate to the top and focuses it; the others keep their order |
| AltTab.RoundRobin | src/window.c:140-153 | j presses rotate the candidates by j mod k, the next press focuses number j mod k, all other windows keep their order |
| AltTab.FullCircle | src/window.c:140-153 | after k presses the k candidates are in their original order |
| WindowManagers.WindowManager.constructor | src/wm.c:12-22 | cursor in the middle, no drag; reconfigured_id is not initialised |
| WindowManagers.WindowManager.PointerMotion | src/wm.c:34-39 | the cursor moves clamped to the screen, then the grabbed window follows |
| WindowManagers.WindowManager.PointerMotionAbs | src/wm.c:41-46 | the same for absolute positions |
| WindowManagers.WindowManager.DragGrabbed | src/wm.c:26-32 | the dragged window, and nothing else, is put at cursor minus grab offset |
| WindowManagers.WindowManager.WorkArea | src/wm.c:51-78 | the loop carves the screen by the first mapped taskbar |
| WindowManagers.WindowManager.SnapOnRelease | src/wm.c:83-110 | at an edge a title-bar window takes its part of the work area, the floating rectangle is kept on the first snap |
| WindowManagers.WindowManager.Release | src/wm.c:120-129 | a release ends the drag, then snaps |
| WindowManagers.WindowManager.Press | src/wm.c:132-168 | focus and raise what was hit; on its title bar start a drag, un-snapping first |
| WindowManagers.WindowManager.PointerButton | src/wm.c:112-169 | only the left button does anything |
| WindowManagers.WindowManager.Key | src/wm.c:171-178 | Alt-Tab is consumed, every other key is not |
| Placements.MotionMoves | src/wm.c:26-46 | after a motion the cursor is at the nearest point of the screen to where it should be, and nothing else of the window manager changed |
| Placements.WorkAreaIsFree | src/wm.c:51-78 | pixel by pixel, the work area is what the lowest mapped taskbar leaves of the screen |
| Placements.NoTaskbarAllFree | src/wm.c:51-78 | or the whole screen, if there is none |
| Placements.ReleasePlaces | src/wm.c:83-129 | from any state: which window a release snaps, to which rectangle at which edge, what it remembers, and that no other window changes |
| Placements.PressTakes | src/wm.c:132-168 | from any state: which window a press takes hold of, where the cursor has it, and where and how large it is then |
| Placements.PressRaises | src/wm.c:132-148 | and in which order the windows are then: the one hit on top and focused, unless it is a wallpaper, which only gets the focus |
| WmPolicy.WorkAreaInside | src/wm.c:51-78 | the work area lies inside the screen if and only if the taskbar leaves a pixel on its axis |
| WmPolicy.WorkAreaCanLeaveScreen | src/wm.c:62-66 | a taskbar for which it does not |
| WmPolicy.WorkAreaClearsTaskbar | src/wm.c:51-78 | the work area and a docked taskbar share no pixel, whichever edge it is docked to |
| WmPolicy.HalvesSplit | src/wm.c:94-103 | the two snap halves are disjoint equal parts of the work area that miss at most its middle column |
| WmPolicy.PressEffect | src/wm.c:132-168 | a press focuses the window under the cursor and changes no window except the one it grabs, which it grabs exactly on a server title bar |
| WmProofs.MotionKeeps | src/wm.c:26-46 | motions keep the stack, wallpaper, title-bar and drag invariants |
| WmProofs.ButtonKeeps | src/wm.c:112-169 | so do presses and releases |
| WmProofs.KeyKeeps | src/wm.c:171-178 | so does Alt-Tab |
| WmProofs.ClickStable | src/wm.c:132-168 | what is under the cursor is the same window before and after a left press, through focus, raise and un-snapping |
| WmProofs.MotionDrags | src/wm.c:26-46 | any motion puts the window back in hand and changes no other window, even when the dragged one is gone |
| WmProofs.ReleaseEffect | src/wm.c:83-129 | a release changes only the dragged window, and only if it snaps |
| WmProofs.ReleaseSnaps | src/wm.c:83-110 | the snapped window has its part of the work area and remembers exactly its floating rectangle |
| WmProofs.GrabRestores | src/wm.c:149-163 | a snapped window grabbed by its title bar has its saved size, with the cursor in its title bar |
| TransportServers.FindWindow | src/transport.c:96-104 | the first slot with the wid; wid 0 is never found |
| TransportServers.AllocWindow | src/transport.c:106-112 | the first free slot, or none |
| TransportServers.TransportServer.constructor | src/transport.c:584-602 | no clients, no orphans, no token handed out |
| TransportServers.TransportServer.FindByServerId | src/transport.c:665-684 | the nested loop finds the first connected owner of a server window |
| TransportServers.TransportServer.DropBuffer | src/transport.c:114-124 | the window forgets the buffer and the mapping is released, only if there is one |
| TransportServers.TransportServer.Reap | src/transport.c:145-150 | the loop drops buffer and window of each occupied slot in order |
| TransportServers.TransportServer.OrphanDestroy | src/transport.c:143-152 | the orphan's windows go and its slot is free |
| TransportServers.TransportServer.Expire | src/transport.c:156-168 | exactly the due orphans are destroyed, in slot order |
| TransportServers.TransportServer.Reclaim | src/transport.c:172-191 | the table of the orphan with the token moves to the client, with its window count |
| TransportServers.TransportServer.OnCreateWindow | src/transport.c:211-264 | duplicate wid, full table and full stack refuse; otherwise create, claim, decorate, place by role, announce, report focus |
| TransportServers.TransportServer.OnCommit | src/transport.c:282-334 | every rejection closes the buffer's descriptor and changes nothing else; an accepted buffer replaces the previous one |
| TransportServers.TransportServer.OnDestroyWindow | src/transport.c:336-345 | buffer, window and slot go together |
| TransportServers.TransportServer.OnSetGeometry | src/transport.c:350-364 | the client's geometry is taken, except for a wallpaper |
| TransportServers.TransportServer.OnSetCursor | src/transport.c:368-398 | hide, size limits, a failed mapping, or the new shape copied |
| TransportServers.TransportServer.OnHello | src/transport.c:435-449 | reclaim or a new token, then WELCOME |
| TransportServers.TransportServer.Dispatch | src/transport.c:401-489 | short datagrams and failed handshakes refuse, otherwise the handler runs |
| TransportServers.TransportServer.Drop | src/transport.c:501-547 | shell windows are parked when a slot is free, otherwise reaped; the connection is closed and the client slot cleared |
| TransportServers.TransportServer.Receive | src/transport.c:550-580 | a refused datagram drops the client |
| TransportServers.TransportServer.AddClient | src/transport.c:638-661 | the first free slot is taken and cleared; without one, or when the kernel will not watch the connection, it is closed and no slot is taken |
| TransportServers.TransportServer.RoutePointer | src/transport.c:695-739 | pointer events below the title bar go to the owner in content coordinates |
| TransportServers.TransportServer.RouteKey | src/transport.c:741-755 | keys go to the owner of the focused window |
| TransportServers.TransportServer.NotifyFocus | src/transport.c:757-780 | focus lost, then focus gained, once per change |
| TransportServers.TransportServer.NotifyGeometry | src/transport.c:782-798 | the owner is told the current rectangle |
| TransportServers.TransportServer.Broadcast | src/transport.c:810-824 | every client past its handshake is told the new size |
| TransportServers.TransportServer.Destroy | src/transport.c:864-882 | all clients are dropped, then all orphans reaped, then the listening and the epoll descriptor closed |
| Served.RoleRoundTrip | src/transport.c:78-88 | each role number on the wire is read back as the role it stands for, any other as NORMAL |
| Served.CreateServedIff | src/transport.c:211-236 | a CREATE_WINDOW makes exactly one window, named by the first free slot, if and only if its wid is 0 or unused, a slot is free and fewer than 64 windows are live; otherwise nothing changes |
| Served.CommitServedIff | src/transport.c:282-334 | a COMMIT takes effect, on the window of the first slot with its wid, if and only if that exists and the buffer is shared memory in XRGB8888 with rows and a stride that can be mapped; otherwise nothing changes but descriptors |
| Served.UnknownIgnored | src/transport.c:336-364 | a request about a wid the client does not use changes nothing |
| Served.DestroyServed | src/transport.c:336-345 | otherwise exactly the window of the first slot with the wid goes, and a lost focus goes to the topmost one left |
| Served.CursorKept | src/transport.c:368-384 | which SET_CURSOR drops the client's shape and which changes nothing of it |
| Served.KeptIff | src/transport.c:401-489 | a connection may go on if and only if its first datagram is a HELLO with the magic number for version 1 or 2, and every later one is as long as its type demands |
| Served.ShortHello | src/transport.c:415-449 | a HELLO too short for a token gets no windows back |
| Served.ConnectIff | src/transport.c:638-661 | a connection takes the first free slot, if the kernel will watch it; otherwise it is closed |
| Served.NoSlotCloses | src/transport.c:638-661 | and it is closed if no slot is free |
| Served.DropFrees | src/transport.c:501-548 | a dropped client's connection is closed and its slot free; a parked one's table waits 5000 milliseconds in the first free place, otherwise no place changes |
| Announcements.NotifySays | src/transport.c:757-780 | the messages each connection is sent when the focus changes: lost to the old holder, gained to the new one, by their own wids, nothing to anybody else |
| Announcements.CreateSays | src/transport.c:248-263 | the messages each connection is sent when a CREATE_WINDOW is served: CONFIGURE with the new window's rectangle to its creator, and the focus messages of a NORMAL window |
| Announcements.WelcomeSays | src/transport.c:199-209 | a HELLO is answered with version 2, the screen's size and the connection's token, and nobody else hears of it |
| Resolutions.ChangeTells | src/transport.c:810-824 | from any state: a resolution change that goes through tells its width and height to each connection past its handshake, once, and to no other |
| Resolutions.ChangeFits | src/server.c:332-371 | the screen and every wallpaper have the new size, the cursor is on it, and no other window changes |
| Resolutions.StoppedSilent | src/server.c:332-371 | one that stops earlier tells nobody anything and changes no window |
| Requests.CreateStack | src/transport.c:211-247 | the new window is as requested; a wallpaper goes below all others and fits the screen, the rest on top, only NORMAL takes focus |
| Requests.CreateSlot | src/transport.c:216-236 | the first free slot names the new window and no other slot, orphan, token or mapping changes |
| Requests.CreateTells | src/transport.c:255-260 | the creator of a NORMAL window is the one told that it is focused |
| Requests.CommitEffect | src/transport.c:282-334 | the window shows a fresh mapping with the declared size, exactly its previous mapping is released, no other window changes |
| Requests.DestroyEffect | src/transport.c:336-345 | exactly that window, slot and mapping go; a lost focus falls to the top |
| Requests.GeometryEffect | src/transport.c:350-364 | the client's own window takes the position and each positive size asked for, a wallpaper does not; every other window, the order, the focus and the transport stay |
| Requests.BroadcastEach | src/transport.c:816-824 | each connection past its handshake gets the new size once, no other gets anything |
| SceneProofs.DispatchKeeps | src/transport.c:401-489 | every datagram keeps stack, tables, mappings, tokens and focus reports consistent and touches no window that is not native |
| SceneProofs.DropKeepsAll | src/transport.c:501-547 | so does a client's death, parked or reaped |
| SceneProofs.ExpireKeeps | src/transport.c:143-168 | so does the expiry of orphans |
| SceneProofs.ReceiveKeeps | src/transport.c:550-580 | so does a datagram together with the drop that may follow |
| StackSteps.AdmitStep | src/transport.c:226-247 | CREATE_WINDOW keeps z-order, wallpaper and title-bar invariants for every role |
| StackSteps.ReapIsReaped | src/transport.c:145-150 | the reaping loop removes exactly the table's windows, whatever focus does in between |
| Books.BooksReap | src/transport.c:143-152 | reaping a table releases exactly its mappings and leaves all other books balanced |
| Books.BooksCommit | src/transport.c:318-333 | swapping a buffer keeps slots, windows and live mappings in agreement |
| Ownership.SlotsPartition | src/transport.c:211-236 | every occupied slot of every client and orphan names a live native window, no two the same one |
| Ownership.SurfacesPartition | src/wayland.c:115-185 | every mapped surface names a live window of its own, never one a native client owns |
| Ownership.SlotsFitTheStack | src/transport.c:211-236 | the occupied slots of all clients and orphans never outnumber the windows |
| Ownership.NativeWindowsOwned | src/transport.c:211-236 | after any run all native windows have an owner if and only if no CREATE_WINDOW for wid 0 was served |
| Ownership.WaylandWindowsOwned | src/wayland.c:151-185 | after any run every live window that is not native belongs to a surface, whatever its id; only the demo scene, when it was asked for, adds its three windows |
| Ownership.CrashContained | src/transport.c:501-547 | a death takes exactly the client's windows, or none if parked; all others keep fields and order |
| Ownership.ParkedIff | src/transport.c:507-530 | a client is parked if and only if it holds a live shell window and an orphan slot is free |
| Buffers.LiveIffHeld | src/transport.c:318-333 | a mapping is live if and only if some slot holds it |
| Buffers.OneHolder | src/transport.c:318-333 | no two slots hold the same mapping |
| Buffers.ShowsItsSlot | src/transport.c:326-333 | a native window shows exactly its slot's buffer, or nothing |
| Buffers.ReleasedExactlyOnce | src/transport.c:114-124 | every mapping ever made is live, or was released exactly once |
| Buffers.ShutdownReleasesAll | src/transport.c:864-882 | afterwards no mapping is live, each was released once, and no owned window is left |
| Descriptors.DispatchClosesExactly | src/transport.c:401-489 | dispatch closes exactly the descriptors that came, if and only if it is not a COMMIT with two and no fence |
| Descriptors.ReceiveClosesExactly | src/transport.c:550-580 | the same for the whole turn: a refused client's own connection is closed too, and nothing else |
| Descriptors.SomeCommitDropsOne | src/transport.c:293-306 | such a COMMIT |
| Descriptors.ShutdownCloses | src/transport.c:864-882 | a shutdown closes exactly the connections that were open, each once, and leaves none |
| FocusReports.AtMostOneFocused | src/transport.c:757-780 | by window, at most one was last told it is focused by the connection that holds it, and it is the one the server last reported |
| WireNames.OneFocusedByWid | src/transport.c:757-780 | by wid, all that a client sees, the same after any run in which no connection uses a wid again whose focus it has heard of |
| WireNames.StepNames | src/transport.c:757-780 | every other step keeps the two names in agreement: what a client heard about the wid of one of its windows it heard about that window |
| FocusHistory.StepPlain | src/transport.c:401-489 | no step but a new window and the end of a turn reports focus: every connection keeps its table or less of it, or is new |
| Untold.Unreported | src/transport.c:757-780 | while the report stays, what the holder of the reported window was told stays, unless it just got the window back: then it was told nothing |
| Untold.Reported | src/transport.c:757-780 | when the report changes, the holder of the newly reported window is told |
| Untold.UntoldIff | src/transport.c:172-191 | over any run: a connected client that holds the reported window is untold if and only if a step got the window back by a token while it counted as focused, and nothing else was reported since |
| FocusReports.SyncReports | src/server.c:669-680 | the end of a turn reports the stack's focus; its owner is then told unless the report was the same before, when nothing is said |
| FocusReports.HelloTellsNothing | src/transport.c:435-449 | after HELLO nothing was said about focus, even if the focused window was reclaimed |
| Reconnect.RunSpares | src/transport.c:501-547 | an orphan waits unchanged through any run in which its token is not presented and its grace does not run out |
| RoundTrips.RedeemGives | src/transport.c:172-191 | presenting a waiting token brings back exactly its table, with every window live and intact, and frees the slot |
| RoundTrips.RoundTrip | src/transport.c:415-449 | however a parked client's connection ended, by a hangup or a refused datagram: after any run within its grace the table comes back wid by wid, window by window, buffer by buffer |
| RoundTrips.ComesBackAtOnce | src/transport.c:415-449 | a parked client that connects again and says HELLO with its token has its table, windows and buffers back |
| RoundTrips.RedeemedOnce | src/transport.c:172-191 | a token some client holds is on no orphan; presenting it again gives a fresh token and no windows |
| RoundTrips.NothingWaits | src/transport.c:172-191 | so does presenting any token that no orphan waits under |
| Reconnect.DeathIs | src/transport.c:565-577 | a hangup and a refused datagram drop the client in the same way; what came with the datagram is closed |
| Tokens.StepTracks | src/transport.c:172-191 | in any step a token gets onto an orphan only when its holder is parked, and back onto a client only from an orphan, which then has it no more |
| Tokens.ReapSpends | src/transport.c:501-547 | the token of a client that dies unparked is with nobody any more |
| Tokens.ExpirySpends | src/transport.c:156-168 | nor is the token of an orphan whose grace ran out |
| Tokens.SpentForever | src/transport.c:435-449 | a token that is with nobody stays so through any run |
| Tokens.NeverAgain | src/transport.c:435-449 | whoever presents it in any later turn gets no windows and a token never seen before |
| Tokens.ParkedBetween | src/transport.c:172-191 | between two turns of a run that get windows back with one token, a holder of it died and was parked: one parking is redeemed at most once |
| Reconnect.ExpireExactly | src/transport.c:156-168 | a tick frees exactly the orphan slots whose grace has run out |
| Expiry.ExpireTakes | src/transport.c:143-168 | a tick takes exactly the windows of the orphans that are due, and leaves every other one as it was |
| Expiry.GraceIs | src/transport.c:501-535 | a parked client's table waits 5000 milliseconds: a tick before that leaves it, one from then on frees it |
| Expiry.WindowsWait | src/transport.c:143-168 | and its windows are all there before, unchanged, and all gone after |
| Always.WallpaperAlways | src/transport.c:242-247 | in every reachable state each wallpaper covers exactly the screen below every other window, and the cursor is on the screen |
| Always.FocusAlways | src/window.c:125-153 | in every reachable state focus is 0 or live and above or below all Alt-Tab candidates, ids are distinct |
| Always.AltTabOverRuns | src/wm.c:171-178 | from any reachable state Alt-Tab among other keys is a round robin |
| Always.NothingToFocus | src/window.c:140-153 | with no candidate Alt-Tab changes nothing |
| Always.CursorFits | src/transport.c:368-398 | in every reachable state a client's cursor shape fits its 64x64 buffer |
| Always.OnlySnapsAreLow | src/server.c:164-168 | in every reachable state only a snapped window can be too low for its title bar |
| Screens.SeeWhatYouClick | src/server.c:147-176 | what you see is what you click: after any run in which no window was snapped into a sliver lower than a title bar, every pixel read of honest buffers is there, and painting bottom to top shows at every pixel the colour of the window a click there hits |
| Screens.FrameSays | src/server.c:147-176 | in full: the painter leaves at each point the title-bar colour, the buffer's pixel or the placeholder of the highest window there |
| Screens.NoFreedMemory | src/transport.c:114-124 | in every reachable state every window shows nothing, or a live mapping made for it and as long as it declares, or the current content of its surface: never memory that was unmapped or freed |
| NativeContents.StepStays | src/server.c:236-371 | in every step a native window that stays keeps its buffer, its size and its stride, unless the step is a COMMIT on it that takes effect |
| NativeContents.LastCommitShows | src/transport.c:313-334 | from such a COMMIT on, over any run until the next one on that window or its end, the window shows the mapping made for it, and every point the buffer reaches has the little-endian pixel at row times the declared stride plus four times column |
| NativeContents.LastCommitSeen | src/server.c:68-88 | and that pixel is what the painter leaves on the screen where the window is the highest one |
| Screens.SurfaceReads | src/wayland.c:151-164 | all that is read of a surface's content is there |
| Screens.WindowReads | src/server.c:68-88 | all that is read of any window's buffer is there, for a client's if what is visible of it lies within the length it declared |
| Screens.ServeChange | src/wayland.c:115-185 | a Wayland request leaves every window as it was, except the one its surface shows, at a height that fits its title bar |
| Screens.StepSound | src/server.c:236-371 | every step keeps copied content with its surface, and title bars inside their windows unless it snaps one into such a sliver |
| Gestures.QuietStep | src/server.c:236-301 | no event but motions and the left button moves or snaps a title-bar window or touches the drag |
| Gestures.DragRun | src/wm.c:26-46 | over any run without the left button the grab offset is constant and no other title-bar window moves |
| Gestures.DragFidelity | src/wm.c:112-169 | from a title-bar press on, the window's net displacement is the cursor's; a resolution change breaks that only until the next motion |
| Snaps.DraggedFloats | src/wm.c:149-163 | a drag never holds a snapped window |
| Snaps.RunSaves | src/wm.c:83-110 | a snapped window keeps its saved size through any run in which it is not grabbed |
| Snaps.RunNoReuse | src/window.c:13-29 | a window that is gone never comes back under its id |
| Snaps.SnapRoundTrip | src/wm.c:83-168 | snapped at an edge and later grabbed, a window has exactly its former size, with the cursor in its title bar |
| Clicks.ForwardedInside | src/transport.c:695-739 | forwarded coordinates lie inside the content of the topmost window and map back to the cursor |
| Clicks.PressExclusive | src/server.c:257-267 | one left press never both starts a drag and reaches a native client |
| Clicks.PressReaches | src/server.c:257-267 | a press on a native window reaches its owner and only it, once, under the owner's wid |
| Clicks.ButtonReaches | src/transport.c:717-739 | from any state: when any button goes down or up, the owner of the window then under the cursor is sent exactly that, at the cursor's place in the window, and no other connection anything |
| Clicks.MotionReaches | src/transport.c:695-715 | and so for every motion |
| Clicks.WaylandExclusive | src/wayland.c:727-740 | a press while a surface has the pointer: it is told once, and it is the only one to get the press if and only if the cursor is on no title bar and on no native client's window |
| Clicks.NobodyElseIff | src/server.c:257-267 | in any state a left press grabs nothing and reaches no connection if and only if that is so |
| Clicks.FreshIsExclusive | src/wayland.c:681-740 | it is so while the surface with the pointer is the one under it |
| Clicks.MotionFreshens | src/wayland.c:681-713 | which every motion brings about |
| Clicks.PressAfterMotion | src/wayland.c:681-740 | so a press right after a motion has one receiver |
| Clicks.ToldInside | src/wayland.c:681-725 | the coordinates a surface is told lie inside its content and map back to the cursor |
| Deliveries.KeyReaches | src/server.c:268-299 | a key the server keeps reaches nobody; any other moves no window and reaches the surface with the keyboard and the native client of the focused window, each once and under its own name |
| Deliveries.OwnKeys | src/server.c:268-291 | which keys are the server's own: Ctrl+Alt+T, Escape, Alt-Tab, pressed |
| Deliveries.OwnKeysDo | src/server.c:268-291 | and what they do: the first two nothing to any window or client, the third one step of Alt-Tab |
| Deliveries.ModifiersOverRuns | src/server.c:268-289 | over any run: Ctrl and Alt count as held as their last key event says, and the server goes on until Escape is pressed |
| Deliveries.KeyExclusiveIff | src/server.c:290-297 | a surface with the keyboard is the only one to get a key if and only if no connected native client holds the focused window |
| Deliveries.FollowsIsExclusive | src/wayland.c:757-802 | it is so while the keyboard is with the surface of the focused window |
| Deliveries.KeyAfterTurn | src/server.c:663-669 | so a key right after the end of a turn has one receiver |
| Resizes.RectangleTold | src/transport.c:782-798 | in any state the end of a turn says more than focus if and only if a connected native client holds the marked window; then that client is told the rectangle it has now, once |
| Resizes.StepMark | src/wm.c:83-163 | only a snap or a grab out of a snap marks a window, and never one that a native client holds |
| Resizes.RectangleToldIff | src/server.c:671-678 | over any run: the end of a turn tells a rectangle if and only if no turn has ended and nothing was marked yet, and boot's leftover number is that of a window a connected client holds by now |
| Resizes.NeverAfterTurn | src/server.c:671-678 | so once a turn has ended, none ever does |
| Resizes.SurfacesUnsized | src/wayland.c:222-231 | over any run no surface is told a size, except 0x0 at its first commit |
| Entries.EnteredIff | src/wayland.c:681-802 | in every reachable state a mapped surface's window stands as entered, by pointer or keyboard, if and only if the frontend counts it as having it |
| Entries.EntersOnce | src/wayland.c:696-799 | so no window is told to enter before it was told to leave |
| Newcomers.GreetedIs | src/transport.c:415-449 | a new client's greeting gives it the next token, an empty table and WELCOME, and changes nothing else |
| Newcomers.FirstWindow | src/transport.c:211-236 | its first CREATE_WINDOW is served if the stack has room |
| Shortfalls.StrayArises | src/transport.c:211-236 | from any state with room a newcomer can leave a window nobody owns |
| Shortfalls.StrayReachable | src/transport.c:211-236 | a run that leaves one |
| Shortfalls.StalePointer | src/wayland.c:727-740 | from any state with room in which a surface has the pointer, a newcomer's window under the resting cursor makes the next press go to both |
| Shortfalls.StaleKeyboard | src/wayland.c:757-774 | and a newcomer's window that takes the focus makes keys go to both until the turn ends |
| Shortfalls.StaleReachable | src/wayland.c:681-802 | a run with both |
| Shortfalls.LowSnapReachable | src/server.c:147-176 | a run in which a window is snapped into a sliver and a pixel shows something else than a click there hits |
| Shortfalls.FocusUntold | src/transport.c:757-780 | a parked client that held the reported focus and comes back at once owns the focused window again and is not told |
| Shortfalls.UntoldReachable | src/transport.c:757-780 | a run in which that happens |
| Shortfalls.WidReused | src/transport.c:336-345 | from any state with room, a newcomer that uses a wid again stands as told about a window that was never focused |
| Shortfalls.WidReusedReachable | src/transport.c:757-780 | a run in which that happens |
| Shortfalls.OffScreenReachable | src/wm.c:51-78 | a run after which the work area lies off the screen |
| Shortfalls.GarbageTold | src/wm.c:12-22 | a run in which boot's leftover number makes a turn tell a rectangle |
| SurfaceShortfalls.SnapUntold | src/server.c:671-678 | a run in which a surface's window is snapped to the size of the screen, and when the turn ends nobody has heard of it |
| SurfaceShortfalls.EnteredTwice | src/wayland.c:696-799 | a run in which one surface is told to enter twice, by pointer and by keyboard, and never to leave |
| WaylandFrontends.CopyRows | src/wayland.c:144-147 | the row loop leaves the rows of the client's buffer, packed |
| Contents.PixelCopied | src/wayland.c:127-149 | so every pixel of the content is the client's pixel |
| Contents.CommitShows | src/wayland.c:127-185 | after a served commit every visible content point of the surface's window has the colour the client put there |
| Contents.ContentStays | src/wayland.c:127-149 | a content block keeps its pixels through any run in which its surface does not commit |
| Contents.LastCommitShows | src/wayland.c:127-185 | so it shows the client's last commit, whatever else happens |
| SurfaceEvents.MotionTells | src/wayland.c:681-725 | the events of a motion that ends over a surface's content: leave, enter and motion, in that order and in its own pixels, only the motion if it had the pointer already |
| SurfaceEvents.MotionLeaves | src/wayland.c:681-705 | and of one that ends over none |
| SurfaceEvents.InputTells | src/wayland.c:727-774 | a button and a key, down or up, are told to the surface that has the pointer, or the keyboard, if some surface still has that window |
| SurfaceEvents.FocusTells | src/wayland.c:776-802 | the events when the keyboard goes to another surface, or to none, or stays |
| SurfaceEvents.MapSays | src/wayland.c:167-185 | the first content of a surface: its window's size, buffer, place in the cascade, z-order and focus, or no window if there are 64 |
| SurfaceEvents.UpdateSays | src/wayland.c:154-166 | later content: what changes of its window, and that nothing else does |
| SurfaceEvents.CommitQuiet | src/wayland.c:215-246 | the commits that show nothing: an xdg surface's first one, one without a new buffer, one of a dma-buf |
| SurfaceEvents.CommitUnmaps | src/wayland.c:234-239 | a commit of no buffer removes exactly the surface's window |
| SurfaceEvents.CommitShm | src/wayland.c:240-246 | a commit of shared memory: what the surface holds then, and when it has a window |
| SurfaceEvents.RolesSay | src/wayland.c:188-301 | the requests that give a surface its roles and its next buffer move no window |
| SurfaceEvents.EndsSay | src/wayland.c:271-277 | a surface that loses its toplevel or is destroyed takes exactly its own window with it |
| WaylandFrontends.WaylandFrontend.SurfaceByWindow | src/wayland.c:85-94 | the first surface of a window; id 0 has none |
| WaylandFrontends.WaylandFrontend.CopyShm | src/wayland.c:127-149 | empty buffers and a refused allocation change nothing, a new size means a new block, and the block then holds the client's rows, packed |
| WaylandFrontends.WaylandFrontend.MapOrUpdate | src/wayland.c:151-185 | the first content makes a cascaded, focused NORMAL window; later content updates and resizes it |
| WaylandFrontends.WaylandFrontend.Unmap | src/wayland.c:115-125 | window and content go together |
| WaylandFrontends.WaylandFrontend.Commit | src/wayland.c:215-254 | the first commit of an xdg surface is answered with a size of 0x0, a later one attaches, unmaps or maps by what is pending |
| WaylandFrontends.WaylandFrontend.Serve | src/wayland.c:188-301 | the request handlers that touch surface state |
| WaylandFrontends.WaylandFrontend.PointerMotion | src/wayland.c:681-725 | the surface left, the one entered and the one under the pointer are told, and the window whose content has the pointer is remembered |
| WaylandFrontends.WaylandFrontend.PointerButton | src/wayland.c:727-740 | the surface remembered, if it is still there, is told |
| WaylandFrontends.WaylandFrontend.KeyboardKey | src/wayland.c:757-774 | the surface with the keyboard, if it is still there, is told |
| WaylandFrontends.WaylandFrontend.KeyboardFocus | src/wayland.c:776-802 | the keyboard goes to the surface of the focused window, or to none; the old and the new one are told, once per change |
| WaylandProofs.ServeKeeps | src/wayland.c:115-254 | every request keeps each mapped surface showing its own content in its own window and leaves native windows alone |
| Servers.Server.constructor | src/server.c:373-560 | boot: the demo scene or nothing, around one shared stack |
| Servers.Server.Seed | src/server.c:305-315 | wallpaper, two windows, the second focused |
| Servers.Server.Button | src/server.c:257-267 | the window manager acts first, then the surface with the pointer and the native client under it are told |
| Servers.Server.Key | src/server.c:268-299 | Ctrl and Alt are tracked; Ctrl+Alt+T, Escape and Alt-Tab go no further; any other key goes to the surface with the keyboard and to the focused client |
| Servers.Server.FitWallpapers | src/server.c:355-360 | the loop fits each wallpaper to the new screen |
| Servers.Server.ApplyMode | src/server.c:332-371 | no mode or no blob: nothing; no framebuffer: only the mode; otherwise screen, cursor, wallpapers and clients follow |
| Servers.Server.EndOfTurn | src/server.c:661-679 | focus is reported to both frontends, then the resized window, whose mark is cleared |
| Servers.Server.Handle | src/server.c:236-301 | handling any event is exactly one step of the state machine |
| SessionProofs.FitView | src/server.c:355-360 | fitting changes the rectangles of wallpapers and nothing else |
| SessionProofs.StepKeeps | src/server.c:236-371 | every event keeps the whole invariant and the ownership of all windows |
| SessionProofs.RunKeeps | src/server.c:373-680 | so does every run |
| SessionBoot.BootOk | src/server.c:305-315 | booting establishes it, with or without the demo scene |
| SessionBoot.BootEmpty | src/server.c:373-560 | what boot leaves: 16 free connections and orphan slots of 64 windows, nothing mapped, the cursor in the middle |
| SessionBoot.BootScene | src/server.c:305-315 | and the stack: empty, or the three demo windows with their rectangles, the last one focused |
| SessionBoot.ReachableOk | src/server.c:373-680 | so it holds in every reachable state |
| Modes.AdvertisedIsSelectable | src/control.c:110-145 | requesting any advertised mode by its nonzero refresh selects a non-interlaced mode of exactly that size and refresh |
| Modes.AnyRefreshTakesFirst | src/platform.c:334-352 | without a refresh the first mode of the size wins, or there is none |
| Modes.BestOfIsBest | src/platform.c:334-352 | the loop's choice is the first size match of least refresh distance, and none exactly when nothing matches |
| Modes.SelectedIsListedCurrent | src/control.c:124-139 | after a switch the next listing marks a mode of that size current, if fewer than its capacity of 64 are listed before it |
| Modes.RefreshIsRate | src/control.c:57-63 | a mode's refresh in mHz is its pixel clock over its frame size, rounded down |
| Modes.UntimedRefresh | src/control.c:57-63 | and of one without timings what the mode says |
| Modes.SelectNearest | src/platform.c:334-352 | a request selects a mode of exactly the size asked for whose refresh is nearest, the first of several |
| Modes.ListedSays | src/control.c:110-145 | each non-interlaced mode's entry, at its place among the first 64: size, refresh, preferred, and current if it has the set mode's size and rate |
| Modes.Kms.SetModeWh | src/platform.c:323-368 | succeeds if and only if a mode matches and its blob was made, and changes nothing otherwise |
| Modes.Kms.GetOutputs | src/control.c:110-145 | the array holds the non-interlaced modes in order, up to its capacity |
| Pixels.ReadsWithinIff | src/server.c:68-88 | with rows and columns clipped to window and buffer as the blit does, its reads lie in the first len bytes if and only if nothing is visible, or the last visible pixel lies there and the rows do not run backwards |
| Pixels.RowsFit | src/transport.c:313-317 | visible rows no longer than the stride are enough, for the length declared |
| Pixels.SeenAsClickedIff | src/server.c:147-176 | a window's painted area is its clickable area if and only if it is not a visible window too low for its title bar |
| Pixels.PaintedIsHit | src/server.c:147-176 | painting bottom to top shows what the search top to bottom finds |
| Pixels.ScreenSays | src/server.c:147-176 | the colour of each pixel in numbers: title bar by focus, buffer by stride and byte order, placeholder, desktop |
| Pixels.PainterSays | src/server.c:147-176 | the same for what the painter leaves, whatever the windows' heights |
| FrameBuffers.FrameBuffer.FillRect | src/server.c:52-63 | exactly the pixels of the rectangle that are on the screen change |
| FrameBuffers.FrameBuffer.BlitBuffer | src/server.c:68-88 | exactly the pixels under window content, buffer and screen change, each to the buffer's word there |
| FrameBuffers.FrameBuffer.PaintWindows | src/server.c:147-175 | every pixel shows the colour of the window a click there would hit, or the desktop |
| FrameBuffers.FrameBuffer.DrawCursor | src/server.c:90-145 | exactly the pixels under the visible cursor change, each to the blend or the arrow's colour |
| FrameBuffers.FrameBuffer.Composite | src/server.c:147-176 | the frame is the windows with the cursor over them |
| Cursors.ChannelIsMean | src/server.c:124-126 | a blended channel lies between the two it blends, less than one below the exact mean, and is one of them at 0 and 255 |
| Cursors.BlendIsPerChannel | src/server.c:113-127 | shortcuts included, each channel of the result blends the same channel of both pixels |
| Cursors.BlendSays | src/server.c:113-127 | the blend of two pixels in numbers: nothing of a transparent one, an opaque one's colour, and else each channel mixed by the alpha byte |
| Cursors.ShapeSays | src/server.c:98-128 | a client's cursor on the screen: its hot spot at the cursor, row by row of its width, nothing while it is hidden |
| Cursors.ArrowSays | src/server.c:90-145 | the built-in arrow: its tip at the cursor, black edges and white inside, within 16 rows and 11 columns |
| Cursors.PackIsShiftOr | src/server.c:126 | the shifts and ors on 32-bit words compute the sum of the channels in the model |
| Cursors.CustomIff | src/transport.c:368-398 | a client's shape is shown after a SET_CURSOR if and only if this one was served, or one was shown before and this one is refused |
| Cursors.ShapeArrives | src/transport.c:385-397 | after a served SET_CURSOR the pixel drawn at a row and column of the cursor is the word the client put there |
| Cursors.ShapeUnmapped | src/transport.c:368-398 | whatever came of it, no mapping stays behind and its descriptors are closed |
| Cursors.ShapeIndex | src/server.c:106-112 | reading the shape stays inside its 64x64 buffer |

## Left out

- Sockets, epoll, ancillary data, and messages cut short by the kernel: a datagram is a value with its length and its descriptors.
- Real clocks and fence polling: the time of an event is an input, so nothing is claimed about how soon an orphan dies.
- The contents of mappings changing while they are read: the compositor reads one snapshot of memory.
- DRM, GBM, seat, input and keymap libraries; page flips and idle blanking: foreign calls.
- Which of two framebuffers is drawn, and the failure of the second allocation alone: one flag says whether both could be made.
- Window titles, logging, the dirty flag, the control socket's wire format and process spawning: they do not touch the modelled state. Escape ends the main loop: that is recorded, and events after it are still allowed.
- Wayland globals, inert stubs, frame callbacks, pointer frames, serials, keymaps and modifier state; resource destruction order.
- Motion deltas are integers, as after the casts at src/wm.c:36-37.
- Servers.Server.constructor: a transport or a frontend that fails to come up is not modelled; both are there.
- Clients, orphans and surfaces are values inside arrays and lists: aliasing between a table and a pointer into it is not modelled.
