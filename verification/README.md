# SSH arcade router: verified model

The router is the SSH front door of an arcade. It admits connections, shows each player a menu of
games, bridges the chosen game onto the same terminal, and comes back to the menu when the game ends.
Almost all of its behaviour rests on shared state behind small locks: pumps that own a session's
input and resizes, a games registry that reloads and probes itself, admission ledgers, presence
counts, and the user name by which a game recognises a player. This project models those parts and
proves what they promise.

`dafny verify dfyconfig.toml` checks the whole project.

## How the model is built

- Each critical section, channel operation and file operation is one atomic step. A component that
  several threads drive is a total `Step` function (a step that is not enabled changes nothing),
  `Exec` runs any schedule of steps, and the results hold after every schedule. Sending on or closing
  a closed channel is an explicit `panicked` state that is proved unreachable.
- Code that updates an object is a class with that object's fields; its methods are proved against
  functions over plain values, and a schedule's steps are made of the same functions. `AuthGuard.Released`,
  for one, is both what `GuardedConn.Close` does and what the schedules of `TransportSchedule` do; the
  channels and critical sections of `ResizePump`, the health table, the subscriptions and the seats are
  shared in the same way. Where one method spans several steps a lemma relates the two:
  `HotReload.CycleIsReload` for a whole reload, `InputPump.TurnsAreASchedule` for the input loop.
- What an operation does is also stated without the function that models it: as clauses over the object's own
  fields, as what the schedule's history amounts to (`Wakeups.SubscribersAreTheSchedules`,
  `ResizePump.AttachmentIsItsHistory`, `Presence.PlaceIsItsHistory`, `Health.HealthIsItsHistory`), and as what
  every reachable state can still reach (`ResizePump.ResizesCanBeDelivered`, `RegistryWakeups.MenusCanCatchUp`,
  `TransportSchedule.ShutdownCanFinish`, `Publisher.CloseCanAlwaysFinish`).
- The session handler is checked by a monitor: every pump, seat, bridge and store call is recorded in
  a ghost log, the log must keep the monitor's discipline, and the results are stated about every
  disciplined log.
- Surroundings are parameters or event arguments: Unicode tables, hashing, address and host-key
  parsing, clocks, what a stat or a read finds, how a bridge ends, what successive registry reads return.

| file | subject |
|---|---|
| `ResizePump`, `InputPump` | the two pumps of a session, step by step |
| `HotReload`, `Health`, `Wakeups`, `GamesFile`, `Games` | the registry and the banner |
| `RegistryWakeups` | the registry's changes and its subscribers together |
| `AuthGuard`, `TransportSchedule`, `Limits` | transport and shell admission |
| `SessionLoop` | the handler that alternates menu and game |
| `WholeSession` | the handler and the menu program together, from the first menu to the last |
| `Presence`, `Publisher` | who is in the arcade, and the document that says so |
| `ProxyProto`, `Identity` | the trusted-proxy user name and the identities behind it |
| `MenuView`, `Lobby` | menu geometry and the menu program |

## Where the code gives less than it seems to

- **A read fault pins an old list.** The reload records the first stat's time even when the load failed,
  so that a bad file is logged once. If the load failed because of an I/O error rather than because of
  the content, a good new list is then never loaded until the file is written again.
  `HotReload.FaultPinsStaleList` gives the run; `HotReload.CycleIsExact` says exactly when an
  undisturbed cycle leaves the content judged, and `HotReload.RecordedMeansJudged` holds without faults.
- **A resize consumer can be stranded.** One attached after the pump's last look at `dst` and before
  `done` is closed is never released (`ResizePump.WindowConsumersStayOpen`,
  with a run in `ResizePump.WindowConsumerIsStranded`);
  `ResizePump.ReleaseIsExact` says these are the only ones.
- **A late input destination gets no end of input.** `SetDest` does not look at `done`
  (`InputPump.LateDestinationExists`, `InputPump.LateDestinationsAreNotEnded`).
- **A flagged game can be entered unwarned.** The registry is read twice by the key press or click that
  chooses a game, and a third time by the handler, which bridges that third record. A game is entered
  flagged, neither confirmed nor acknowledged, exactly when its alpha flag is absent from the menu's first
  read and present in the handler's (`WholeSession.UnwarnedBridgeIsExact`); in every visit
  of a session that bridges into a flagged game, the message that chose it confirmed it, found it
  acknowledged by another session or by this one before, or has that reason
  (`WholeSession.EveryFlaggedBridgeIsExplained`). The menu's own result depends on its two reads alone
  (`Lobby.UnwarnedLaunchIsExact`), and `WholeSession.MenuAndBridgeDiffer` shows it misleading both ways.

## Model

| member | source | states |
|---|---|---|
| ResizePump.NoPanicAndTwoTries | internal/server/pump.go:99-162 | In every interleaving of resizes, attaches, detaches and receives nothing is sent on or closed after a close, and a delivery takes at most two send attempts |
| ResizePump.NothingClosedIsTouched | internal/server/pump.go:99-135 | In every schedule whatever the loop is about to send on or close is an open consumer, and after a failed attempt it is empty |
| ResizePump.ConsumersSeeResizesInOrder | internal/server/pump.go:99-153 | What a consumer received followed by what its channel holds is a strictly increasing run of the session's resizes, from its priming value on |
| ResizePump.AttachedHoldsLatest | internal/server/pump.go:99-153 | Whenever no delivery to it is under way, the attached consumer's last item is the newest recorded resize |
| ResizePump.NewestIsNeverLost | internal/server/pump.go:101-109 | With the loop back at its source, the attached consumer's last item is the newest resize the session has sent |
| ResizePump.AttachmentIsItsHistory | internal/server/pump.go:111-162 | The attached consumer is the one the schedule attached last, if it has neither been detached nor let go at the session's end since |
| ResizePump.AttachingAttaches | internal/server/pump.go:138-153 | Attaching makes one consumer more that has received nothing: attached and holding the latest size, or closed once the pump is done |
| ResizePump.ReceivingTakes | internal/server/pump.go:138-153 | A consumer that receives takes the size its channel holds, once |
| ResizePump.ResizesCanBeDelivered | internal/server/pump.go:101-135 | From every reachable state with the loop at its source, the next resize can be taken, recorded and put into the attached consumer's channel, whatever it holds and without its help |
| ResizePump.SessionsCanEnd | internal/server/pump.go:99-119 | From every such state the pump can finish, and it then has closed the consumer attached at that moment |
| ResizePump.DetachedIsFrozen | internal/server/pump.go:158-162 | A consumer not attached, with no delivery to it under way, is given nothing in any later schedule |
| ResizePump.ReleaseIsExact | internal/server/pump.go:99-119 | At the end a consumer is closed exactly when it was the one attached at the loop's last look or came after `done`; of the others from then on, exactly those attached in between are not |
| ResizePump.WindowConsumersStayOpen | internal/server/pump.go:111-118 | In no schedule is a consumer attached between the last look and the closing of `done` ever closed |
| ResizePump.WindowConsumersStayStranded | internal/server/pump.go:111-118 | Nor is it closed by anything that follows |
| ResizePump.WindowConsumerIsStranded | internal/server/pump.go:111-118 | A schedule that ends with such a consumer, open and attached to a pump that has finished |
| ResizePump.Deliver | internal/server/pump.go:123-135 | Against a consumer that may receive between any two operations, delivery ends with the new size in the channel after one attempt, or two if an older size was pending |
| ResizePump.WinchPump.Record | internal/server/pump.go:102-106 | Records the size as the latest and returns the consumer attached at that moment |
| ResizePump.WinchPump.Release | internal/server/pump.go:111-118 | Forgets the attached consumer and closes it, leaving its pending size in place |
| ResizePump.WinchPump.Attach | internal/server/pump.go:138-153 | A fresh consumer is attached holding the latest size, without blocking; after the end of the session it is closed and not attached |
| ResizePump.WinchPump.Detach | internal/server/pump.go:158-162 | Delivery stops and nothing else changes |
| InputPump.DestinationsReadTheSession | internal/server/pump.go:33-63 | Each destination has read a prefix of one contiguous slice of the session; slices of successive destinations are disjoint and in session order |
| InputPump.OpenDestinationsMissNothing | internal/server/pump.go:33-55 | Between writes, a destination whose pipe is open has read its whole slice |
| InputPump.ReplacedDestinationIsFrozen | internal/server/pump.go:40-63 | A pipe that is not the destination and has no write in flight stays so and receives no further byte in any later schedule |
| InputPump.SettingSets | internal/server/pump.go:59-63 | A fresh open pipe becomes the destination from the next byte on, and the previous destination's part of the session ends there |
| InputPump.ClosedPipeIsFrozen | internal/server/pump.go:33-55 | The reader of a closed pipe is given nothing in any later schedule, and the pipe stays closed |
| InputPump.EndOfInputComesLast | internal/server/pump.go:33-77 | The pump ends a destination only after it read its whole slice, a final chunk that came with the read error included |
| InputPump.InputCanEnd | internal/server/pump.go:33-77 | From every reachable state with the loop at its source, the pump can finish, and it then has ended the open destination set at that moment |
| InputPump.LateDestinationsAreNotEnded | internal/server/pump.go:59-77 | After the pump has finished, the destination is closed unless it was set after the pump's last look, and then the pump never ends it |
| InputPump.LateDestinationExists | internal/server/pump.go:59-77 | A run in which a destination set after the end stays open without end of input |
| InputPump.Pump.Loop | internal/server/pump.go:33-55 | With the handler setting a destination before every look, each open destination gets exactly its own chunks, the one that came with the read error included; then the last destination is closed and no other |
| InputPump.TurnsAreASchedule | internal/server/pump.go:33-63 | For any turns in which the handler keeps, clears or freshly sets the destination there is a schedule after which every pipe holds exactly the bytes the turns route to it, as in the loop |
| InputPump.Pump.SetDest | internal/server/pump.go:59-63 | Later input goes to the new destination; the previous one is left as it is |
| InputPump.Pump.CloseDest | internal/server/pump.go:70-77 | Closes the destination set at that moment, and nothing else |
| HotReload.RecordedMeansJudged | internal/registry/registry.go:253-294 | Without I/O faults, whatever is written or removed between any two file operations, a recorded time equal to the file's means its content was judged, and is served if it was good |
| HotReload.ServesNewestGoodRead | internal/registry/registry.go:253-294 | The games list is always the newest good content ever read; a rejected content displaces nothing |
| HotReload.CycleIsExact | internal/registry/registry.go:253-294 | An undisturbed cycle leaves the file's content judged if and only if it already was, or its time was new and the load met no fault |
| HotReload.CycleIsReload | internal/registry/registry.go:253-352 | A cycle with the file rewritten and removed at will between its steps, and with a fault at either stat or the read or none, does what the reload decision says about what those steps found |
| HotReload.RecordedIsFixpoint | internal/registry/registry.go:260-265 | Once the file's time is recorded and while nobody touches the file, any number of cycles, with I/O faults or without, change nothing |
| HotReload.FaultPinsStaleList | internal/registry/registry.go:267-277 | After one I/O fault in the load of a good new list, the old list is served through any number of cycles |
| HotReload.MissingFile | internal/banner/banner.go:171-187 | With the file gone, one cycle clears the banner and its recorded time, and leaves a games list alone |
| HotReload.BootIsExact | internal/registry/registry.go:107-127 | At boot good content is served under the time of the stat made before its read, and otherwise nothing is and no time is recorded |
| HotReload.Source.ReloadIfChanged | internal/banner/banner.go:171-217 | A file that cannot be examined or whose time is recorded changes nothing and tells nobody; a missing one clears the banner and leaves a games list; a good load is served under its second stat's time, and a failed one leaves what is served and records the first; subscribers are told exactly when a list was loaded or the banner changed |
| Health.HealthIsItsHistory | internal/registry/prober.go:40-69 | After any interleaving of probe results, reports and reloads, a game is listed if and only if it has a history since its ID was introduced, and online if and only if that history has a success followed by no report and fewer than the threshold of failures; its version is the last one shown |
| Health.UpIsTrailing | internal/registry/prober.go:46-67 | That condition is the same as: the observation before the trailing run of failures is a success and the run is shorter than the threshold |
| Health.FlipsShow | internal/registry/prober.go:38-72 | A probe cycle that flips no game changes nothing visible, and for distinct games a flip is visible |
| Health.LastChangeIsExact | internal/registry/prober.go:46-67 | A change sets the time shown of exactly the games it flips or introduces, new ones starting offline, and leaves every other game's alone |
| Health.Registry.constructor | internal/registry/registry.go:107-127 | Every game of the first list starts offline with no failures |
| Health.Registry.Report | internal/registry/registry.go:213-232 | A reported game is offline at once with its failures at the threshold or above, and `changed` holds exactly when something visible changed |
| Health.Registry.Apply | internal/registry/prober.go:38-72 | The locked loop applies every result in order, drops those of removed games, keeps online games below the threshold, and notifies exactly when something visible changed |
| Health.Registry.Reload | internal/registry/registry.go:278-290 | The health table is keyed by exactly the new list's IDs; games that stay keep their health and new ones start offline |
| Health.Registry.Snapshot | internal/registry/registry.go:165-180 | Every game in menu order with its current health |
| Wakeups.NeverPanics | internal/registry/registry.go:143-200 | No interleaving of writers, subscribers and `Close` pokes a closed channel or closes one twice: whatever may be poked or closed is open |
| Wakeups.NoLostWakeup | internal/registry/registry.go:184-305 | An owner behind the latest visible change has a token buffered, or has taken one and not yet read, or some writer is between its unlock and the end of its notify |
| Wakeups.QuietOwnersAreUpToDate | internal/registry/registry.go:296-305 | With no writer under way, what a subscribed owner with no token and nothing left to read was last shown is what there is to show now |
| Wakeups.SubscribersAreTheSchedules | internal/registry/registry.go:143-200 | A channel is subscribed exactly when the schedule made it and has neither removed it nor closed the registry since, and closed exactly when it was made and is not subscribed |
| Wakeups.SubscribingSubscribes | internal/registry/registry.go:184-190 | Whenever the lock can be had, subscribing makes one new channel that is subscribed, open and without a token, and changes no other |
| Wakeups.CommittingCommits | internal/registry/registry.go:213-305 | A change that can have the lock shows at once and is owed a notify, and a notify nobody owes pokes nobody |
| Wakeups.NotifyingExcludes | internal/registry/registry.go:184-305 | While a notify is under way nobody changes the value, subscribes, unsubscribes or closes |
| Wakeups.TakingAndReading | internal/registry/registry.go:296-305 | Taking a token leaves that channel none and every other as it was; a read shows what there is to show then |
| Wakeups.OwnersCanCatchUp | internal/registry/registry.go:184-305 | From every reachable state the writers under way can finish, and a subscribed owner can then read, after which it is quiet and was shown the present value |
| RegistryWakeups.QuietMenusAreCurrent | internal/registry/registry.go:213-305 | In every interleaving of probe cycles, reports, reloads and subscribers, a quiet menu was last shown the registry's present list and present online flags |
| RegistryWakeups.QuietMenusShowTheHistory | internal/registry/prober.go:38-73 | So a quiet menu shows a game online if and only if, over all changes so far, a success was followed by no report and fewer than the threshold of failures |
| RegistryWakeups.ChangesCommit | internal/registry/registry.go:213-294 | A change that can have the lock becomes the last of the history, and a reload's list becomes the list |
| RegistryWakeups.MenusCanCatchUp | internal/registry/registry.go:213-305 | From every reachable state, without any further change, a subscribed menu can become quiet and show the registry's present list and flags |
| RegistryWakeups.EveryRunIsASchedule | internal/registry/registry.go:213-305 | Every run of the registry with its subscribers is a schedule of the poke protocol whose value is what a snapshot taken now would show |
| Health.ChangesThatShowNotify | internal/registry/prober.go:37-72 | A probe cycle, report or reload that changes what a menu can see is always followed by a notify |
| Wakeups.Subscribers.Subscribe | internal/registry/registry.go:184-190 | The new channel is added to the subscribed ones, open and with no token in it, and no other changes |
| Wakeups.Subscribers.Unsubscribe | internal/registry/registry.go:193-200 | Removes and closes a subscribed channel once, and leaves any other alone |
| Wakeups.Subscribers.Notify | internal/registry/registry.go:296-305 | Every subscribed channel ends with a token, never blocking on one that has it |
| Wakeups.Subscribers.CloseAll | internal/banner/banner.go:113-118 | Every subscribed channel is closed, none stays subscribed, and no other channel changes |
| GamesFile.Validate | internal/registry/registry.go:354-412 | Accepts a file if and only if it is acceptable and returns its menu: one record for each entry and no other, each field under its own name and the host key parsed, by order and then ID; otherwise names the first fault of the first bad entry |
| GamesFile.FirstFaultRejects | internal/registry/registry.go:354-404 | The sequence of checks accepts exactly the non-empty files whose entries are all sound with distinct IDs and names, so one bad entry rejects the file |
| GamesFile.FaultIsFirstWrong | internal/registry/registry.go:360-400 | The fault named for an entry is the first of the eight things wrong with it, in the order of the checks, and there is none exactly when nothing is wrong |
| GamesFile.VersionIsExact | internal/registry/registry.go:330-330 | A version is accepted if and only if it is three natural numbers in decimal joined by dots |
| GamesFile.MenuIsOrderedPermutation | internal/registry/registry.go:403-411 | The menu of an accepted file is a permutation of its entries, strictly ordered by (order, id), with distinct IDs and names |
| GamesFile.MenuHasEveryEntry | internal/registry/registry.go:385-410 | Every entry has a record in the menu with each field under its own name and its host key parsed, every record has such an entry, and the records come by order and then ID |
| GamesFile.LessIsLexicographic | internal/registry/registry.go:405-410 | IDs are compared as in a dictionary: a proper prefix first, and otherwise by the first difference |
| GamesFile.OrderedIsUnique | internal/registry/registry.go:405-410 | A list strictly ordered that way is determined by its elements |
| GamesFile.FileOrderIsIrrelevant | internal/registry/registry.go:354-412 | Reordering the entries changes neither the verdict nor the menu |
| Games.Playable | internal/registry/admission.go:13-26 | An accepted answer is an online entry with the asked ID that a guest may play when asked for one; removed means no entry has the ID |
| Games.PlayableIsExact | internal/registry/admission.go:13-26 | For a listed game each of the three answers holds if and only if its condition does, a missing key being reported before offline |
| AuthGuard.Guard.Wrap | internal/server/authguard.go:29-40 | Refuses exactly when shut down or at a cap; otherwise a fresh transport is live and pending with the auth deadline set |
| AuthGuard.Guard.AdmitGuest | internal/server/authguard.go:104-124 | Admits exactly a live transport, already a guest or within both guest caps; an admitted one is recorded with its address and counted once for it, and nothing else changes |
| AuthGuard.Guard.ClosePending | internal/server/authguard.go:41-52 | Shuts the guard and releases every pending transport and no other |
| AuthGuard.GuardedConn.SetDeadline | internal/server/authguard.go:65-72 | Until ready, a deadline that is unset or late becomes the auth deadline; once ready, or when early enough, it is the one asked for |
| AuthGuard.GuardedConn.Authenticated | internal/server/authguard.go:73-81 | The transport is ready, free of its auth deadline and no longer pending; it stays live |
| AuthGuard.GuardedConn.Close | internal/server/authguard.go:82-98 | The first close gives back everything the transport held; later ones release nothing |
| AuthGuard.GuestJoins | internal/server/authguard.go:120-124 | Counting a guest keeps each address's count equal to its live guest transports, with no zero entries |
| AuthGuard.GuestLeaves | internal/server/authguard.go:88-95 | Uncounting one does too, dropping the address at zero |
| AuthGuard.AdmittedIsSound | internal/server/authguard.go:104-124 | Admission keeps pending and guest transports subsets of live ones and every cap |
| AuthGuard.ReleasedIsSound | internal/server/authguard.go:82-98 | So does a release |
| TransportSchedule.EveryScheduleIsSound | internal/server/authguard.go:29-124 | In every interleaving with shutdown sweeps: subsets, caps, live or released but never both, and until ready a deadline that is set and at most the auth deadline |
| TransportSchedule.NothingPendingAfterShutdown | internal/server/authguard.go:41-52 | After one `closePending` has returned nothing is pending, and nothing ever becomes pending again |
| TransportSchedule.ReleasedForGood | internal/server/authguard.go:82-98 | A released transport is never live again, so its slot is given back once |
| TransportSchedule.DeadlinesAreExact | internal/server/authguard.go:65-81 | In every schedule a deadline asked for is clamped to the auth deadline until the transport is ready, and becoming ready lifts it |
| TransportSchedule.AdmissionIsRecorded | internal/server/authguard.go:104-124 | In every schedule a guest that may be admitted is recorded at once with its address, which then counts one guest more |
| TransportSchedule.GuestsStay | internal/server/authguard.go:82-124 | Once recorded, a guest stays recorded under the same address until its transport is released |
| TransportSchedule.ShutdownCanFinish | internal/server/authguard.go:41-52 | From every reachable state a shutdown's sweep can close whatever is pending and return, with the guard shut and nothing pending |
| TransportSchedule.RefusalMeansReserveUsed | internal/server/server.go:58-72 | When total capacity is exhausted, at least `MaxConnections - MaxGuestSessions` authenticated non-guest transports are live |
| TransportSchedule.ConfiguredCapsHold | internal/server/server.go:58-72 | In every schedule the live, pending and guest transports keep within the limits as configured, and the guests of one address within theirs |
| Limits.SessionLimits.constructor | internal/server/limits.go:21-23 | No shell is counted at first |
| Limits.SessionLimits.Acquire | internal/server/limits.go:49-72 | Admits exactly a valid identity with the global count and its own kind's counts below their caps; one more shell of its fingerprint or address is then open and tallied, and a refusal changes nothing |
| Limits.SessionLimits.Release | internal/server/limits.go:73-95 | One shell fewer of that fingerprint or address is open and tallied; with none open nothing changes |
| Limits.TallyWith | internal/server/limits.go:58-71 | How opening a shell shows in the four counters |
| Limits.TallyWithout | internal/server/limits.go:76-94 | How closing one shows, with no zero entry left behind |
| Limits.CountersAgree | internal/server/limits.go:14-19 | `guests` is the sum over addresses, `global` adds the sum over keys, and no stored count is zero |
| Limits.CountersDetermineShells | internal/server/limits.go:14-19 | Equal counters mean the same open shells, so they are all empty exactly when no shell is open |
| Limits.EveryScheduleIsFaithful | internal/server/limits.go:24-38 | With acquire and release paired by the middleware, after any schedule the multiset counts exactly the running sessions, and with none running the counters are empty again |
| Limits.ArrivalsAreExact | internal/server/limits.go:24-72 | A new session runs, with its own shell, if and only if the sessions running then number less than the global cap and its own kind's caps |
| Limits.LeavesAreExact | internal/server/limits.go:24-38 | A session that leaves no longer runs, and nobody else stops |
| Limits.CapsAlwaysHold | internal/server/limits.go:49-72 | No schedule exceeds the global, guest, per-key or per-address cap |
| Limits.RunningStayWithinCaps | internal/server/limits.go:24-72 | Nor do the running sessions ever: in all, of guests, of one player, from one address |
| Limits.GlobalRefusalMeansReserveUsed | internal/server/limits.go:55-57 | A shell refused for the global cap means at least global cap minus guest cap keyed shells are open |
| SessionLoop.Session.RunLobby | internal/server/handler.go:158-250 | From the loop head back to the loop head: the menu runs with input, resizes and pokes connected and the flash shown, and everything is taken down again; only keyed players' acknowledgements reach the store |
| SessionLoop.Session.Visit | internal/server/handler.go:97-118 | Bridges into the game with the seat in it for just that call, disconnects everything and resets the terminal; how it ended follows from what the bridge met |
| SessionLoop.Session.Conclude | internal/server/handler.go:125-142 | Reports down exactly an unreachable game and words the flash each ending calls for |
| SessionLoop.Session.Play | internal/server/handler.go:92-142 | A chosen game is visited exactly when the current registry lets this player play it, on the registry's own record; otherwise the refusal is the next flash |
| SessionLoop.Session.Handle | internal/server/handler.go:36-152 | Over any turns the log keeps the discipline and shows exactly the greeting and the story the turns tell; the handler returns if and only if some turn quits, idles, disconnects or comes back from its game with the connection gone; each return has freed the seat, and nothing is left routed, open, attached or subscribed |
| SessionLoop.Session.Answer | internal/server/handler.go:74-150 | The session goes on exactly after a refused choice or a visit with the connection still there; a deliberate end says its farewell, and every end frees the seat |
| SessionLoop.NextIsExact | internal/server/handler.go:74-150 | There is a next menu if and only if the turn is not over, and it shows the refusal or what the visit's ending calls for |
| SessionLoop.TurnIsTold | internal/server/handler.go:71-151 | A turn shows its menu with the flash first, then a keyed player's calls to the store in order, then the answer |
| SessionLoop.AnswerIsExact | internal/server/handler.go:74-116 | Quitting and idling are answered by their own farewell, disconnecting and a refusal by nothing, and a playable choice by exactly one bridge |
| SessionLoop.FlashesAreExact | internal/server/handler.go:125-142 | Each ending of a bridge has its own flash, and a clean one has none |
| SessionLoop.FarewellIsLast | internal/server/handler.go:75-90 | Nothing follows a farewell |
| SessionLoop.DisciplineMeans | internal/server/handler.go:57-152 | At every point of a disciplined log, what the log so far amounts to allows what comes next: a menu or bridge only with input and resizes connected, a farewell or the end only with nothing left, a pipe closed only after it was revoked |
| SessionLoop.AdmittedEndsAreExact | internal/bridge/bridge.go:57-202 | How an admitted bridge ends is down to the identity, the dial, the requests and the wait, each ending having its exact condition |
| SessionLoop.StoryBridgesArePlayable | internal/server/handler.go:92-110 | Every bridge of the handler's story belongs to a turn in which the player chose that game and that turn's registry declares that record playable, and it ends as that turn's run does |
| SessionLoop.StoryCallsAreAsked | internal/server/handler.go:39-43 | Every call to the acknowledgement store, read or write, is one that some turn's menu makes, and none is a guest's |
| SessionLoop.StoryIsTold | internal/server/handler.go:71-151 | Everything the session shows is told by one of the turns it reaches |
| SessionLoop.ReachedIsTold | internal/server/handler.go:71-151 | And whatever a turn it reaches tells, its menu's flash, its calls and its answer, is shown |
| SessionLoop.BridgesArePlayable | internal/server/handler.go:92-110 | In a disciplined log every bridge starts on the record the registry declares playable, with the seat in that game, and for a guest only on a game that allows guests |
| SessionLoop.GuestsNeverReachTheStore | internal/server/handler.go:39-53 | A guest's disciplined log holds no account-store call: no account touched, no acknowledgement read or written |
| WholeSession.UnwarnedBridgeIsExact | internal/server/handler.go:92-110 | A chosen game is bridged flagged and unwarned if and only if the message activated it unacknowledged, the menu's first read shows it without its flag and the handler's read shows it playable and with it |
| WholeSession.EveryFlaggedBridgeIsExplained | internal/server/handler.go:71-110 | A bridge is part of a session if and only if some visit the session reaches calls for it; in every such visit, for a flagged game, the last message to choose it confirmed it, found it acknowledged by a keyed player's other session or earned earlier in this one, or activated it with no flag in the menu's first read |
| WholeSession.VisitIsExplained | internal/server/handler.go:92-110 | In any one visit that bridges into a flagged game, whatever was stored before, the last message to choose it confirmed it, found it acknowledged, or activated it with no flag in the menu's first read |
| WholeSession.MenuEndsAreExact | internal/server/handler.go:232-250 | The handler takes a menu program that did not fail as its player ended it, and one that failed as a disconnection |
| WholeSession.StoredWasEarned | internal/server/prefs.go:14-41 | Whatever acknowledgement a session finds stored by itself was ticked and confirmed earlier in the same session, across menus, for a game playable then |
| WholeSession.MenuAndBridgeDiffer | internal/server/handler.go:92-97 | For any game a run that bridges it unwarned though the menu's result carries no flag, and one whose result is flagged and unwarned though no flagged game is bridged |
| WholeSession.EveryStoredAckWasEarned | internal/lobby/lobby.go:359-371 | In any session, every acknowledgement that reaches the store is put by a menu the session reaches, in which it was ticked and confirmed for a game the player could play then |
| WholeSession.PutsAreEarned | internal/lobby/lobby.go:359-371 | In any one visit, an acknowledgement put among the first n messages was ticked and confirmed by one of them |
| SessionLoop.ResetBeforeMenu | internal/server/handler.go:118-118 | Between any game and any later menu, or the end, there is a terminal reset |
| SessionLoop.ReportsAreUnreachable | internal/server/handler.go:129-132 | A report down comes after an unreachable bridge to the same game, with no other bridge in between |
| SessionLoop.UnreachableIsReported | internal/server/handler.go:129-132 | An unreachable game is reported before any later menu, or the end |
| Presence.Tracker.Join | internal/presence/tracker.go:33-39 | A fresh seat in the menu is counted; no other seat changes |
| Presence.Tracker.Tally | internal/presence/tracker.go:70-99 | The one-pass count equals the definition by sets of distinct keys, over all seats, in the menu and in each game, with exactly the occupied games listed |
| Presence.Tracker.Gather | internal/presence/tracker.go:74-87 | The pass collects the distinct keys overall, in the menu and in each occupied game |
| Presence.Seat.Enter | internal/presence/tracker.go:42-46 | Moves this session and leaves who is counted, and every other place, as it was |
| Presence.Seat.Leave | internal/presence/tracker.go:52-56 | The seat, and only it, stops being counted |
| Presence.TallyBounds | internal/presence/tracker.go:58-67 | Menu and each game hold at most the players, no listed game is at zero, and players <= menu plus games <= sessions |
| Presence.LeftForGood | internal/presence/tracker.go:42-56 | Whatever follows, a session is counted later if and only if it is counted now and does not leave; a late `Enter` brings nobody back |
| Presence.PlaceIsItsHistory | internal/presence/tracker.go:33-56 | In every schedule a session is in the game it entered last since it joined, under the key of its first join |
| Presence.JoiningCounts | internal/presence/tracker.go:33-39 | A session that joins is counted |
| Publisher.Build | internal/presence/publisher.go:133-157 | Every game in menu order with its count; the offline document shows no player and every game down; the time is cut to the second |
| Publisher.NeverTwoPublishers | internal/presence/publisher.go:96-128 | In every interleaving of starts, ticks and closes no channel is closed twice and `failing` is touched by one thread at a time |
| Publisher.ClosesAreFirst | internal/presence/publisher.go:96-128 | In every schedule, a channel that a thread is about to close is open |
| Publisher.StartPublishes | internal/presence/publisher.go:96-101 | The first `Start` publishes an online document at once and leaves the loop waiting for its ticks |
| Publisher.TicksPublish | internal/presence/publisher.go:116-128 | Each tick publishes one online document more, after which the loop waits again |
| Publisher.OfflineIsLast | internal/presence/publisher.go:105-114 | Once a `Close` has returned, the only offline document is the last one, and nothing is built afterwards, whatever is called |
| Publisher.CloseCanAlwaysFinish | internal/presence/publisher.go:105-128 | From every reachable state with a `Close` running, at most sixteen steps of the threads it waits for let it return, started or not |
| ProxyProto.ValidSlot | internal/proxyproto/proxyproto.go:76-89 | Accepts exactly one to thirty-two slot characters |
| ProxyProto.SanitizeSlot | internal/proxyproto/proxyproto.go:94-115 | The loop computes the first thirty-two slot characters of the lowercased input, untrimmed |
| ProxyProto.KeptConcat | internal/proxyproto/proxyproto.go:100-113 | What is kept of a text is what is kept of its parts, in order |
| ProxyProto.KeptOfOne | internal/proxyproto/proxyproto.go:100-113 | Of one character, its lowercase is kept exactly when that is a slot character |
| ProxyProto.SanitizedIsPrefix | internal/proxyproto/proxyproto.go:94-115 | The result is the first thirty-two of the characters kept, or all when they are fewer |
| ProxyProto.SlotIsExact | internal/proxyproto/proxyproto.go:40-46 | A name that leaves nothing gets the slot `default`, any other its sanitized form, and the slot sent is always valid |
| ProxyProto.TrimLeftIsRedundant | internal/proxyproto/proxyproto.go:94-100 | Trimming leading space never changes the result |
| ProxyProto.TrimRightIsRedundant | internal/proxyproto/proxyproto.go:94-100 | Nor does trimming trailing space |
| ProxyProto.SanitizedIsSlot | internal/proxyproto/proxyproto.go:76-115 | The result is empty or a valid slot, and sanitizing is idempotent |
| ProxyProto.FixedPointsAreSlots | internal/proxyproto/proxyproto.go:76-115 | The fixed points are the empty name and exactly the valid slots |
| ProxyProto.Parse | internal/proxyproto/proxyproto.go:51-74 | Accepts exactly the well-formed names, returns the digest and slot they stand for, and says which check failed |
| ProxyProto.UnhexHexOf | internal/proxyproto/proxyproto.go:40-66 | Reading back the hexadecimal digits gives the bytes |
| ProxyProto.HexOfUnhex | internal/proxyproto/proxyproto.go:40-66 | Writing back the bytes gives the lowercase digits |
| ProxyProto.HexDigitsAt | internal/proxyproto/proxyproto.go:40-46 | Each byte is written as two lowercase hexadecimal digits, the high half first |
| ProxyProto.ParseUndoesEncode | internal/proxyproto/proxyproto.go:40-74 | Every encoded name is accepted, stands for the digest and the sanitized slot or `default`, and has at most 97 characters |
| ProxyProto.EncodeUndoesParse | internal/proxyproto/proxyproto.go:40-74 | Encoding what an accepted name stands for gives the name back |
| ProxyProto.AcceptedIffEncoded | internal/proxyproto/proxyproto.go:40-74 | The accepted language is exactly the range of the encoder |
| Identity.ValidToken | internal/identity/identity.go:36-47 | Accepts exactly thirty-two lowercase hexadecimal digits |
| Identity.Validate | internal/identity/identity.go:48-60 | Accepts exactly the identities of one kind with that kind's fields and no other's |
| Identity.BridgeUser | internal/bridge/bridge.go:67-80 | A keyed name stands for the key's digest and the slot; a guest's is never accepted as an account; each refusal has its exact cause |
| Identity.GuestNamesAreRefused | internal/bridge/bridge.go:72-78 | No name that begins as a guest's does is ever accepted by the parser |
| Identity.NewKeyedIsValid | internal/identity/identity.go:27-33 | A keyed identity carries the key, its fingerprint and the player's slot, is valid if and only if there is a key, and its slot is sent unchanged |
| Identity.NewGuestIsValid | internal/identity/identity.go:34-35 | A minted guest identity carries its token and is always valid |
| Identity.PresenceKeysAreDistinct | internal/identity/identity.go:61-66 | Presence keys of valid identities are equal if and only if kind and account or token are, so guests and players never collide |
| Identity.EncodedNamesIdentify | internal/proxyproto/proxyproto.go:40-46 | Two players get the same user name if and only if they share the digest and the slot |
| MenuView.TopBox | internal/lobby/hitbox.go:31-38 | The last registered box that contains the cell, or none when no box does |
| MenuView.Hitboxes.At | internal/lobby/hitbox.go:31-38 | The backward scan finds the topmost box |
| MenuView.WindowShowsCursor | internal/lobby/view.go:111-130 | For any list and in-range cursor the window lies in the list, contains the cursor and fits between banner and identity row |
| MenuView.DrawGames | internal/lobby/view.go:169-240 | Two rows and one box for each game of the window; the early exit is never taken |
| MenuView.FillBanner | internal/lobby/view.go:132-157 | An enabled notice takes the first two rows at most, title above message; a disabled one draws nothing |
| MenuView.FillMenu | internal/lobby/view.go:161-261 | Exactly the window's games are drawn and boxed: banner, games and notes are all on screen, none overwriting another, and no other row gains a game |
| MenuView.FillAlphaWarn | internal/lobby/view.go:339-382 | The warning fills its eleven rows and no other, and the two boxes lie on the rows of the checkbox and the continue line |
| MenuView.View | internal/lobby/view.go:37-78 | After a render rows and boxes are those of what is on screen now: a row shows a game if and only if it lies in the window, the warning shows its rows, and a terminal too small shows no game and has no box |
| MenuView.GameBoxesAreDisjoint | internal/lobby/view.go:228-239 | Game boxes never overlap and lie inside the frame between the banner and the identity row |
| MenuView.ClickHitsDrawnGame | internal/lobby/view.go:228-239 | Any cell of a drawn game's two rows yields that game's index |
| MenuView.ClickFindsGameBox | internal/lobby/view.go:228-239 | That box carries the game's own ID and index |
| MenuView.WindowIsLeast | internal/lobby/view.go:118-130 | The window has room for seven games, or five below a banner, and scrolls no further than the cursor needs |
| MenuView.FrameIsCentred | internal/lobby/view.go:62-78 | The frame is drawn on a terminal of at least 80 by 24 cells, and sits in the middle of it |
| MenuView.ClickElsewhereMisses | internal/lobby/view.go:228-239 | Any cell that yields a box belongs to a drawn game |
| Lobby.UpdateIsSound | internal/lobby/lobby.go:178-381 | Every update keeps the cursor in range and at most one overlay open, and every play result or acknowledgement it changes is justified, whatever an earlier update has set and with the registry free to change within it |
| Lobby.PokeShowsTheRegistry | internal/lobby/lobby.go:195-196 | A poke shows the list and the banner as they are read then, with the cursor kept, or on the last row when the list got shorter, and nothing else changes |
| Lobby.TickShowsTheRegistry | internal/lobby/lobby.go:184-194 | So does a tick, which also lets an old flash go and ends the menu exactly when the player has been idle for too long |
| Lobby.CursorMoves | internal/lobby/lobby.go:316-327 | Up, down and a wheel step move the cursor by one, stopping at the ends |
| Lobby.WarningFollowsKeys | internal/lobby/lobby.go:218-238 | On the warning, Space ticks, Esc and Backspace close it, and any other key but Enter and Ctrl-C does nothing |
| Lobby.AboutFollowsKeys | internal/lobby/lobby.go:218-258 | The about screen opens on its key, and any key but Ctrl-C closes it and does nothing else |
| Lobby.ScreenFollows | internal/lobby/lobby.go:178-258 | A window size is taken as it is, a render's boxes replace the old ones, and a recheck says so for three seconds |
| Lobby.InputIsTimed | internal/lobby/lobby.go:178-216 | Keys, clicks and wheel steps are timed and nothing else is; who the player is never changes |
| Lobby.OutcomeIsExact | internal/lobby/lobby.go:178-381 | The outcome after any update is the one its message calls for, or else the earlier one: a play result needs an activation that both registry reads admit and that needs no warning, or a confirmation that both admit |
| Lobby.EmissionIsExact | internal/lobby/lobby.go:178-381 | In the registry's own terms: a game starts if and only if it was activated with no warning due or confirmed, and both reads let the player in; quitting and idling have their exact causes |
| Lobby.PlayIsCurrentAndPlayable | internal/lobby/lobby.go:373-381 | A play result that an update sets is the current record of a game playable at that update |
| Lobby.AcksAreEarned | internal/lobby/lobby.go:359-371 | An acknowledgement is stored only for the ticked, confirmed and still playable game of the overlay |
| Lobby.AcksFollowCalls | internal/lobby/lobby.go:359-371 | What a session has stored grows by exactly the acknowledgement its update puts, when the store takes it |
| Lobby.UnaskedStoreDecidesNothing | internal/lobby/lobby.go:340-357 | An update that does not ask the store starts the same game whatever the store holds |
| Lobby.FlaggedGamesAreWarned | internal/lobby/lobby.go:331-371 | With the registry still during the update, no message starts a flagged game that is neither confirmed nor acknowledged |
| Lobby.UnwarnedLaunchIsExact | internal/lobby/lobby.go:178-381 | Without that, for every key press and click: a game starts flagged and unwarned if and only if the message activates it unacknowledged, both reads admit it and its flag appears between them |
| Lobby.UnwarnedLaunchHappens | internal/lobby/lobby.go:331-381 | For any game there is such a start: Enter with the flag appearing between the two reads |
| Lobby.EnterIsExact | internal/lobby/lobby.go:331-357 | Enter on a selected game opens the warning if and only if one is due, stores nothing, and starts the game exactly as activation does |
| Lobby.ConfirmIsExact | internal/lobby/lobby.go:359-381 | Enter on the warning closes it, starts the game if and only if both reads let the player in, stores the acknowledgement exactly when it was ticked and the first read does, and otherwise flashes the refusal |
| Lobby.StaleBoxesAreInert | internal/lobby/lobby.go:260-301 | A click on boxes left from the other screen changes nothing but the time of the last input |
| Lobby.ClickSelectsDrawnGame | internal/lobby/lobby.go:281-300 | A click on a drawn game puts the cursor on that game |
| Lobby.ClickActivates | internal/lobby/lobby.go:281-300 | A click on a drawn game activates it exactly when it is the selected one or was clicked within the last 400 milliseconds |
| Lobby.WarningFollowsClicks | internal/lobby/lobby.go:260-280 | On the warning, a click ticks or confirms exactly on the box that says so |
| Lobby.OtherClicks | internal/lobby/lobby.go:260-300 | A left click closes the about screen; one that hits no box, and a click with any other button, does nothing but be timed |
| Lobby.EveryPlayWasPlayable | internal/lobby/lobby.go:178-216 | Over every run of messages, those handled after an earlier result included, a play result was set by some turn and by none after it, and was playable as recorded in that turn's own registry read |
| Lobby.EveryAckWasEarned | internal/lobby/lobby.go:178-216 | Over every such run, each added acknowledgement was ticked and confirmed in some turn for a game playable then |

## Left out

- SSH handshakes, TCP dials, channel requests and byte copying in the bridge: library I/O. A bridge run is classified from what its dial, its requests and its wait return.
- TOML decoding, host-key and address parsing, SHA-256, random bytes and Unicode tables: functions passed in as parameters, with only the laws the sanitizer needs.
- Banner contents: what makes a banner file good is a parameter of the reload protocol.
- The account store: a log of calls, reads of acknowledgements included. An update finds the acknowledgements this session has stored and any that the player's other sessions have; its reads and writes may fail at every update.
- Menu rendering: styles, ANSI text, borders and the wording of the about screen. Only rows, windows and boxes are modelled.
- `config.Load`: only its validated limits appear, as the sizes of the caps.
- Probing itself (`probe`, `bannerVersion`): a probe is its result. A changed detected version alone does not notify in the source either, so it is outside the wake-up guarantee.
- Process shutdown, PTY fixes for Windows hosts, preferences plumbing, logging, and the deployment scripts: they would only add easy members.
- The publisher's temporary file and rename: operating-system behaviour.
- Real time and fairness: results are statements over every schedule, exact single cycles, and schedules that can always finish what is under way (`ShutdownCanFinish`, `MenusCanCatchUp`, `ResizesCanBeDelivered`, `CloseCanAlwaysFinish`); that threads do take those steps is left to the scheduler.
- The winch pump's loop as one method: its critical sections, its delivery and its release are methods of their own, and their interleavings a state machine over values.
- Real concurrency in the imperative methods: other threads act between a method's steps only where its contract says so; the schedules cover every interleaving.
- Monotonicity of `lastChange`: the source takes the time before the lock, so it does not hold.
- Go's byte strings: names are sequences of characters. The two differ only outside ASCII, where the checked names are refused either way.
- A file rewritten twice within its modification-time granularity: each write is taken to have a new time.
- Handler panics, and deadlines set other than through `SetDeadline`.
- `Registry.ProbeNow` and `Source.ReloadNow`: they only bring the next cycle forward.
