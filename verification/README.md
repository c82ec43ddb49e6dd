# A verified model of axctl

axctl is a daemon that mirrors the state of a Wayland compositor, manages idle monitors and
inhibitors, loads layered configuration files, prints compositor configuration in several
syntaxes, and streams events to subscribers. This project models the parts of it in which
something can go wrong over time or between functions, and proves what those parts guarantee.
Each line below names the modules that belong together.

- `ConfigLoader`, `ConfigMeaning`: the include-resolving loader. All levels of its recursion
  share one list of entries and one table of 32 includes that grows while it is being walked.
  Lookups have a flat meaning; the files read are those of a single pass over a list; whether a
  load is complete has an exact condition that can be read off the include lines.
- `WindowList`, `Agreement`, `WindowCache`, `HyprEvents`: the mirrored window list. A compositor
  emits events, one thread consumes them, and refreshes look at the compositor as it is now.
  No window is ever lost, and whether the mirror is exact can be read off the events that were
  waiting at the latest refresh.
- `Subscribers`, `Broadcast`, `BroadcastTearing`: two threads broadcast to the same subscribers
  under one mutex, and the three arrays of a message are read at three different moments.
- `IdleState`, `IdleSafety`, `IdleCallbacks`, `IdleManager`: idle monitors and inhibitors in
  tables of 64 slots, the Wayland objects they hold, and the delivery of idle callbacks.
- `MediaScan`: the one-pass scan of sink inputs against a specification that groups first.
- `Framing`, `Interleaving`: line framing between the server and the subscribing client, for one
  writer and for several.
- `Colors`, `LuaQuote`, `LuaParts`, `LuaActions`, `Keybinds`, `LuaKeybinds`, `LuaNesting`,
  `Appearance`: normalising colours and printing configuration, each with a reader that undoes or
  checks the printing.
- `Strings`, `Wrappers`: helpers.

Where the code and an expectation of it differ, the code is kept and the difference is stated
exactly, with an input or a run that shows it. The lemmas about this are

- `LoadIsCompleteIff`, `SmallDiskLosesASetting`: files that a load never opens;
- `ExactIff`, `StaleEntryHappens`: an entry for a window that is gone;
- `StaysSubscribedIff`, `ListedIsAcceptedLessDeparted`, `LeavesOneBehind`: a client that has left
  and is still served;
- `IdleMessageIsStateIff`, `TornMessage`: a message that shows a state that never was;
- `AllArriveIff`, `TwoWritersMerge`: messages of several writers that run into each other;
- `StuckIff`, `StuckHappens`: a toggle that never works again;
- `DisabledKeepsSurfaceIff`, `DisabledSurfaceHappens`: a surface that a disabled inhibitor keeps;
- `ToggleTakesEffect`, `ToggleIsNotTriedAgain`: a toggle that is on and inhibits nothing;
- `LateCallbackIff`, `LateCallbackHappens`: a callback after destruction;
- `JunkNameIff`, `EmptyNameIsReported`: a quote or line end reported in a program's name;
- `MangoAgreesIff`, `ShortWhiteDiffers`: two colour formats;
- `HyprlangReadsBackIff`, `CommaKeyIsLost`, `SignInCommandIsLost` and `LuaReadsBackIff`,
  `PlusKeyIsLost`, `ReturnInArgumentIsLost`: binds that the printed syntax cannot carry;
- `SameTextIff`, `SilentMoveIsLost`: known dispatchers that have the same text in Lua;
- `ExecAgreesIff`, `UnknownDispatcherDiffers`: a bind that runs a command in one syntax only;
- `MouseAgreesIff`, `MouseCommandDiffers` and `FlagsAgreeIff`, `LockedFlagDiffers`: options of a
  bind that only one syntax prints;
- `LayoutNestedIff`, `BackslashLayoutBreaks`: Lua text whose brackets do not match.

What a function on values means is stated a second time without it: by the characters of the lines
and texts it reads or writes, entry by entry, or by what a call leaves behind.

Code that changes things step by step is modelled by classes, arrays and loops, each tied by its
postcondition to a function on values; what the code is for is then proved about those functions
and about every run. Threads are modelled as state machines whose steps are the stretches
between two lock operations.

## Model

| member | source | states |
|---|---|---|
| ConfigLoader.TomlConfig.KvAdd | src/config/config.c:95-110 | an entry goes to the end of the list, its value without the surrounding quotes |
| ConfigLoader.TomlConfig.KvGet | src/config/config.c:112-120 | the scan returns the first entry with this section and key, or nothing |
| ConfigLoader.TomlConfig.AddIncludes | src/config/config.c:204-233 | an include line fills the table up to 32 slots with resolved paths, in order, and drops the rest |
| ConfigLoader.TomlConfig.ReadLines | src/config/config.c:166-239 | reading one file adds its bindings and its includes in file order |
| ConfigLoader.TomlConfig.ParseTomlFile | src/config/config.c:146-249 | the recursion over the shared, growing table terminates for every include graph and equals the function `Parse`; it fails exactly beyond depth 10 or for an unreadable file |
| ConfigLoader.TomlConfig.ProcessIncludes | src/config/config.c:241-246 | the loop over the table that grows inside the loop equals the function `Walk`, measured by (11 - depth, 32 - i) |
| ConfigLoader.LoadConfig | src/config/config.c:280-291 | a load fails exactly when the main file cannot be read, and otherwise gives the store `Parse` describes |
| ConfigMeaning.ResolvesBeside | src/config/config.c:217-223 | an included name is looked for in the directory of the file that includes it, up to the last slash; a path without a slash counts as a directory |
| ConfigMeaning.IncludesBesideMain | src/config/config.c:204-233 | for every disk, the first 32 names in the include lines of main fill the first slots of the final table, in order, each in the directory of main |
| ConfigMeaning.FirstBindingCounts | src/config/config.c:166-239 | a file gives a section and key the value of its first binding of both, or none |
| ConfigMeaning.FirstBindingOfMainWins | src/config/config.c:112-249 | for every disk, a lookup after the load finds the first binding of main, whatever else is read |
| ConfigMeaning.LookupMeaning | src/config/config.c:112-249 | every lookup after a load finds the first match in main, then in the files of the final table in table order, however often the recursion re-read them |
| ConfigMeaning.MainOverridesIncludes | src/config/config.c:112-249 | a key set in the main file keeps that value whatever the includes say |
| ConfigMeaning.ParseKeepsSync | src/config/config.c:241-246 | key invariant: whenever slot i is parsed all earlier slots have been parsed, and parsing keeps list and table in step |
| ConfigMeaning.WalkKeepsSync | src/config/config.c:241-246 | the walk over the table keeps the same invariant and leaves every slot parsed |
| ConfigMeaning.ParseOnlyAppends | src/config/config.c:213-246 | parsing a file never changes or removes a slot of the table that is already filled |
| ConfigMeaning.TableIsOnePass | src/config/config.c:146-249 | the recursion reads exactly the files that one pass over a list reads, once the first readable include is repeated for each level |
| ConfigMeaning.LoadIsCompleteIff | src/config/config.c:213-246 | only files that main leads to are read, and all of them are read exactly when the one-pass table is closed under inclusion |
| ConfigMeaning.FirstIncludeStarvesTheRest | src/config/config.c:213-246 | when repeats of the first readable include fill the table, nothing but the direct includes and that file's includes is read |
| ConfigMeaning.ThirdLevelIsLost | src/config/config.c:213-246 | one include with four includes of its own is enough to lose every file on the third level |
| ConfigMeaning.SmallDiskLosesAFile | src/config/config.c:213-246 | the same for four actual files, given by their lines |
| ConfigMeaning.SmallDiskLosesASetting | src/config/config.c:213-246 | the only setting in those files is in one that main leads to, and a lookup does not find it |
| ConfigMeaning.CallsBounded | src/config/config.c:146-249 | the number of parse calls is bounded by a recurrence in the depth left |
| ConfigMeaning.LoadCallsBounded | src/config/config.c:146-249 | one load makes fewer than 32^12 / 31 parse calls |
| WindowList.CountRemoveFirst | src/ipc/cache.c:92-105 | removal takes away one entry of the id if there is one, and none of any other id |
| WindowList.CountEditFirst | src/ipc/cache.c:107-159 | updates change no id |
| WindowList.FocusSetsOneId | src/ipc/cache.c:161-168 | after marking, only entries with the given id are focused |
| WindowList.FocusMarks | src/ipc/cache.c:161-168 | after marking, every entry is focused exactly if it has the id, and nothing else differs |
| WindowList.ChangesFirst | src/ipc/cache.c:92-159 | removal takes out the first entry with the id and an update sets the one field of it that it names; all other entries and fields stay |
| WindowCache.WindowArray.Push | src/ipc/types.c:39-49 | pushing appends, growing from nothing to 8 and then by doubling, exactly when the buffer is full |
| WindowCache.Dup | src/ipc/types.c:103-118 | a copy shows the same window and shares no string with the original |
| WindowCache.Cache.AddWindow | src/ipc/cache.c:82-90 | an added entry goes to the end, without deduplication, in strings of its own |
| WindowCache.Cache.FindFirst | src/ipc/cache.c:94-95 | the scan shared by removal and updates finds the first entry with the id |
| WindowCache.WindowArray.ShiftOut | src/ipc/cache.c:97-101 | the entries behind the removed one move left by one |
| WindowCache.Cache.RemoveWindow | src/ipc/cache.c:92-105 | removal in place takes out the first entry with the id; the order of the others stays |
| WindowCache.Cache.UpdateWindow | src/ipc/cache.c:107-159 | an update in place changes one field of the first match and nothing else |
| WindowCache.Cache.MarkWindowFocused | src/ipc/cache.c:161-168 | exactly the entries with the id are marked, all others unmarked |
| WindowCache.Cache.SetWindows | src/ipc/cache.c:170-177 | the cache takes over the buffer and leaves the source empty |
| WindowCache.Cache.GetWindows | src/ipc/cache.c:179-184 | the copy has the same contents and shares no string with the cache |
| WindowCache.Cache.HandleEvent | src/server/server.c:264-436 | for every event that does not refresh, the contents of the cache: one more entry, the first match gone, exactly the entries of the id marked, one field of the first match set, or nothing changed |
| WindowCache.Cache.Refresh | src/server/server.c:192-219 | a refresh installs the listing, if there is one, and then marks the active window, if there is one |
| WindowList.FirstMatch | src/ipc/cache.c:92-117 | removal and update act at the first entry with the id |
| Agreement.CountDrain | src/server/server.c:264-436 | draining a queue changes each id's count as the tally of its events says |
| Agreement.DrainOntoSnapshot | src/server/server.c:192-207 | draining the events a snapshot was ahead of lists each open window once, plus once more exactly if it opened among them |
| Agreement.NextKeepsInv | src/server/server.c:192-436 | every step of compositor and event thread keeps the invariant |
| Agreement.DrainedCount | src/server/server.c:192-436 | over every run, after draining, a window is listed once if open, and once more if it raced with the latest snapshot |
| Agreement.NoWindowLost | src/server/server.c:192-436 | over every run, from the first successful refresh on, no open window is missing after draining |
| Agreement.ExactIff | src/server/server.c:192-436 | in every state, the mirror is exact if and only if, when the latest snapshot was taken, no window was open whose first waiting opening or closing was an opening |
| Agreement.SomeSnapshotIsLatest | src/server/server.c:192-219 | in every state after a successful listing there is a latest one, so the condition above always applies |
| Agreement.CalmRunIsExact | src/server/server.c:192-436 | if all refreshes met a queue without openings and closings, the mirror is exact in every later state |
| Agreement.FocusedShareOneId | src/server/server.c:298-311 | over every run, all focused entries have the same id, duplicates included |
| Agreement.FocusLasts | src/server/server.c:192-311 | over every run, as long as no other window is marked and no listing replaces the list, of the entries listed at a focus exactly those with its id are marked, and none that came later |
| Agreement.FocusIsExact | src/server/server.c:192-311 | if no window opens in between, every entry is marked exactly if it has the id of the latest focus |
| Agreement.StaleEntryHappens | src/server/server.c:192-436 | a run can end with an empty queue and an entry for a window that is closed |
| HyprEvents.Decode | src/ipc/hyprland/client.c:243-278 | a decoded opening is never marked as focused |
| HyprEvents.DecodeLine | src/ipc/hyprland/client.c:243-256 | a line splits at the first ">>" and loses its newline |
| HyprEvents.SkippedIff | src/ipc/hyprland/client.c:243-248 | a line is skipped exactly if it has no ">>" |
| HyprEvents.RefreshIff | src/ipc/hyprland/client.c:200-219 | a line asks for a refresh exactly if its name is none of ten; four of these are only passed on |
| HyprEvents.OpenAndCloseMatch | src/ipc/hyprland/client.c:259-284 | the lines that open and close a window act on the same id, whatever else the opening line carries |
| HyprEvents.FocusLine | src/ipc/hyprland/client.c:285-290 | a focus line marks the id of the line that opened the window |
| HyprEvents.MoveLine | src/ipc/hyprland/client.c:302-312 | a move line with three fields moves that id to the named workspace |
| HyprEvents.FloatLine | src/ipc/hyprland/client.c:316-326 | a floating line sets that id's flag as its second field says |
| HyprEvents.OpenLineAdds | src/ipc/hyprland/client.c:259-284 | an opening line adds an entry with the address, title, class and workspace of the line and all flags off |
| HyprEvents.CloseAndFocusLines | src/server/server.c:281-311 | a closing line takes out the first entry of its window; a focus line marks exactly the entries of its window |
| HyprEvents.MoveAndFloatLines | src/server/server.c:348-431 | a move line sets the workspace of the first entry of its window, a floating line its flag, and nothing else |
| HyprEvents.ShortMoveLine | src/ipc/hyprland/client.c:302-312 | a move line without a workspace name changes nothing |
| HyprEvents.ShortFloatLine | src/ipc/hyprland/client.c:316-326 | a floating line without a state switches the flag off |
| HyprEvents.ShortOpenLine | src/ipc/hyprland/client.c:259-284 | an opening line with nothing but an address adds an entry with empty texts |
| Subscribers.RemovedOnce | src/server/server.c:1089-1097 | leaving by swapping with the last takes out exactly one entry of the client and keeps all others |
| Subscribers.StaysSubscribedIff | src/server/server.c:966-978 | a client that has left is still listed exactly if it had subscribed more than once |
| Broadcast.ListedIsAcceptedLessDeparted | src/server/server.c:966-978 | after every run a client is listed as often as it was accepted and has not departed, so it is served exactly while it departed less often |
| Broadcast.LeavesOneBehind | src/server/server.c:966-978 | this does happen: a run of two subscriptions and one departure leaves the client on the list |
| Subscribers.ClientList.Subscribe | src/server/server.c:969-977 | a client is appended unless 64 are listed |
| Subscribers.ClientList.Leave | src/server/server.c:1089-1097 | the loop removes the first entry of the client by moving the last one into its place |
| Broadcast.TakeKeepsInv | src/server/server.c:449-489 | every step of the two broadcasting threads and of subscribers keeps the invariant |
| Broadcast.VersionsNeverDecrease | src/server/server.c:449-489 | of any two messages the later one carries, per array, a state that is not older |
| Broadcast.EventCarriesItsCache | src/server/server.c:104-155 | a message about a compositor event carries exactly the cache after that event; other messages something between the cache at the call and now |
| Broadcast.WholeListServed | src/server/server.c:477-486 | a broadcast that has gone through the list wrote one and the same dump to each subscriber, in list order, with no other message in between |
| Broadcast.FreedIff | src/server/server.c:449-489 | the mutex is given back by exactly one step, the release behind the last client |
| Broadcast.HeldForSomebody | src/server/server.c:457-463 | over every run, nobody holds the mutex while no client is listed |
| Broadcast.MutexComesFree | src/server/server.c:449-489 | from every reachable state the holder of the mutex can finish without help: every client still to be served gets one and the same message, in order, and the mutex comes free |
| BroadcastTearing.MessageIsShownAtItsReads | src/server/server.c:104-155 | for every run and every message about an idle monitor, the recorded moments of its three reads are reads of that thread, one after the other, and give the values it shows |
| BroadcastTearing.IdleMessageIsStateIff | src/server/server.c:104-155 | with those moments, or any others that give its values, the message shows a state the cache was in exactly if no array was written after its moment and, later still, another one before its own; a state is given by write counts, so a rewrite with equal contents counts as another state |
| Broadcast.TornMessage | src/server/server.c:104-155 | such a message does occur: a run ends with one that shows a state the cache was never in |
| IdleSafety.DoKeepsInv | src/server/idle.c:362-830 | every call of the interface keeps the invariant, whatever the display offers and whichever creations fail |
| IdleSafety.LiveIffHeld | src/server/idle.c:203-282 | after any calls, a notification, surface or inhibitor is live exactly when a slot holds it |
| IdleSafety.HeldOnce | src/server/idle.c:203-282 | no object is held twice and no deleted slot holds one; a slot with a notification or an inhibitor is enabled; an inhibitor never stands without its surface |
| IdleSafety.DisabledKeepsSurfaceIff | src/server/idle.c:253-282 | disabling an inhibitor leaves its surface behind exactly if it had one without an inhibitor |
| IdleSafety.DisabledSurfaceHappens | src/server/idle.c:253-282 | this does happen: a creation whose inhibitor fails, and then disabling |
| IdleSafety.DoGrows | src/server/idle.c:614-830 | no call removes a slot, changes an id or revives a deleted slot |
| IdleSafety.IdsAreSlots | src/server/idle.c:98-114 | slot i has id i + 1, ids never exceed 65, and the legacy id is 0, a live slot, or stuck |
| IdleSafety.CreationNeedsFreshSlot | src/server/idle.c:614-650 | creation succeeds exactly while fewer than 64 monitors were ever created, with an id never used before |
| IdleSafety.StuckIff | src/server/idle.c:362-379 | the legacy toggle gets stuck exactly when it needs a slot and all 64 have been handed out |
| IdleSafety.StuckHappens | src/server/idle.c:362-379 | this does happen: 64 inhibitors and then the first use of the toggle |
| IdleSafety.StuckForever | src/server/idle.c:362-379 | no call gets a stuck toggle going again |
| IdleSafety.UpdateTakesEffect | src/server/idle.c:652-680 | an update sets the new values and gives a new notification exactly when enabled and possible; no other slot, no inhibitor and no other live object changes |
| IdleSafety.CreatedMonitor | src/server/idle.c:614-650 | a new monitor is in use with the given settings and has a live notification exactly when enabled and possible; all others stay |
| IdleSafety.DestroyedMonitor | src/server/idle.c:704-728 | a destroyed monitor is out of use and its notification is not live; everything else stays |
| IdleSafety.CreatedInhibitor | src/server/idle.c:734-759 | a new inhibitor inhibits exactly if it is enabled, the display has manager and compositor, and both creations succeed |
| IdleSafety.SwitchedInhibitor | src/server/idle.c:761-781 | after a switch a slot inhibits exactly if it is on and did so before, or the display has manager and compositor, a surface is there or can be made, and the creation succeeds; no other slot changes |
| IdleSafety.DestroyedInhibitor | src/server/idle.c:802-830 | a destroyed inhibitor is out of use, holds nothing and is no longer the toggle's; no other slot changes |
| IdleSafety.DestroyedObjects | src/server/idle.c:802-830 | exactly its two objects are no longer live |
| IdleSafety.ToggleTakesEffect | src/server/idle.c:362-394 | the toggle ends up as asked; it inhibits exactly as a switched slot does, unless it is asked for what it already is: then nothing happens |
| IdleSafety.ToggleIsNotTriedAgain | src/server/idle.c:384-390 | so a toggle can be on and inhibit nothing, even when asked again on a display that would allow it |
| IdleSafety.FoundById | src/server/idle.c:98-114 | a slot is found by its id exactly as long as it is not deleted |
| IdleSafety.RefusedChangesNothing | src/server/idle.c:614-830 | a call for an id that is not in use, or for one slot too many, changes nothing |
| IdleCallbacks.TakeKeepsInv | src/server/idle.c:143-169 | calls and the three moments of a delivery keep the stored state in step with the callbacks |
| IdleCallbacks.CallbacksAlternate | src/server/idle.c:143-169 | for every order of events and calls, the callbacks of each id alternate, idle first, and the last one is the stored state whenever none is under way |
| IdleCallbacks.DeliveryTakesEffect | src/server/idle.c:143-169 | an event that is delivered undisturbed is stored, and called back under the id of its monitor exactly if it is news; nothing else changes |
| IdleCallbacks.LateCallbackIff | src/server/idle.c:143-169 | a destroyed monitor can still call back exactly if the delivery had passed the manager pointer with a change to report |
| IdleCallbacks.LateCallbackHappens | src/server/idle.c:143-169 | this does happen: a run that creates a monitor, starts a delivery and destroys the monitor |
| IdleManager.Idle.FindMonitor | src/server/idle.c:98-105 | the linear search is direct indexing by id |
| IdleManager.Idle.FindInhibitor | src/server/idle.c:107-114 | the linear search is direct indexing by id |
| IdleManager.Idle.RefreshMonitor | src/server/idle.c:203-244 | the slot is refreshed in place; only a live notification is destroyed |
| IdleManager.Idle.RefreshInhibitor | src/server/idle.c:253-282 | the slot is refreshed in place; only live objects are destroyed |
| IdleManager.Idle.MonitorCreate | src/server/idle.c:614-650 | the new slot, its id and its notification; fails exactly when the table is full |
| IdleManager.Idle.MonitorUpdate | src/server/idle.c:652-680 | the slot gets the new settings and is refreshed; fails exactly when there is no such live slot |
| IdleManager.Idle.MonitorGet | src/server/idle.c:682-702 | the live slot with this id, if there is one |
| IdleManager.Idle.MonitorDestroy | src/server/idle.c:704-728 | the slot becomes a tombstone and its notification is destroyed |
| IdleManager.Idle.SetMonitorIdle | src/server/idle.c:143-169 | the state is stored, and a callback is asked for exactly on a change |
| IdleManager.Idle.InhibitorCreate | src/server/idle.c:734-759 | the new slot, its id and its objects; fails exactly when the table is full |
| IdleManager.Idle.InhibitorSet | src/server/idle.c:761-781 | the slot is switched and refreshed; fails exactly when there is no such live slot |
| IdleManager.Idle.InhibitorGet | src/server/idle.c:783-800 | the live slot with this id, if there is one |
| IdleManager.Idle.InhibitorDestroy | src/server/idle.c:802-830 | the slot becomes a tombstone, both objects are destroyed, and the toggle forgets it |
| IdleManager.Idle.Inhibit | src/server/idle.c:362-394 | the toggle takes its slot on first use; it fails exactly when stuck |
| IdleManager.Idle.IsInhibited | src/server/idle.c:396-408 | the toggle's slot says whether it is on; without a slot it is off |
| IdleManager.Idle.Destroy | src/server/idle.c:308-345 | every live object is destroyed, none twice, and all callbacks are cut off |
| MediaScan.MediaCheck | src/server/idle.c:905-985 | the one-pass scan gives exactly the names of the blocks that are uncorked, unmuted, named and not blacklisted, in order, and their number |
| MediaScan.OffIsLeftOut | src/server/idle.c:924-946 | behind any other lines, a stream with a line `Corked: yes` or `Mute: yes`, at any indentation and in any case, adds nothing to the report |
| MediaScan.NamedIsReported | src/server/idle.c:921-985 | behind any other lines, a stream without such lines whose first line with a name key behind `Properties:` gives an ordinary name is reported under exactly this name, unless the name contains one of five patterns |
| MediaScan.UninterestingIff | src/server/idle.c:891-903 | the sixth pattern of the list makes no difference |
| MediaScan.ShoutedMuteIsLeftOut | src/server/idle.c:940-945 | for instance, a line in capital letters |
| MediaScan.NameFrom | src/server/idle.c:947-971 | a block has a name exactly if some property line after the properties header gives one |
| MediaScan.StrContainsCi | src/server/idle.c:117-134 | the nested loops find a substring, ignoring case |
| MediaScan.IsMediaBlacklisted | src/server/idle.c:891-903 | a name is blacklisted exactly if it contains one of the six patterns |
| MediaScan.CleanName | src/server/idle.c:955-969 | quotes and line ends are trimmed and the name cut to 255 characters |
| MediaScan.JunkNameIff | src/server/idle.c:955-969 | for every value, the name ends in a quote or line end exactly if nothing else was left, or if more than 255 characters remained and the cut falls behind such a character |
| MediaScan.EmptyNameIsReported | src/server/idle.c:953-961 | a stream with an empty application name is reported under the name of a line end |
| Framing.LineReader.Append | src/main.c:373-387 | a byte is appended, the buffer doubles before it is full, and there is always room for the terminator |
| Framing.LineReader.EndLine | src/main.c:357-372 | a line is handed on exactly if it is not empty |
| Framing.RunSubscribe | src/main.c:337-390 | what the client receives depends on the bytes only, not on where the reads cut them |
| Framing.RoundTripIff | src/server/server.c:472-486 | messages arrive unchanged exactly if none is empty or contains a newline or NUL |
| Interleaving.AllArriveIff | src/server/server.c:472-486 | for any number of writers, each writing message and newline in turn, plain messages all arrive unchanged exactly if nothing comes between a message and its newline; otherwise the number of lines is already wrong |
| Interleaving.TwoWritersMerge | src/server/server.c:472-486 | it does happen with two writers in order |
| Colors.ParseColorString | src/ipc/colors.c:105-169 | the token loop computes the joined colours and the last angle |
| Colors.NextToken | src/ipc/colors.c:116-117 | the tokeniser skips blanks and cuts at the next one |
| Colors.NormalisedOnce | src/ipc/colors.c:105-169 | for every input, parsing the output again, alone or with the angle, gives the same colours and angle |
| Colors.ConcatParses | src/ipc/colors.c:105-169 | of two inputs one after the other, the colours are those of both, in order, and the angle is that of the second unless it has none |
| Colors.OneToken | src/ipc/colors.c:75-165 | what a single token means: an angle, a wrapped colour as it is, a colour in digits with or without alpha, opaque black for too few digits behind a number sign, or nothing |
| Colors.ColorIsFixed | src/ipc/colors.c:75-92 | every normalised token stands for itself |
| Colors.MangoOfDigits | src/ipc/colors.c:24-73 | three or four digits are doubled one by one, three and six get an opaque alpha, eight or more are cut to eight, other lengths stay |
| Colors.MangoOfFirstWord | src/ipc/colors.c:10-36 | only the first word of the input counts |
| Colors.MangoOfWrapped | src/ipc/colors.c:36-48 | each of the four wrappers around eight digits is taken off |
| Colors.MangoAgreesIff | src/ipc/colors.c:24-92 | for hexadecimal digits with or without '#', going through Hyprland's format first makes no difference exactly for six, eight or more digits and for two short forms of black |
| Colors.ShortWhiteDiffers | src/ipc/colors.c:24-92 | for instance, the three-digit form of white comes out as another colour |
| LuaQuote.Quote | src/ipc/hyprland/generator.c:427-442 | both quoters write the quoted text and its terminator within 2 * len + 3 characters |
| LuaQuote.ReadsBackIff | src/ipc/hyprland/generator.c:427-442 | a Lua reader gets back the string, up to the last character of the literal and whatever follows, exactly if no line break was passed on |
| LuaQuote.SafeIff | src/ipc/hyprland/client.c:1115-1131 | that is, no carriage return, and for the plain quoter no line feed |
| LuaQuote.ReadOneChar | src/ipc/hyprland/client.c:1115-1131 | each character is read back from its escape, for both quoters |
| Keybinds.Merge | src/server/config_handler.c:115-139 | system binds, then named ones, then custom ones |
| Keybinds.GenerateKeybinds | src/ipc/hyprland/generator.c:120-163 | the printing loop equals the printed text of the active binds |
| Keybinds.SkippedIff | src/ipc/hyprland/generator.c:120-163 | a bind makes no difference to the section exactly if it is disabled, has no key or has an empty one |
| Keybinds.MouseLineIff | src/ipc/hyprland/generator.c:137-141 | a line is a mouse bind exactly if its key starts with `mouse:`, in any case |
| Keybinds.PrintedAlike | src/ipc/hyprland/generator.c:143-158 | a missing dispatcher is printed as exec, an empty argument as none, and flags are not printed |
| Keybinds.HyprlangReadsBackIff | src/ipc/hyprland/generator.c:120-163 | for all binds, reading the section gives the active binds in order with all fields, no dispatcher as exec, exactly if no field contains what the syntax cannot carry: line breaks, number signs, commas outside the argument, outer blanks, spaces in modifiers |
| Keybinds.SignInCommandIsLost | src/ipc/hyprland/generator.c:120-163 | for instance, what follows a number sign in a command is taken for a comment |
| Keybinds.CommaKeyIsLost | src/ipc/hyprland/generator.c:120-163 | for instance, a comma as the key does not read back |
| Keybinds.PrintMerged | src/server/config_handler.c:115-139 | merged and printed, the active binds of the three sources read back in their order, exactly under that condition |
| LuaParts.PrintReadsBackIff | src/ipc/hyprland/generator.c:427-442 | code without quotes and line feeds, and quoted strings, read back part by part exactly if no string has a line break; otherwise nothing can be read |
| LuaActions.ActionReadsBackIff | src/ipc/hyprland/generator.c:269-401 | the action of any dispatcher reads back part by part exactly if its argument fits: quoted without line breaks, or copied without line feeds and quotes; nine texts do not contain it |
| LuaActions.SameTextIff | src/ipc/hyprland/generator.c:269-386 | two known dispatchers with the same fitting argument can be told apart from their texts, exactly unless both move to a workspace, or both resize and have an argument |
| LuaActions.SilentMoveIsLost | src/ipc/hyprland/generator.c:309-318 | for instance, moving a window to a workspace and moving it silently |
| LuaActions.CommandReadsBackIff | src/ipc/hyprland/generator.c:388-401 | a command is run exactly as it was given, if it has no line break |
| LuaActions.KnownStart | src/ipc/hyprland/generator.c:269-386 | the action of none of the 22 known dispatchers runs a command |
| LuaActions.KnownIff | src/ipc/hyprland/generator.c:269-386 | the known dispatchers are exactly these 22 names |
| LuaActions.OtherName | src/ipc/hyprland/generator.c:388-401 | any other name is run as a command, with its argument behind a space unless that is empty |
| LuaActions.FullscreenName | src/ipc/hyprland/generator.c:278-284 | fullscreen is set by 1, unset by 0 and toggled otherwise |
| LuaActions.GroupName | src/ipc/hyprland/generator.c:333-338 | the next member of a group becomes active, unless the argument is b or prev |
| LuaActions.MoveFocusName | src/ipc/hyprland/generator.c:285-296 | moving the focus is a message for one layout and an action for the others, both with the argument |
| LuaActions.LayoutMsgName | src/ipc/hyprland/generator.c:354-378 | the layout a message is for is decided by its beginning |
| LuaActions.MoveWindowName | src/ipc/hyprland/generator.c:297-303 | without an argument a window is dragged, with one it moves in that direction |
| LuaActions.ResizeWindowName | src/ipc/hyprland/generator.c:304-308 | without an argument a window is resized by the mouse, with one as the argument says |
| LuaActions.FixedNames | src/ipc/hyprland/generator.c:273-386 | the texts of five dispatchers that take no argument |
| LuaKeybinds.FlagsToLua | src/ipc/hyprland/generator.c:404-424 | the fields of the known letters in order, with separators between them |
| LuaKeybinds.FlagsText | src/ipc/hyprland/generator.c:404-424 | the options of the five known letters, in any case; other letters have none |
| LuaKeybinds.GenerateKeybindsLua | src/ipc/hyprland/generator.c:588-638 | the printing loop equals the printed statements of the active binds |
| LuaKeybinds.SkippedInLuaIff | src/ipc/hyprland/generator.c:588-638 | a bind makes no difference to the text exactly if it is disabled, has no key or has an empty one |
| LuaKeybinds.StatementReadsBackIff | src/ipc/hyprland/generator.c:588-638 | one statement reads back exactly if no key name has a plus sign, an outer blank or a line break, and its action can carry its fields |
| LuaKeybinds.LuaReadsBackIff | src/ipc/hyprland/generator.c:588-638 | for all binds, the whole text reads back as exactly one statement for each active bind, in order, with its keys and the parts of its action, exactly if that holds of every active bind |
| LuaKeybinds.ReturnInArgumentIsLost | src/ipc/hyprland/generator.c:588-638 | for instance, a carriage return in the argument of workspace spoils the text |
| LuaKeybinds.PlusKeyIsLost | src/ipc/hyprland/generator.c:588-638 | for instance, a plus sign as the key does not read back |
| LuaKeybinds.PrintMergedLua | src/server/config_handler.c:115-139 | merged and printed in Lua, the active binds of the three sources read back in their order, exactly under that condition |
| LuaKeybinds.ExecReadsBackIff | src/ipc/hyprland/generator.c:613-617 | an exec bind runs exactly its argument, whatever it contains but a line break |
| LuaKeybinds.ExecAgreesIff | src/ipc/hyprland/generator.c:388-401 | for commands without line breaks, the two syntaxes agree on whether a bind runs a command exactly if its dispatcher is missing, exec or one of the 22 known names; with a line break Lua cannot read the command, and the answer turns round unless the name is known |
| LuaKeybinds.UnknownDispatcherDiffers | src/ipc/hyprland/generator.c:388-401 | for instance, a bind of the dispatcher foo |
| LuaKeybinds.SameKeys | src/ipc/hyprland/generator.c:120-638 | the k-th statement has the keys of the k-th line |
| LuaKeybinds.MouseAgreesIff | src/ipc/hyprland/generator.c:613-632 | the mouse marker agrees with the line's keyword exactly if a mouse bind is not an exec bind, and a bind on another key is one or has no letter m in its flags |
| LuaKeybinds.MouseCommandDiffers | src/ipc/hyprland/generator.c:613-617 | for instance, a mouse button without a dispatcher is marked in the line only |
| LuaKeybinds.FlagsAgreeIff | src/ipc/hyprland/generator.c:404-424 | apart from the mouse marker a statement carries no flags, like every line, exactly for exec and mouse binds and for flags without the letters l, e, n and r |
| LuaKeybinds.LockedFlagDiffers | src/ipc/hyprland/generator.c:404-424 | for instance, the flag l of an exit bind appears in Lua only |
| LuaNesting.EmitKeepsNesting | src/ipc/hyprland/generator.c:444-586 | well-worded text added in any context leaves all brackets outside strings and comments matched |
| Appearance.GenerateAppearanceLua | src/ipc/hyprland/generator.c:444-586 | the appending code, with its shared opening, writes the text of the settings document |
| Appearance.AddCurveAndAnimations | src/ipc/hyprland/generator.c:576-580 | the fixed texts of the curve and the four animations are the text of their documents |
| Appearance.GapsText | src/ipc/hyprland/generator.c:444-586 | the whole text for gaps alone: the inner and the outer one under their names |
| Appearance.OpacityText | src/ipc/hyprland/generator.c:532-537 | the whole text for opacity alone |
| Appearance.ShadowText | src/ipc/hyprland/generator.c:538-554 | the whole text for a shadow alone |
| Appearance.UndecidedShadowText | src/ipc/hyprland/generator.c:538-554 | a shadow that does not say whether it is on leaves its table out |
| Appearance.BlurText | src/ipc/hyprland/generator.c:555-566 | the whole text for blur alone |
| Appearance.RoundingText | src/ipc/hyprland/generator.c:444-586 | rounding belongs to the border but stands in the second table |
| Appearance.WidthText | src/ipc/hyprland/generator.c:463-465 | the whole text for a border width alone |
| Appearance.LayoutText | src/ipc/hyprland/generator.c:521-522 | the whole text for a layout alone |
| Appearance.ColorsText | src/ipc/hyprland/generator.c:466-520 | the two colours of a border without an angle are strings |
| Appearance.GradientText | src/ipc/hyprland/generator.c:468-500 | with an angle the active colours are a list of strings, and the angle stands without its unit |
| Appearance.MissingText | src/ipc/hyprland/generator.c:444-586 | what is not set is not mentioned |
| Appearance.GeneratedIsNested | src/ipc/hyprland/generator.c:444-586 | for every combination of present and absent settings all brackets match |
| Appearance.ParsedColorsQuotable | src/ipc/colors.c:105-169 | normalising colours brings in no quote, backslash or newline |
| Appearance.QuotableColorsAreOk | src/ipc/colors.c:105-169 | so colours without these three satisfy what the nesting of the text needs, together or one by one |
| Appearance.LayoutNestedIff | src/ipc/hyprland/generator.c:521-522 | for every layout without quotes and line breaks, all brackets match exactly if the run of backslashes at its end has even length |
| Appearance.BackslashLayoutBreaks | src/ipc/hyprland/generator.c:521-522 | for instance, with nothing set but a layout that ends in one backslash |

## Left out

- Line syntax of the configuration files: a file is taken as its bindings and include lines in order. Sections, array tables, comments and the 256-character section buffer are not modelled.
- `axctl_config_to_json`, `axctl_apply_config` and the file watcher. The keybind collection there walks every stored entry, so files that are parsed again show up again; only lookups collapse repeats, and only lookups are claimed.
- Window titles and fullscreen: Hyprland's lines for them do not name the window in a way the cache uses, so agreement is claimed on window ids and the focus flag only.
- The metadata object of a window is shared by reference count; the separation of copies covers the strings and flags. Freeing is not modelled, only which strings a copy may share.
- Windows without an id, which no listing and no event line produces.
- Workspace and monitor arrays: they are handled like the window array, but only replaced as a whole; in `Broadcast` all three appear as write counts.
- The initial State.Dump and the reply to a subscription are built and written outside the mutex; the ordering of versions does not cover them. `AllArriveIff` says what can happen to their lines.
- Content of messages: JSON is not modelled, and a message is a string without newlines.
- Partial writes to slow clients: a write is either complete or missing.
- One-shot waits, the polling of `axctl_idle_is_idle`, the condition variables, system-wide inhibition, the application check and the process calls behind them.
- The time between reading and setting of the callback pointer: the callback is fixed before monitors exist.
- What follows `Destroy`: the manager's memory is gone, so nothing is said about its tables.
- `pactl` itself: the scan gets its lines, each already cut to the length of the read buffer.
- Escapes by code point in Lua literals, which no quoter writes; `LuaQuote.ReadEscape` takes them for malformed.
- Keybind counts that do not fit their arrays, and arrays that are missing while their count is not zero.
- Number formatting in the appearance settings: numbers are taken as printed text.
- The hyprlang form of the appearance settings, window and layer rules, start-up commands, and the generators for Niri and Mango.
- Request routing, the socket code, logging and error texts, and failed memory allocation.
- Variables and nested expressions of hyprlang: a `$` in a field is taken as text, since the printed section defines no variable.
- LuaKeybinds.LuaReadsBackIff: code is read as text up to the next quote, so nothing is said about the brackets and comments in an argument that is copied as it is (`resizewindow`, `resizewindowpixel`, `movewindowpixel`).
- Appearance.GeneratedIsNested: assumes that the printed colours contain no quotes and line breaks and do not end in an odd run of backslashes, and an angle without brackets, quotes or minus signs that start a comment; of the layout it assumes what `LayoutNestedIff` shows to be needed.
- Appearance.LayoutNestedIff: says nothing about layouts with quotes, whose rest is Lua text of its own.
