# Verified models of the Virtual Jaguar libretro core's bookkeeping

Virtual Jaguar emulates the Atari Jaguar as a libretro core with a desktop app beside it. The
emulated chips are not the subject here. This project models the code around them that keeps two
parties in agreement: the core and its frontend, the writer and the reader of a savestate, a
requester and a worker thread, a release and its download page. Each model is proved to keep that
agreement over every run, not just over one call.

| file | what it models |
|---|---|
| `SaveState.dfy` | the versioned savestate codec: 47 chunks in a fixed order, 17 versions, in-place extensions behind magic words, disc identity, zero fill |
| `Common.dfy` | the option type, bytes and one set lemma that several models use |
| `OptionTable.dfy`, `Explanations.dfy` | option definitions; the record of what each option read did with a per-title preset, and the sorted amendment list made from it |
| `OptionPublishing.dfy` | row visibility, amended definitions and the spliced host list as a view the frontend holds and the core updates by changes only |
| `HostPicker.dfy` | the discovery table, its read-and-clear changed flag, the dirty latch and the two-second limit on a wrapping clock |
| `DiskControl.dfy` | the disc list, the tray and the insert that undoes itself |
| `PortDevices.dfy` | which device is in each controller port, and its tuning |
| `SaveRam.dfy` | the save-RAM buffer: two EEPROM banks and the Memory Track, with its unlock sequence, behind a dirty flag |
| `Enhancement.dfy` | per-title option values and the one run-time demotion |
| `HiRes.dfy` | tail blanking and light-gun aim at internal resolution N |
| `AchHttp.dfy` | the app's HTTP queue: requesters, one worker, one pump, shutdown |
| `OptionString.dfy` | the option string for frontends without structured options |
| `MacroNames.dfy` | macro names for translatable texts |
| `ReleasePage.dfy` | the download panel of one release |

Code that updates fields or arrays in place is a class or an array method here, proved against a
function of the old state. What the code promises is then proved about those functions, over runs:
a run is any finite sequence of the events the code can receive, in any order.

## What turned out false, and exactly when

Each of these has a lemma that runs a concrete input into the failure and a lemma that says exactly
when it happens.

| what fails | at an input | exactly when |
|---|---|---|
| Switched on again after an unload, the input rows can stay hidden: unloading raises their flag without sending them. | `OptionPublishing.InputRowsStayHidden` | `OptionPublishing.RowsFollowPredicates`, with `Stale` |
| A failed insert can leave the refused disc in the drive. | `DiskControl.RefusedDiscStays` | `DiskControl.DriveFollowsPath`, with `Stuck` |
| The frontend can read EEPROM words the game has erased: only the write commands repack the save buffer. | `SaveRam.ErasedWordStays` | `SaveRam.CoherentAfterUnpack`, `HandedOutIsWhole` |
| A reset puts the CD unit's factory words back, and the frontend goes on reading the saved ones. | `SaveRam.ResetBankStays` | the same |
| A state load replaces the Memory Track, and the frontend goes on reading the old one. | `SaveRam.LoadedTrackStays` | the same |
| Restarting LAN discovery empties the peer table and tells nobody. | `HostPicker.RestartedPickerIsStale` | `HostPicker.NoChangeLost`, `RestartIsSilent` |
| A beacon that changes only a peer's device is not reported, although the picker's label names it. | `HostPicker.DeviceChangeGoesUnreported` | `HostPicker.RefreshHidesDevice` |
| A build without a network transport calls back after shutdown. | `AchHttp.CallbackAfterShutdown` | `AchHttp.ShutdownSilencesIffTransport` |
| A refused savestate can have replaced main RAM. | `SaveState.RefusedLoadReplacesRAM` | `SaveState.RefusalsAreKnown` |
| Saving again after a load can write other bytes. | `SaveState.ResaveForgetsDisc` | `SaveState.ResaveIsIdentical` |
| An option whose category key is also a text breaks the macro table. | `MacroNames.LabelAsCategoryKeyFails` | `MacroNames.FreshIffAlwaysOneToOne`, over the whole parse |
| An option string with a bar in a value cannot be split back. | `OptionString.BarsAreAmbiguous` | `OptionString.ReadBack` |
| Two files with the checksums' name share one slot. | `ReleasePage.SecondSumsDropsFirst` | `ReleasePage.Classify`, for unique names |

## Model

| member | source | states |
|---|---|---|
| SaveState.TableIsInOrder | src/core/state.h:114-250 | the version table has the shape the theorems rely on: one dead staging block, one disc row, magic words on everything after it, idle-drive rows before it always present |
| SaveState.TableAgrees | libretro.c:5391-5583 | the table, in the writer's order, against the reader's order and the version comments: which chunk stands where, which versions carry it, which are left alone, extended in place, idled or behind a magic word |
| SaveState.TailIsAppended | libretro.c:5201-5316 | "strictly last": from the GameDrive chunk on, a version that carries a chunk carries every chunk in front of it |
| SaveState.TableQualifies | src/core/state.h:114-250 | that concrete version table, with any module sizes, is a codec all theorems below apply to |
| SaveState.WordRoundTrip | libretro.c:5153-5161 | a 32-bit word written little-endian reads back as itself at any position |
| SaveState.HeaderBytes | libretro.c:5366-5390 | which headers are accepted, byte by byte: "SSJV", a version from 1 to 17, and 0x260000 bytes, or 0x280000 from version 9 on |
| SaveState.CursorInStep | libretro.c:5359-5569 | for every version and in-place generation of it, reader and writer cursors agree at every chunk, and past a short writer's end the reader stays in the zero fill |
| SaveState.EveryGenerationLoads | libretro.c:5359-5613 | for every version from 1 to 17 (and earlier generations of it), a buffer that begins with that version's eight bytes, is long enough and holds what such a writer wrote loads; it leaves in each module what that module makes of the writer's image, what its reset leaves, or the live value, as its row says; the resampler's rate is derived from the loaded DAC registers, DRAM timing from the loaded TOM registers, main RAM gets the work flag of the emulated boot ROM, and the image index is taken when it is in range |
| SaveState.NeverOverruns | libretro.c:5366-5390 | no buffer that passes the header checks, damaged or not, makes the reader pass its end |
| SaveState.RefusalsAreKnown | libretro.c:5366-5548 | any other magic, version or length is refused with nothing changed; past the header a load fails if and only if it carries disc words that differ from the mounted disc, and then later chunks, image index and timing are untouched |
| SaveState.MatchingDiscLoads | libretro.c:5519-5613 | a current state loads, every module reading its own image and the three derivations done, into any session with the same disc identity or without a CD unit |
| SaveState.OtherDiscRefused | libretro.c:5519-5543 | a current state never loads into a session with another disc mounted, and the refusal comes after every module in front of the disc words was loaded and before timing and work flag are |
| SaveState.RefusedLoadReplacesRAM | libretro.c:5530-5543 | a concrete state and session: the load is refused and main RAM is the state's |
| SaveState.CurrentLoads | libretro.c:5359-5613 | both directions of the two rows above, whatever lies past the written length |
| SaveState.SameStateSameRows | libretro.c:5138-5316 | two machines write the same state if and only if they write the same row by row |
| SaveState.DiscWordsWritten | libretro.c:5259-5271 | where the four disc words stand in a state, and what each says |
| SaveState.ForeignChunk | libretro.c:5551-5583 | a tagged chunk without its magic word resets its module and is stepped over by the word, the SD handles as a whole |
| SaveState.ResaveIsIdentical | libretro.c:5138-5316 | saving again after an accepted load gives the same bytes if and only if the identity words agree, the saved index is selectable or already selected, and every module gives back the image it read in that session, derived rate and work flag included |
| SaveState.ResaveForgetsDisc | libretro.c:5259-5271 | a concrete state and session: accepted, and saved again with other bytes |
| SaveState.FilledUnlessRunAhead | libretro.c:5335-5354 | the rest of the buffer is zero for states that are kept or sent to a netplay peer, also when the frontend does not say, and as it was for run-ahead within the session |
| SaveState.ZeroFillUnobservable | libretro.c:5335-5354 | kept or sent, equal machines give equal states whatever the buffers held; and no loader can tell one saved for run-ahead from them |
| SaveState.Core.Serialize | libretro.c:5138-5357 | fails exactly when the buffer or the layout is too big or small; otherwise leaves header, payload, fill and the bytes beyond as specified |
| SaveState.Core.LoadRow | libretro.c:5396-5569 | one chunk read at the moving cursor agrees with the row-by-row specification |
| SaveState.Core.LoadRows | libretro.c:5396-5569 | all chunks in order, stopping at the disc refusal |
| SaveState.Core.Unserialize | libretro.c:5359-5613 | result and final machine are those of the specification |
| Explanations.TableMirrors | libretro.c:2621-2644 | while at most eight keys were ever active, the table holds exactly the last observation of each of them |
| Explanations.TableIsBounded | libretro.c:2621-2644 | with any number of keys the table has at most eight, each once, with what was last seen of it |
| Explanations.AddKeepsSorted | libretro.c:2649-2673 | adding a note keeps the list strictly sorted by option index and within eight entries |
| Explanations.AmendmentsSorted | libretro.c:2676-2735 | the computed amendment set is strictly sorted, duplicate-free and bounded for every table |
| Explanations.TableLists | libretro.c:2676-2698 | the set holds one amendment for each record that has something to say, and no other |
| Explanations.AmendmentsForgetOrder | libretro.c:2621-2735 | two histories with the same last observation of every key give the same amendments, when at most eight keys were ever active in each |
| Explanations.NoteOfOption | libretro.c:2676-2735 | what the set says of an option is the note of its key's last observation, or nothing |
| Explanations.NoteSays | libretro.c:2694-2703 | the wording of the two notes, as far as 383 characters go |
| Explanations.IdleIsListed | libretro.c:2706-2733 | the idle-skip note is listed by itself or behind its option's note, unless eight other options have notes, and no other note changes |
| OptionTable.ValueTextMeans | libretro.c:2596-2614 | a value is shown by its label, else as on or off, else as it is |
| Explanations.InsertNote | libretro.c:2664-2672 | a first note goes into the array in order |
| Explanations.Recorder.Record | libretro.c:2621-2644 | one observation updates its key in place, joins the table, or is dropped |
| Explanations.AddNote | libretro.c:2649-2673 | the fixed array after a note is added: joined, refused or inserted in order |
| Explanations.InsertAt | libretro.c:2667-2672 | the shift opens exactly one place |
| Explanations.Recorder.ComputeAmendments | libretro.c:2676-2735 | the loop over the table fills the buffer with the specified set |
| OptionPublishing.UpdateEffect | libretro.c:1008-1305 | after one update every flag is its predicate; a group's rows were sent exactly when forced or when its flag moved |
| OptionPublishing.RowsAreKeys | libretro.c:1030-1290 | each group has a row for each of its option keys, two ports of a keypad and 24 buttons for the input group; the host picker's option is the host row |
| OptionPublishing.WhatIsShown | libretro.c:1022-1303 | what each group waits for: content type, the devices in the ports, and the values of its master option |
| OptionPublishing.StepKeepsInv | libretro.c:998-1305 | every event keeps definitions, host list, refusal latch and every group but the input rows in step with the frontend |
| OptionPublishing.RowsFollowPredicates | libretro.c:998-1305 | change-only pushes with the one-shot force latch refine "push everything": after any run and one more update, re-push or rebuild, a row is hidden if and only if its group predicate is false, except exactly the input rows while an unload hid them and nothing has sent them since |
| OptionPublishing.InputsFollowHistory | libretro.c:7454-7458 | after every run the input rows and their flag are in step or, exactly in that case, the flag is up and the rows are hidden |
| OptionPublishing.InputRowsStayHidden | libretro.c:7454-7458 | a concrete run into it |
| OptionPublishing.InputRowsAfterUnload | libretro.c:7340-7458 | after an unload the next update leaves the input rows right if and only if they were shown when the unload last sent them (the withdrawal of explanations sends them once more) or are to be hidden now |
| OptionPublishing.UnloadRestoresList | libretro.c:7353-7458 | after any run, an unload leaves no disc-only and no cartridge-only row hidden |
| OptionPublishing.RefusalIsFinal | libretro.c:994-1006 | a frontend that refuses the visibility call is sent it at most once in a session |
| OptionPublishing.PublishedAt | libretro.c:2743-2768 | published definitions differ from the table only at amended options, which show the note, a space and their own text, cut at 3071 characters, and no categorized text |
| OptionPublishing.DefinitionsFollow | libretro.c:2743-2902 | after any run a version 2 frontend holds the compiled-in table, with the current host list and the current amendments, although an equal set is never sent twice |
| OptionPublishing.NotesAreShown | libretro.c:2621-2880 | after an update computed from a history of option reads, the text the frontend shows for every option begins with the whole note of its key's last read, followed by its own text, or is its own text if that read had nothing to say |
| OptionPublishing.HostEntryForgets | libretro.c:2117-2239 | the host entry is the first preset, for each of the first eight peers just reported its address and a label of name, address and a device that differs, and the other presets; independent of earlier rebuilds; and the three presets after deinit |
| OptionPublishing.Publisher.SendRow | libretro.c:1000-1006 | one visibility call and the refusal latch |
| OptionPublishing.Publisher.VisitGroup | libretro.c:1008-1305 | one group's flag and rows |
| OptionPublishing.Publisher.UpdateVisibility | libretro.c:1008-1305 | reads and clears the force latch, then visits every group |
| OptionPublishing.Publisher.PushDefinitions | libretro.c:2743-2768 | the loop over the amendments builds the published table, each note in front of its option's text |
| OptionPublishing.Publisher.RepushAll | libretro.c:2772-2786 | definitions, then a forced visibility update, for version 2 frontends only |
| OptionPublishing.Publisher.UpdateExplanations | libretro.c:2865-2880 | pushes when the amendment set changed and not otherwise |
| OptionPublishing.Publisher.RebuildHostOptions | libretro.c:2117-2258 | saves the presets once, splices the peers in, pushes, forces a visibility update |
| OptionPublishing.Publisher.UnloadGame | libretro.c:7340-7458 | visibility with no content, explanations withdrawn later, when the predicates may have changed, three flags raised without a push |
| OptionPublishing.Publisher.Shutdown | libretro.c:7851-7944 | presets, flags, latch and refusal back to their initial values |
| OptionPublishing.BuildHostList | libretro.c:2186-2235 | first preset, one row per peer in table order, last two presets |
| HostPicker.NoChangeLost | libretro.c:8340-8375 | in every run of beacons, expiries, mode changes, frames and restarts, a peer set the picker does not show is announced by the flag or the latch, except exactly after a restart nothing announced until the next peer is heard |
| HostPicker.FrameDecides | libretro.c:8363-8375 | one frame in full: when it looks, when it rebuilds and from what, and what stays latched |
| HostPicker.RowsFollowBeacons | src/jerry/jlink_discover.c:130-186 | in every run the table has at most eight rows, one a peer, each with the device and time of that peer's last beacon |
| HostPicker.BeaconIsKept | src/jerry/jlink_discover.c:130-161 | a known peer's row takes device and time and keeps its name, a new peer goes behind the others while there is room, nothing else changes |
| HostPicker.HeardPeerStays | src/jerry/jlink_discover.c:130-186 | a peer heard less than ten seconds ago on the wrapping clock outlives the expiry |
| HostPicker.ExpiryDistributes | src/jerry/jlink_discover.c:163-186 | expiry judges the rows one by one and keeps their order |
| HostPicker.OneExpires | src/jerry/jlink_discover.c:163-186 | a row goes exactly when its last beacon is ten seconds old or more |
| HostPicker.RestartedPickerIsStale | src/jerry/jlink_discover.c:262-282 | a concrete run into it |
| HostPicker.RestartIsSilent | src/jerry/jlink_discover.c:262-282 | a restart keeps that promise if and only if the picker shows no peers or a change was already waiting |
| HostPicker.RebuildsApart | libretro.c:8363-8375 | two rebuilds are never under 2000 ms apart, on the wrapping clock and in real time, and each publishes the current peers |
| HostPicker.StillWaiting | libretro.c:8363-8375 | while nothing is rebuilt a latched change stays latched and the elapsed time cannot wrap past the limit |
| HostPicker.LatchedChangeIsPublished | libretro.c:8363-8375 | with frames less than 2^32-2000 ms apart, a latched change is published by the first frame 2000 ms later |
| HostPicker.WaitingAfterFrame | libretro.c:8363-8375 | every frame that leaves a change latched puts it under that bound |
| HostPicker.RefreshHidesDevice | src/jerry/jlink_discover.c:130-161 | a beacon is reported if and only if the peer set changed; a device changes in the table exactly when a known peer's beacon names another one, and that is not reported |
| HostPicker.DeviceChangeGoesUnreported | src/jerry/jlink_discover.c:138-147 | two concrete beacons of one peer |
| HostPicker.ExpiryIsReported | src/jerry/jlink_discover.c:163-186 | expiry is reported if and only if the peer set changed |
| HostPicker.Discovery.PeerSeen | src/jerry/jlink_discover.c:130-161 | the fixed array after a beacon: refreshed, refused or appended |
| HostPicker.Discovery.RemoveAt | src/jerry/jlink_discover.c:174-178 | the shift removes exactly one row |
| HostPicker.Discovery.ExpirePeers | src/jerry/jlink_discover.c:163-186 | the in-place loop keeps exactly the rows seen recently enough, in order |
| HostPicker.Latch.ConsumeChanged | src/jerry/jlink.c:501-506 | the flag is cleared by reading it |
| HostPicker.Latch.RunFrame | libretro.c:8363-8375 | one frame's latch, limit and rebuild decision |
| DiskControl.IndexAlwaysInList | libretro.c:6288-6442 | in every run, state loads included, at most eight images, and the index names one of them or both are zero |
| DiskControl.QuietCallbacks | libretro.c:6294-6400 | the events that leave the machine alone, each in full: eject, closing a closed tray, an index past the list, a selection with the tray open, a state load, an unload |
| DiskControl.InsertOutcome | libretro.c:6288-6381 | success ends closed with the selected image mounted and its boot in force; failure leaves the tray open and boot, CD mode, path, list and selection as they were |
| DiskControl.DriveAfterFailedInsert | libretro.c:6340-6366 | after a failed attempt the drive holds the previous image if and only if it can be reopened, else nothing; with no previous image, the new one if it opened but refused to boot, else nothing |
| DiskControl.StepDrive | libretro.c:6222-6606 | after an insert the drive follows the recorded path if and only if it is not a first insert refused by its boot; after a load or unload it does; after anything else as before |
| DiskControl.DriveIsAsTold | libretro.c:6222-6606 | in every run, orderly or not, the drive holds what its last insert, load or restore put there, by how each was answered |
| DiskControl.LoadOutcome | libretro.c:7093-7246 | what a started, failed or given-up load leaves of boot, mode, path and drive; the list and tray stay |
| DiskControl.DriveFollowsPath | libretro.c:6222-6606 | in every run of loads (started, failed or refused), unloads, inserts, swaps and failures, the drive holds the image of the recorded path or nothing, except exactly from a first insert refused by its boot until the next insert, load or unload |
| DiskControl.LoadFindsNoDisc | libretro.c:6607-7246 | every load finds the drive empty, also after a load that failed |
| DiskControl.RefusedDiscStays | libretro.c:6340-6366 | a concrete run after which the drive holds a disc no path records |
| DiskControl.SetIndexIsEjectInsert | libretro.c:6387-6400 | a closed-tray index change is an eject and an insert; the new selection stands either way |
| DiskControl.AddUpdateDelete | libretro.c:6402-6442 | add, update and delete of the last entry cancel out |
| DiskControl.DeleteKeepsOrder | libretro.c:6410-6422 | a delete closes the gap, keeps the order, and moves the selection only off the end |
| DiskControl.UpdateAndAdd | libretro.c:6402-6442 | an update changes that entry and no other, cut at 4095 characters; an add appends an empty one up to eight; what does not fit is refused |
| DiskControl.Tray.ProbeDisc | libretro.c:6222-6246 | probing a path leaves the drive empty; probing no path leaves it alone |
| DiskControl.Tray.OpenAndResolve | libretro.c:6538-6606 | CD mode and path are set in every case, the drive and boot as far as the attempt got |
| DiskControl.Tray.SetEjectState | libretro.c:6288-6381 | eject, no-op close, refused close, and the insert with its restore |
| DiskControl.Tray.SetImageIndex | libretro.c:6387-6400 | range check, selection, re-insert |
| DiskControl.Tray.ShuffleDown | libretro.c:6410-6416 | the in-place shift removes exactly one entry |
| DiskControl.Tray.ReplaceImageIndex | libretro.c:6402-6429 | the fixed array refines sequence update and delete, with the index clamp |
| DiskControl.Tray.AddImageIndex | libretro.c:6431-6442 | the fixed array refines append up to eight |
| PortDevices.DevicesFollowHistory | libretro.c:738-846 | in every run each port's device is a function of its last claim and last-read option, a Team Tap and a non-pad device never share a port, and scale and tunings in force are the current ladders' for the device in the port |
| PortDevices.ReleaseKeepsOption | libretro.c:5107-5130 | releasing an unclaimed port changes nothing while the option reads the same |
| PortDevices.StartsUntuned | libretro.c:738-787 | at start and after deinit both ports hold untuned pads |
| PortDevices.ApplyInForce | libretro.c:789-846 | plugging in a device keeps its tuning in force, although tuning is only applied when the device changes |
| PortDevices.SettingMeans | libretro.c:738-787 | whose ladder a device gets, axis by axis, and that it is always in range |
| PortDevices.StoredMeans | src/jerry/axistune.c:125-155 | out-of-range tuning goes to the nearest value, an exponent of zero or less to the identity |
| PortDevices.ClaimsMatchOptions | libretro.c:3174-3255 | which device each claim and each option value names, port by port, and that they agree |
| PortDevices.AcceptedMeans | src/jerry/inputdev.c:207-235 | no mouse in port 1, no light gun in port 2, everything else as asked |
| PortDevices.Ports.ApplyTuning | libretro.c:754-787 | scale and both axis tunings of the device in the port |
| PortDevices.Ports.ApplyPortDevice | libretro.c:789-846 | acceptance per port, Team Tap veto, retune on change |
| PortDevices.Ports.SetControllerPortDevice | libretro.c:5056-5131 | a claim is applied; a release re-reads the option |
| PortDevices.Ports.ReadPort | libretro.c:3995-4015 | an option read, overruled by a standing claim |
| PortDevices.Ports.ReadOptions | libretro.c:3985-4096 | both ports, then the new ladders, then both tunings |
| SaveRam.PackUnpack | libretro.c:7475-7531 | packing and unpacking an EEPROM bank are mutually inverse |
| SaveRam.PackInjective | libretro.c:7475-7495 | different banks pack differently |
| SaveRam.WordsAreAsTold | src/jerry/eeprom.c:226-302 | in every run each word of both EEPROMs is what the last enabled write, erase, reset or state load left there, a function of the events alone |
| SaveRam.BufferIsAsTold | libretro.c:7475-7495 | in every run each word of the frontend's buffer, high byte first, is the one that was live at the last write command |
| SaveRam.TrackIsAsTold | src/core/memtrack.c:163-216 | in every run each byte of the Memory Track is the one last stored there while the part was armed, or a state load's |
| SaveRam.FirstFrameReads | libretro.c:8046-8054 | the first frame moves the frontend's bytes into the memories, once, and not into a Memory Track cartridge |
| SaveRam.LoadedSaveArrives | libretro.c:7557-7604 | a save of the right size written by the frontend is in the memories after the first frame, for every kind of content |
| SaveRam.FollowsExactly | libretro.c:7475-7495 | a bank equals its part of the buffer if and only if every word changed without a pack is in the buffer already |
| SaveRam.BanksFollow | src/jerry/eeprom.c:226-302 | in every run each word of a bank is the buffer's unless an erase, a reset or a state load changed it since the last pack |
| SaveRam.TrackFollows | src/core/memtrack.c:163-295 | the Memory Track part equals its memory unless the dirty flag is set, or a state load replaced the memory and nothing has packed since |
| SaveRam.UnlockArms | src/core/memtrack.c:163-263 | the unlock sequence arms an idle part, and an unarmed part takes no data |
| SaveRam.FlushPoints | libretro.c:7511-7577 | the end of a frame and a pointer to the buffer leave nothing marked; a Memory Track cartridge's memory is handed out as it is |
| SaveRam.CommandMoves | src/core/memtrack.c:83-295 | what moves the command sequence: writes to the two unlock addresses, a reset, which disarms the part, and a state load |
| SaveRam.UnlockExactly | src/core/memtrack.c:231-263 | three writes change the command register only as the whole sequence, in order and at the right addresses |
| SaveRam.CoherentAfterUnpack | libretro.c:8046-8054 | from the first frame on, in every run of writes, erases, resets, state loads, frames and queries, the EEPROM part equals both banks if and only if every word erased, reset or loaded since the last pack is in the buffer already; the Memory Track likewise unless the dirty flag is set |
| SaveRam.WritesStayCoherent | libretro.c:7475-7577 | so EEPROM writes, Memory Track writes, frames and queries in any order keep the buffer coherent |
| SaveRam.ErasedWordStays | src/jerry/eeprom.c:297-302 | a concrete run: erased in the EEPROM, old word in the frontend's buffer at the end of the frame |
| SaveRam.ResetBankStays | src/cd/cdrom.c:929-940 | a concrete run: factory words in the CD unit, saved ones in the buffer |
| SaveRam.LoadedTrackStays | src/core/memtrack.c:279-295 | a concrete run: loaded Memory Track, old one behind a pointer handed out afterwards |
| SaveRam.HandedOutIsWhole | libretro.c:7557-7604 | for every kind of content, what the frontend reads through any pointer handed out, and at the end of every frame, is the whole save if and only if nothing changed without a pack is missing from it, and then unpacking it gives back the live memories |
| SaveRam.Buffers.PackBank | libretro.c:7475-7487 | one bank, high byte first, and nothing else in the buffer |
| SaveRam.Buffers.CopyTrack | libretro.c:7500-7504 | the Memory Track part, and nothing else |
| SaveRam.Buffers.PackSaveBuf | libretro.c:7475-7495 | both banks, and for CD content the Memory Track |
| SaveRam.Buffers.FlushSaveBuf | libretro.c:7511-7515 | repacks when dirty and clears the flag |
| SaveRam.Buffers.UnpackBank | libretro.c:7519-7526 | one bank read back |
| SaveRam.Buffers.UnpackOnFirstFrame | libretro.c:8046-8054 | once, everything the frontend loaded, unless it wrote into a Memory Track cartridge itself |
| SaveRam.Buffers.EepromCommand | src/jerry/eeprom.c:226-302 | each command of the cartridge EEPROM: the two writes store and repack when writes are enabled, the two erases store and tell nobody |
| SaveRam.Buffers.Fill | src/jerry/eeprom.c:236-253 | one word into every place of a bank |
| SaveRam.Buffers.EraseCd | src/cd/cdrom.c:2148-2157 | the one store into the CD unit's EEPROM while running |
| SaveRam.Buffers.ResetParts | src/jerry/eeprom.c:68-82 | the latch and the two part states cleared, factory words into the CD unit, the buffer left alone |
| SaveRam.Buffers.StateMachine | src/core/memtrack.c:231-263 | the three-step command sequence |
| SaveRam.Buffers.TrackWriteWord | src/core/memtrack.c:189-216 | a word write lands when armed, and feeds the command sequence at the unlock addresses |
| SaveRam.Buffers.TrackWriteByte | src/core/memtrack.c:163-180 | the same for a byte write |
| Enhancement.UserValueWins | libretro.c:3061-3159 | a value other than the registered default is returned unchanged for every database, profile and demotion state |
| Enhancement.SubstitutionIsSafe | libretro.c:3061-3159 | a database value is substituted only at the default, never when unsafe or withheld, and what is reported says exactly what happened |
| Enhancement.SubstitutedExactly | libretro.c:3061-3159 | when a preset is used, what it arms and what is reported, exactly: presets on, a row, the option untouched, not known bad, not withheld |
| Enhancement.PassArms | libretro.c:3368-3436 | an option pass takes the gates first; a preset then used for either governed option arms the watch for good |
| Enhancement.LoadedResolution | libretro.c:7011-7050 | the resolution a load latches, from the read and the memory there is |
| Enhancement.FrameEffect | libretro.c:8123-8137 | one frame of the watch: window, streak and the demotion at the 180th underrun |
| Enhancement.WatchInvariant | libretro.c:8123-8137 | the counters are functions of the frames run and of the reports of watched frames |
| Enhancement.DropIsEarned | libretro.c:4191-4216 | the resolution drops only from 2x to 1x, in the first 600 frames, after 180 successive watched underruns, and only if the raw option at load was not 2x |
| Enhancement.DropHappens | libretro.c:4191-4216 | a title whose database row brings 2x under the automatic profile stays at 2x for 179 underrun frames and is at 1x from the 180th on |
| Enhancement.DropIsFinal | libretro.c:4191-4216 | at most once in a load |
| Enhancement.UserResolutionStays | libretro.c:7011-7050 | a resolution the user chose never drops: 2x, or 1x from the start when its buffers cannot be allocated |
| Enhancement.DemotedPresetsStayOut | libretro.c:3005-3027 | after a demotion no governed preset is substituted again unless quality is asked for |
| Enhancement.Resolver.GetVariable | libretro.c:3061-3159 | one read: value, report and the armed flag |
| Enhancement.Resolver.ReadVariables | libretro.c:3368-3436 | gates first, then the governed reads |
| Enhancement.Resolver.constructor | libretro.c:7011-7050 | the resolution latched at load, with the fallback when memory is short, and where it came from |
| Enhancement.Resolver.WatchFrame | libretro.c:8123-8137 | the watch block with its demotion and re-read |
| HiRes.BlankingBoxes | libretro.c:8428-8478 | for every N, tail blanking fires on the same frames and commutes with N-times box replication |
| HiRes.RenderedRowsStay | libretro.c:8428-8478 | no rendered row is touched |
| HiRes.TailIsBlack | libretro.c:8428-8478 | the rows that were not rendered are opaque black exactly when at most 32 are missing and at least three quarters are there |
| HiRes.BlankRows | libretro.c:8462-8476 | exactly the rows from the first unrendered one are black, all other pixels as before |
| HiRes.BlankTail | libretro.c:8428-8478 | the loops over the flat framebuffer compute the specified frame and leave the rest of the buffer |
| HiRes.AimIgnoresResolution | libretro.c:4870-4932 | column and row do not depend on N, are in range for every 16-bit coordinate, and the product fits a signed int |
| HiRes.AimIsProportional | libretro.c:4870-4932 | column and row are the coordinates' shares of the frame, rounded down, each by its own coordinate |
| HiRes.NoFrameNoAim | libretro.c:4870-4932 | without a frame the gun points nowhere |
| HiRes.EveryColumnReachable | libretro.c:4870-4932 | every column of the stock frame can be aimed at |
| AchHttp.Queue.Request | app/src/ach_http.cpp:212-223 | dropped after stop; otherwise starts the worker once, queues, and owes a notification |
| AchHttp.Queue.WorkerTake | app/src/ach_http.cpp:225-235 | leave on stop, wait when empty, else take the first job |
| AchHttp.Queue.WorkerStore | app/src/ach_http.cpp:236-240 | the result is queued unless stopped |
| AchHttp.Queue.PumpSwap | app/src/ach_http.cpp:244-250 | all results out in one section |
| AchHttp.Queue.Shutdown | app/src/ach_http.cpp:254-264 | stop set, both queues cleared, the thread handed out for the join |
| AchHttp.EveryRunKeepsInv | app/src/ach_http.cpp:200-268 | the invariant below holds in every reachable state |
| AchHttp.DeliveredInOrder | app/src/ach_http.cpp:206-252 | delivered, the pump's batch, results, the job in flight and the queue are together the accepted requests in lock order; callbacks run first-in first-out, each at most once, before and after shutdown |
| AchHttp.CallbacksAreAnswers | app/src/ach_http.cpp:206-252 | the i-th callback is that of the i-th request made before shutdown, with what the transport answered to its i-th call |
| AchHttp.EveryRequestCanFinish | app/src/ach_http.cpp:206-252 | from every reachable state before shutdown the worker, the pump and the notifications still owed can bring every request to its callback |
| AchHttp.OneWorkerNeverStranded | app/src/ach_http.cpp:200-241 | at most one thread is ever started, and a parked worker with a reason to run is still owed a notification |
| AchHttp.StoppedOnlyWindsDown | app/src/ach_http.cpp:225-268 | once stopped nothing is queued and the worker only moves towards its exit |
| AchHttp.PendingAreDropped | app/src/ach_http.h:48-50 | after shutdown only callbacks the pump had already swapped out can run |
| AchHttp.JoinIsReached | app/src/ach_http.cpp:265-267 | a waiting join needs at most two steps of the worker alone |
| AchHttp.AnsweredDirectly | app/src/ach_http.cpp:206-213 | a build without a transport answers each request at once, in order and without a worker, until shutdown |
| AchHttp.ShutdownSilencesIffTransport | app/src/ach_http.cpp:206-213 | from a shut-down queue a result becomes deliverable if and only if it is a request in a build without a transport |
| AchHttp.CallbackAfterShutdown | app/src/ach_http.cpp:206-213 | a concrete run that calls back after shutdown |
| OptionString.RenderedLength | libretro_core_options.h:2007-2035 | the computed buffer length is exactly the string and its terminator |
| OptionString.ArrangedIsPermutation | libretro_core_options.h:2041-2054 | the values are a permutation of the input with the default first when it is offered |
| OptionString.LastDefault | libretro_core_options.h:2012-2022 | offered more than once, the default's last place is the one that moves |
| OptionString.ArrangedKeepsOrder | libretro_core_options.h:2046-2054 | the other values keep their order |
| OptionString.ReadBack | libretro_core_options.h:2038-2054 | the string begins with the description and "; ", and splitting the rest recovers the values if and only if none contains a bar |
| OptionString.BarsAreAmbiguous | libretro_core_options.h:2038-2054 | two different value lists with one rendering |
| OptionString.Append | libretro_core_options.h:2038-2054 | appending to a C string in a buffer with room for it |
| OptionString.Measure | libretro_core_options.h:2007-2035 | the sizing loop finds the default and the exact length |
| OptionString.Print | libretro_core_options.h:2038-2054 | the printing loop never leaves the buffer and writes the rendering |
| OptionString.BuildOption | libretro_core_options.h:1996-2057 | no string without a description or values; otherwise a buffer of exactly the computed size holding the rendering |
| MacroNames.Pigeonhole | intl/core_option_translation.py:145-161 | a finite set cannot contain more numbered names than it has members |
| MacroNames.CandidatesDiffer | intl/core_option_translation.py:155-160 | the names tried are pairwise different |
| MacroNames.StrIsDecimal | intl/core_option_translation.py:155-160 | the numbers in names are decimal, so different numbers give different names |
| MacroNames.NamesInOrder | intl/core_option_translation.py:145-161 | the name found is the base, else the base with the option's number, else that with the first free count |
| MacroNames.CreateNonDupe | intl/core_option_translation.py:145-161 | the search ends for every finite set, with the first name tried that is outside it |
| MacroNames.AddKeepsBijection | intl/core_option_translation.py:209-213 | a new text never overwrites a macro and keeps macros and texts in one-to-one correspondence |
| MacroNames.CategoryKeepsBijectionIffFresh | intl/core_option_translation.py:227-238 | taking the category key out keeps the correspondence if and only if the key is fresh |
| MacroNames.OptionKeepsBijection | intl/core_option_translation.py:198-269 | one option of any kind, values included, parses and keeps the correspondence if and only if it is well parsed and its category key is fresh |
| MacroNames.CleanIsFresh | intl/core_option_translation.py:164-270 | in a file where no label, info or value text equals a category key of its language, every key is fresh when the parse reaches it |
| MacroNames.FreshIffAlwaysOneToOne | intl/core_option_translation.py:164-270 | wherever the parse of a file is stopped between two options it has raised nothing and its tables are one-to-one, if and only if every option is well parsed and every key fresh when it is reached |
| MacroNames.TextsAreBijections | intl/core_option_translation.py:164-270 | every such file parses, and in every language macros and texts are in one-to-one correspondence, at its end and after every option |
| MacroNames.EachTextHasOneMacro | intl/core_option_translation.py:164-270 | in a clean file the texts with a macro are exactly its labels, infos and values, but not its category keys and what is translated elsewhere; each has one |
| MacroNames.NamesTellOrigin | intl/core_option_translation.py:198-269 | every macro an option adds begins with the option's name and the place of its text |
| MacroNames.CollapseMeans | intl/core_option_translation.py:211 | runs of underscores become one, and nothing else changes |
| MacroNames.TextsThatCount | intl/core_option_translation.py:250-256 | which texts are long enough, and when a value is shown by its key |
| MacroNames.MendedByAccident | intl/core_option_translation.py:227-238 | a concrete file in which two wrong removals balance, so that only its final tables are one-to-one |
| MacroNames.LabelAsCategoryKeyFails | intl/core_option_translation.py:227-238 | a concrete file that parses into a broken table |
| MacroNames.Texts.EnterInfos | intl/core_option_translation.py:229-246 | the info loop and the macro made last |
| MacroNames.Texts.EnterCategoryInfos | intl/core_option_translation.py:227-238 | the loop, then the category key out again, or the exception |
| MacroNames.Texts.EnterValues | intl/core_option_translation.py:250-269 | the value loop |
| MacroNames.Texts.ParseOption | intl/core_option_translation.py:198-269 | one option into the dictionaries, or the exception |
| MacroNames.Texts.ParseFile | intl/core_option_translation.py:164-270 | the whole parse computes the specified dictionaries |
| ReleasePage.ClassifyApps | scripts/build_site.py:785-790 | the app rows are exactly the names taken, each once, in the order of the kind table |
| ReleasePage.PlaceHolds | scripts/build_site.py:791-815 | placing one asset adds it to exactly one list or slot |
| ReleasePage.PlatformOfTarget | scripts/build_site.py:647-664 | which platform each build name belongs to, and what is left of the name |
| ReleasePage.KindsByPackage | scripts/build_site.py:617-640 | the kind table by platform, architecture and caption |
| ReleasePage.Classify | scripts/build_site.py:772-817 | with unique names every asset lands in exactly one list or slot, the one its name belongs to, in release order, with what its name says; nothing is dropped |
| ReleasePage.SecondSumsDropsFirst | scripts/build_site.py:799-802 | why unique names are needed |
| ReleasePage.GroupApps | scripts/build_site.py:824-839 | two-level grouping loses, repeats and reorders nothing, and gives one line per platform and architecture |
| ReleasePage.OneRowPerArch | scripts/build_site.py:824-839 | merging neighbours suffices because rows come in table order |
| ReleasePage.FillGroups | scripts/build_site.py:867-869 | the dictionary holds each platform's rows in order |
| ReleasePage.GroupedOnce | scripts/build_site.py:864-895 | reading it out in display order renders each core row exactly once |
| ReleasePage.SortedInOrder | scripts/build_site.py:897-901 | the tools table is sorted by tool and platform, and stable |
| ReleasePage.RenderPanel | scripts/build_site.py:927-995 | the full panel links every asset of a release with unique names exactly once, section by section in order |

## Left out

- The emulator modules behind the savestate chunks: each is an abstract codec with a fixed size, a `settle` and a `reset` that may look at the live image and at facts of the session (as the GameDrive loader and the HLE stream's reset do), but not at other modules. Three derivations cross modules and are modelled: the resampler's rate, the DRAM timing and the work flag. Sections inside the input-device chunk that were extended in place, and cache invalidations that are not state (frame caches, blit memo, RISC latch), are not modelled.
- How each module loader fills its fields, including what `JGDFSStateLoad` does to open files, is not part of this model.
- Room checks before the untagged chunks of a savestate: the source has none, and the model requires those chunks to fit, as its fixed sizes make them.
- AchHttp: the transports, the abort flag, callbacks that themselves call `pump` or `shutdown`, and more than one pumping thread. `JoinIsReached` assumes the transport call returns.
- Option rows are numbered within their group, in the order of its keys, instead of carrying the strings. Toasts, log lines and the device-mismatch warnings of the host rebuild are not modelled.
- The idle-skip note's text and the resolver's reason strings are inputs; the load-time notices are not modelled.
- The parsing of option strings into devices, ladders and profiles; `pro_controller`, which is refreshed only by an option read.
- HostPicker: the lengths to which the table cuts addresses and names; sockets, packet decoding and the filter for the core's own beacons; deinit, which empties table and list and clears the latch and the limit, but not the discovery changed flag (`src/jerry/jlink.c:123`).
- Disk control: image labels, `get_image_path`, the initial image, and the Memory Track and BIOS flags, which a failed insert does not restore.
- SaveRam: the no-content session without a Memory Track, which is handed no buffer; switching a cartridge session to CD by inserting a disc; the bit-by-bit serial protocol of the two EEPROMs (the decoded commands are the events).
- Title database contents, hooks and the safety rules behind "known bad" are a function given to the resolver.
- MacroNames: the parser's regular expressions and `remove_special_chars`; structs arrive as records with cleaned names, and `known` stands for the on/off and numeric values.
- MacroNames.TextsAreBijections: being clean can be read off the file and is sufficient, not necessary; the exact condition follows the parse, by MacroNames.FreshIffAlwaysOneToOne.
- OptionString: copying definitions into version 1 structures, allocation failure and the clean-up of the arrays.
- ReleasePage: markup, icons, sizes, the app-only page and the pointers to other releases; `Matcher` stands for the regular expressions. A tool platform outside the table counts as "other".
- Start-up, run loop, audio, video and input mapping of the core; everything else under `src/`.
