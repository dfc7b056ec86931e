# MagicMirror widgets: a verified model

This project models the logic underneath a set of MagicMirror² widgets, written in Dafny. The widgets control scenes, show sports scores, news and music, and one is a voice assistant. The DOM they draw, the network and the file system are not modelled. What remains is small, statable logic, in three groups:

- **Scene control.** Each of these is a state machine with a few flags, at most a few timers and a log of outgoing notifications. They are modelled as classes, and every handler states its new state; where a handler arms a timer, it states which timer the handle names and with what delay:
  - the linear next/previous bridge;
  - the interaction "hold" of MMM-SmartScenes;
  - the two "music plays → switch scene, switch back after a grace timer" controllers (MMM-UxPlayScenes and MMM-Lastfm-Scenes);
  - the file observer that feeds MMM-UxPlayScenes;
  - clown mode;
  - the wake-word status indicator;
  - the now-playing tracker;
  - the joke/fact rotation;
  - the volume latch of MMM-SimpleStats.
- **Classifiers and formatters.** Examples are the ESPN status mapping, ordinal standings, team initials, shortened player names, the fantasy lineup order and counts, focus-team filtering and the column split, headline truncation, "time ago" buckets and the 12-hour clock. They are functions, with lemmas stating what they promise.
- **Small parsers and builders.** These are:
  - the `Key: value` metadata parser;
  - the regular-expression RSS reader (`<item>`, `<title>`, `<link>`, `<pubDate>`);
  - the standings dictionary of MMM-NFLDivisionsGrid;
  - the pruned logo directory tree of MMM-MyScoreboard;
  - the seven-day NFL week aggregation.

  Where the code works in a loop, it is modelled as a method whose loop is proved against a function.

Helpers without a row of their own are parts of the expression of a member that has one: `Header` of `DivisionTable`, `CountInPlay`/`CountToPlay`/`CountDoneScoreless` of `TeamStats`, `Newest` of `GetCompactNews` (its properties are `NewestProperties` and `NewestAreNewest`), and `IsFinal`/`LiveClockOf`/`PossessionDot` of `RowFor`.

Modelling conventions:

- **Timers.** A timer is explicit state: a handle the module keeps, and the timers the event loop will still fire. A `Fire…` method stands for a timer's expiry and requires that timer to be scheduled. Keeping both is necessary because in several modules the handle and the live timer differ. MMM-SmartScenes `suspend` cancels without clearing the handle. The Last.fm stop callback and the wake-word status timeouts leave fired handles behind.
- **Notifications.** Outgoing notifications and requests are append-only sequences.
- **Inputs from outside.** File observations, fetched answers, the clock and date parsing are parameters.
- **Numbers and strings.** Numbers are unbounded integers. JavaScript's truncating `%`, `String.prototype.trim`, ASCII case mapping, `indexOf`, `split`/`join` and the stable `Array.prototype.sort` are written out in `Util`.

Where the modules' described behaviour and their code differ, the model follows the code:

- `mapStatus` in MMM-AllGamesLive treats period 0 as a falsy status. It is therefore UPCOMING, not "0TH".
- MMM-NFLMinimal drops the last game of an odd list before splitting. Its two columns therefore always have the same length.
- In MMM-UxPlayScenes's node helper, a track found by the first check arms a second polling interval (see Findings).
- MMM-NFLMinimal colours a final game by comparing the two score strings, not their values. `NflMinimal.GameRow` draws it that way; the intended comparison is `NflMinimal.GameRowIntended` (see Findings).
- With `showLogos` on and `useLocalLogos` off, MMM-NFLDivisionsGrid throws while drawing the first team row. `NflDivisionsGrid.DivisionsGrid.View` gives a thrown page then; the intended page is `NflDivisionsGrid.DivisionsGrid.IntendedView` (see Findings).
- `MUSIC_STOPPED` is the only stop signal that helper sends, so the front end's `FILE_MISSING` path is reachable only from other senders. It is modelled all the same.

## Model

| member | source | states |
|---|---|---|
| ScenesLinearBridge.DirectionOf | modules/MMM-ScenesLinearBridge/MMM-ScenesLinearBridge.js:14 | exactly the two linear notifications start a move, NEXT forward and PREV backward |
| ScenesLinearBridge.OnNotification | modules/MMM-ScenesLinearBridge/MMM-ScenesLinearBridge.js:13-16 | a `SCENES_CURRENT` query is sent for the two linear notifications and nothing for any other |
| ScenesLinearBridge.CurrentIndex | modules/MMM-ScenesLinearBridge/MMM-ScenesLinearBridge.js:18-22 | the index is -1 or a position of the order; it is a position exactly when the name is defined and in the order, and the order holds the name there |
| ScenesLinearBridge.Target | modules/MMM-ScenesLinearBridge/MMM-ScenesLinearBridge.js:24-29 | the scene computed with JavaScript's remainder always lies in the order, for every index from -1 on |
| ScenesLinearBridge.OnReply | modules/MMM-ScenesLinearBridge/MMM-ScenesLinearBridge.js:16-34 | the callback always plays a scene of the order, and a callback that throws plays the first scene |
| ScenesLinearBridge.Exchange | modules/MMM-ScenesLinearBridge/MMM-ScenesLinearBridge.js:13-38 | a linear notification leads to one query and then exactly one `SCENES_PLAY` of a scene in the order; any other notification sends nothing |
| ScenesLinearBridge.NeighbourPositions | modules/MMM-ScenesLinearBridge/MMM-ScenesLinearBridge.js:21-29 | from position i, NEXT plays position (i+1) mod 4 and PREV position (i+3) mod 4 |
| ScenesLinearBridge.PrevWraps | modules/MMM-ScenesLinearBridge/MMM-ScenesLinearBridge.js:27-28 | PREV from the first scene wraps round to the last |
| ScenesLinearBridge.UnknownScene | modules/MMM-ScenesLinearBridge/MMM-ScenesLinearBridge.js:21-29 | a missing or unknown scene counts as position -1: NEXT plays the first scene, PREV the third (the `+ length` leaves -2 + 4) |
| ScenesLinearBridge.NextPrevRoundTrip | modules/MMM-ScenesLinearBridge/MMM-ScenesLinearBridge.js:24-29 | for every scene of the order, PREV after NEXT comes back to it and NEXT after PREV does too |
| ClownModeHelper.Respond | modules/MMM-ClownModeHelper/MMM-ClownModeHelper.js:31-79 | at most one notification is sent; the three clown commands send exactly one `CLOWN_MODE_CHANGED` carrying the new flag; every other notification leaves the flag alone |
| ClownModeHelper.ToggleTwice | modules/MMM-ClownModeHelper/MMM-ClownModeHelper.js:32-42 | two toggles restore the flag, and a toggle reports the flipped flag |
| ClownModeHelper.OnOffIdempotent | modules/MMM-ClownModeHelper/MMM-ClownModeHelper.js:44-64 | ON sets and OFF clears the flag whatever it was, so repeating ON changes nothing |
| ClownModeHelper.Forwarding | modules/MMM-ClownModeHelper/MMM-ClownModeHelper.js:66-77 | pause, resume and play requests are forwarded one to one (play with `payload.scene`, possibly undefined) and leave the flag alone |
| ClownModeHelper.UnknownIgnored | modules/MMM-ClownModeHelper/MMM-ClownModeHelper.js:31-79 | any other notification changes nothing and sends nothing |
| ClownModeHelper.Helper.constructor | modules/MMM-ClownModeHelper/MMM-ClownModeHelper.js:19-21 | clown mode starts off with nothing sent |
| ClownModeHelper.Helper.SocketNotificationReceived | modules/MMM-ClownModeHelper/MMM-ClownModeHelper.js:31-79 | the flag and the notifications appended are exactly those of `Respond` on the old flag |
| LastfmScenes.Controller.constructor | modules/MMM-Lastfm-Scenes/MMM-Lastfm-Scenes.js:9-14 | the module starts not playing, with no stop timer and nothing sent |
| LastfmScenes.Controller.ClearStopTimer | modules/MMM-Lastfm-Scenes/MMM-Lastfm-Scenes.js:34 | clearing cancels the scheduled stop timer but leaves the handle as it was |
| LastfmScenes.Controller.CheckPlayback | modules/MMM-Lastfm-Scenes/MMM-Lastfm-Scenes.js:28-45 | art appearing while stopped cancels the stop timer, marks playing and plays the music scene; art vanishing while playing replaces the stop timer by a fresh one with the configured stop delay, named by the handle, and stays playing; in the other two cases nothing changes; at most one stop timer is ever scheduled |
| LastfmScenes.Controller.FireStopTimer | modules/MMM-Lastfm-Scenes/MMM-Lastfm-Scenes.js:40-43 | the stop timer ends playback and plays the return scene; the handle is not cleared |
| LastfmScenes.Controller.OnPlay | modules/MMM-Lastfm-Scenes/MMM-Lastfm-Scenes.js:47-52 | sends `SCENES_PLAY` for the music scene and nothing else |
| LastfmScenes.Controller.OnStop | modules/MMM-Lastfm-Scenes/MMM-Lastfm-Scenes.js:54-60 | sends `SCENES_PLAY` for the return scene and nothing else |
| SmartScenes.IsUserInteraction | modules/MMM-SmartScenes/MMM-SmartScenes.js:37-51 | a notification is an interaction exactly when it is one of the eight listed names |
| SmartScenes.SceneChangeIsInteraction | modules/MMM-SmartScenes/MMM-SmartScenes.js:24-50 | every manual scene change (NEXT, PREV, PLAY) is also counted as an interaction |
| SmartScenes.SmartScenes.constructor | modules/MMM-SmartScenes/MMM-SmartScenes.js:17-22 | the module starts not extended, with no timer, no interactions and nothing sent |
| SmartScenes.SmartScenes.ResetExtensionTimer | modules/MMM-SmartScenes/MMM-SmartScenes.js:94-104 | the timer the handle names is cancelled and a fresh one with the extended duration is armed and kept in the handle; nothing is sent |
| SmartScenes.SmartScenes.ExtendCurrentScene | modules/MMM-SmartScenes/MMM-SmartScenes.js:74-92 | afterwards the scene is extended with a live timer of the extended duration that the handle names, a fresh one whenever a timer was held before; `SCENES_PAUSE` is sent exactly when it was not extended before |
| SmartScenes.SmartScenes.HandleUserInteraction | modules/MMM-SmartScenes/MMM-SmartScenes.js:53-60 | the interaction count goes up by one and the scene is extended, its hold timer restarted as a fresh timer of the extended duration that the handle names |
| SmartScenes.SmartScenes.HandleSceneChange | modules/MMM-SmartScenes/MMM-SmartScenes.js:62-72 | a manual scene change schedules one delayed extension of 1000 ms, after those already scheduled, and changes nothing else |
| SmartScenes.SmartScenes.NotificationReceived | modules/MMM-SmartScenes/MMM-SmartScenes.js:24-35 | an interaction is counted, extends the scene and restarts its hold timer fresh with the extended duration; a scene change also schedules a delayed extension of 1000 ms; anything else leaves the state and the notifications alone |
| SmartScenes.SmartScenes.ResumeNormalScenes | modules/MMM-SmartScenes/MMM-SmartScenes.js:106-114 | the scene is no longer extended, the handle is cleared and `SCENES_RESUME` is sent |
| SmartScenes.SmartScenes.FireExtensionTimer | modules/MMM-SmartScenes/MMM-SmartScenes.js:101-103 | the live extension timer resumes the rotation once and leaves no timer |
| SmartScenes.SmartScenes.FireDelayedExtension | modules/MMM-SmartScenes/MMM-SmartScenes.js:68-70 | the oldest delayed extension runs `extendCurrentScene`: the scene is extended and its hold timer restarted fresh with the extended duration, `SCENES_PAUSE` being sent only when it was not extended |
| SmartScenes.SmartScenes.Suspend | modules/MMM-SmartScenes/MMM-SmartScenes.js:124-128 | the timer is cancelled but the handle and the extended flag stay, so the rotation stays paused |
| SmartScenes.AlternationOverAnyRun | modules/MMM-SmartScenes/MMM-SmartScenes.js:24-114 | over any run of events from `start`, the notifications sent alternate PAUSE, RESUME, PAUSE, ... beginning with PAUSE |
| SimpleStats.TempColor | modules/MMM-SimpleStats/MMM-SimpleStats.js:106-112 | red exactly from 170 degrees on, white exactly below |
| SimpleStats.Cells | modules/MMM-SimpleStats/MMM-SimpleStats.js:88-98 | one cell per enabled column, so the table row is empty exactly when no column is enabled |
| SimpleStats.TableShownIff | modules/MMM-SimpleStats/MMM-SimpleStats.js:84-101 | the display holds a table exactly when CPU, RAM or disk is enabled, and then the table is the last part and has at least one cell |
| SimpleStats.SimpleStats.constructor | modules/MMM-SimpleStats/MMM-SimpleStats.js:25-37 | the statistics start at zero, "0.0.0.0" and "Disconnected", the previous volume at -1, with the first-update flag set and no wrapper |
| SimpleStats.SimpleStats.ShouldAnimateVolume | modules/MMM-SimpleStats/MMM-SimpleStats.js:115-130 | the volume animates exactly when this is not the first update and the volume differs from the last one recorded; afterwards the volume is recorded and the first-update flag is off |
| SimpleStats.SimpleStats.UpdateDisplay | modules/MMM-SimpleStats/MMM-SimpleStats.js:60-104 | without a wrapper nothing changes; otherwise the display becomes the parts for the statistics, the volume deciding the animation only when the volume is shown |
| SimpleStats.SimpleStats.BuildParts | modules/MMM-SimpleStats/MMM-SimpleStats.js:63-101 | the lines are appended in the order volume, temperature, Wi-Fi, IP, table, each only when enabled |
| SimpleStats.SimpleStats.BuildCells | modules/MMM-SimpleStats/MMM-SimpleStats.js:86-100 | the table cells are CPU, RAM and disk in that order, each only when enabled |
| SimpleStats.SimpleStats.GetDom | modules/MMM-SimpleStats/MMM-SimpleStats.js:43-58 | after `getDom` the wrapper exists and shows the parts of the current statistics, the volume line animated exactly when the volume is shown, this is not the first update and the volume moved; with the volume shown the latch then holds the current volume and is past its first update, otherwise the latch is unchanged |
| SimpleStats.SimpleStats.SocketNotificationReceived | modules/MMM-SimpleStats/MMM-SimpleStats.js:132-137 | `STATS` replaces the statistics as a whole; with a wrapper it redraws, animating the volume exactly when it moved since the last redraw, and the latch then holds the new volume; without a wrapper, or with the volume hidden, the display or the latch is unchanged |
| JokesAndFacts.ShouldFilter | modules/MMM-JokesAndFacts/MMM-JokesAndFacts.js:127-131 | a text is filtered exactly when its lower-cased form contains the lower-cased form of some filter term |
| JokesAndFacts.NoFilters | modules/MMM-JokesAndFacts/MMM-JokesAndFacts.js:127-131 | with no filter terms nothing is filtered |
| JokesAndFacts.EmptyTermFiltersAll | modules/MMM-JokesAndFacts/MMM-JokesAndFacts.js:127-131 | an empty filter term filters every text |
| JokesAndFacts.FilterIgnoresCase | modules/MMM-JokesAndFacts/MMM-JokesAndFacts.js:127-131 | upper-casing the text does not change whether it is filtered |
| JokesAndFacts.Advance | modules/MMM-JokesAndFacts/MMM-JokesAndFacts.js:108-110 | the next round-robin index stays inside the cache and is the following entry unless the last one was shown |
| JokesAndFacts.RoundRobin | modules/MMM-JokesAndFacts/MMM-JokesAndFacts.js:103-120 | starting from the first entry, k rotations of one kind reach entry k, and n rotations of a cache of n entries come back to the first |
| JokesAndFacts.Dom | modules/MMM-JokesAndFacts/MMM-JokesAndFacts.js:38-76 | the content is the current text; the label is drawn only when enabled, above or below as configured, and says "Dad Joke" exactly while jokes are being shown |
| JokesAndFacts.JokesAndFacts.constructor | modules/MMM-JokesAndFacts/MMM-JokesAndFacts.js:17-36 | the module starts on "Loading...", showing jokes, with empty caches, and its first requests are one joke and one fact in the configured language |
| JokesAndFacts.JokesAndFacts.RequestFreshContent | modules/MMM-JokesAndFacts/MMM-JokesAndFacts.js:92-97 | each update tick requests one more joke and one more fact, in that order, and changes nothing else |
| JokesAndFacts.JokesAndFacts.RotateContent | modules/MMM-JokesAndFacts/MMM-JokesAndFacts.js:100-124 | the kind always flips; when the cache of the new kind has entries, its current entry is shown and only its index advances; when that cache is empty, the text and both indices stay |
| JokesAndFacts.JokesAndFacts.JokeResult | modules/MMM-JokesAndFacts/MMM-JokesAndFacts.js:134-150 | a filtered joke is dropped and another one requested; any other joke is appended to the cache and replaces the loading text only while jokes are shown |
| JokesAndFacts.JokesAndFacts.FactResult | modules/MMM-JokesAndFacts/MMM-JokesAndFacts.js:151-168 | a filtered fact is dropped and another one requested in the configured language; any other fact is appended to the cache and replaces the loading text only while facts are shown |
| UxPlayScenes.Controller.constructor | modules/MMM-UxPlayScenes/MMM-UxPlayScenes.js:10-14 | the controller starts not playing, with no return timer, a zero file-check time and nothing sent |
| UxPlayScenes.Controller.StartupTimerFires | modules/MMM-UxPlayScenes/MMM-UxPlayScenes.js:18-25 | after the startup delay the helper is asked once to monitor, with the configured file, interval and stop delay |
| UxPlayScenes.Controller.HandleMusicPlaying | modules/MMM-UxPlayScenes/MMM-UxPlayScenes.js:38-51 | a playing signal cancels any pending return and marks music playing; the music scene is requested only on the first signal of a run |
| UxPlayScenes.Controller.ArmReturn | modules/MMM-UxPlayScenes/MMM-UxPlayScenes.js:53-75 | a return timer with the given delay is armed only while music plays and no return timer is pending; otherwise the pending timer stays as it is |
| UxPlayScenes.Controller.HandleMusicStopped | modules/MMM-UxPlayScenes/MMM-UxPlayScenes.js:53-63 | a stopped signal arms a fresh return timer with the configured stop delay, under the same condition |
| UxPlayScenes.Controller.HandleFileMissing | modules/MMM-UxPlayScenes/MMM-UxPlayScenes.js:65-75 | a missing-file signal arms a fresh return timer of 10 seconds, under the same condition |
| UxPlayScenes.Controller.SocketNotificationReceived | modules/MMM-UxPlayScenes/MMM-UxPlayScenes.js:28-36 | a playing signal marks music as playing, cancels the return timer, records the check time and requests the music scene on the first signal only; a stop or missing-file signal while playing with no timer pending arms a fresh return timer of the stop delay or 10 seconds, and otherwise keeps the timer; neither changes whether music plays or sends anything |
| UxPlayScenes.Controller.FireStopTimer | modules/MMM-UxPlayScenes/MMM-UxPlayScenes.js:57-61 | when the return timer expires the music stops, no timer is pending, and the return scene is requested exactly once |
| UxPlayScenes.Controller.OnPlay | modules/MMM-UxPlayScenes/MMM-UxPlayScenes.js:77-84 | one scene request for the music scene is sent |
| UxPlayScenes.Controller.OnStop | modules/MMM-UxPlayScenes/MMM-UxPlayScenes.js:86-94 | one scene request for the return scene is sent |
| UxPlayScenesHelper.HasValidContent | modules/MMM-UxPlayScenes/node_helper.js:65-66 | trimmed content that names a track is non-empty, contains "Title:" and does not contain "no data" |
| UxPlayScenesHelper.BlankContentInvalid | modules/MMM-UxPlayScenes/node_helper.js:65-66 | a file made only of whitespace never names a track |
| UxPlayScenesHelper.NeverFileMissing | modules/MMM-UxPlayScenes/node_helper.js:76-96 | the helper only ever sends playing and stopped signals, never a missing-file signal |
| UxPlayScenesHelper.Helper.constructor | modules/MMM-UxPlayScenes/node_helper.js:5-12 | the helper starts not monitoring, with no track, no timer and a zero modification time, remembering its start time |
| UxPlayScenesHelper.Helper.ArmInterval | modules/MMM-UxPlayScenes/node_helper.js:37-39 | a new interval timer gets a fresh id and is scheduled with the given period, beside the ones already scheduled |
| UxPlayScenesHelper.Helper.AdjustPollingRate | modules/MMM-UxPlayScenes/node_helper.js:43-56 | the period becomes three times the base period while a track plays and the base period otherwise; the timer is replaced only when the period changes |
| UxPlayScenesHelper.Helper.ChangeTrack | modules/MMM-UxPlayScenes/node_helper.js:72-83 | the track state flips, the polling follows it, and exactly one matching playing or stopped signal is sent, so the signals keep alternating from playing |
| UxPlayScenesHelper.Helper.CheckFile | modules/MMM-UxPlayScenes/node_helper.js:58-99 | a missing file ends a track with one stopped signal; a newer file written after startup sets the track state from its content; an older file or one from before startup leaves the track state alone; the modification time never goes back; a signal is sent and the polling changes exactly when the track state changes |
| UxPlayScenesHelper.Helper.CheckPresentFile | modules/MMM-UxPlayScenes/node_helper.js:61-88 | the branch of the poll where the file exists, with the same guarantees |
| UxPlayScenesHelper.Helper.Configure | modules/MMM-UxPlayScenes/node_helper.js:21-28 | monitoring starts with the given base period, a slow period three times it, and the base period as the current one |
| UxPlayScenesHelper.Helper.InitialCheck | modules/MMM-UxPlayScenes/node_helper.js:33-34 | the first poll leaves the result of `checkFile`: a track exactly when the file is present, modified since the last check and since start-up, with valid content (an older file keeps the previous track state), the newer modification time recorded, and `MUSIC_PLAYING` or `MUSIC_STOPPED` sent exactly when the track state changes; it arms a slow interval already when it finds a track and the period is not zero, and arms nothing otherwise |
| UxPlayScenesHelper.Helper.StartMonitoring | modules/MMM-UxPlayScenes/node_helper.js:20-40 | a second start request changes nothing; a first one polls once from no track, leaving the track state, modification time and signal of that `checkFile` (so a fresh, valid track file gives a track and exactly one `MUSIC_PLAYING`), and then leaves two intervals scheduled when that poll found a track and the period is not zero, one otherwise |
| UxPlayScenesHelper.Helper.StartMonitoringSingleTimer | modules/MMM-UxPlayScenes/node_helper.js:20-40 | with the handle cleared before arming, a first start request polls once as the code does (track, modification time and `MUSIC_PLAYING` as for `StartMonitoring`) and leaves exactly one interval scheduled, the one the handle names, at the current period |
| UxPlayScenesHelper.StartMonitoringLeaksInterval | modules/MMM-UxPlayScenes/node_helper.js:20-40 | as written, starting with a fresh, valid track file and a non-zero period sends `MUSIC_PLAYING` once and leaves two intervals scheduled, the handle naming one of them |
| UxPlayScenesHelper.StartMonitoringSingleTimerKeepsOne | modules/MMM-UxPlayScenes/node_helper.js:20-40 | as intended, the same start sends `MUSIC_PLAYING` once and leaves exactly one interval, the one the handle names |
| UxPlayScenesHelper.Helper.FireInterval | modules/MMM-UxPlayScenes/node_helper.js:37-39 | any scheduled interval, the leaked one included, polls the file and leaves the state `checkFile` gives: a missing file ends a track with one stopped signal, a newer file written after startup sets the track state from its content, the modification time never goes back, and the signal and polling change exactly when the track state changes; an interval the handle does not name stays scheduled |
| UxPlayNowPlayingHelper.SplitLine | modules/MMM-UxPlayNowPlaying/node_helper.js:72-73 | the key of a line is everything before its first ": " and never contains ": "; a line without ": " is all key with an empty value |
| UxPlayNowPlayingHelper.SplitLineIsSplitJoin | modules/MMM-UxPlayNowPlaying/node_helper.js:72-73 | the key and value are the first piece of splitting the line on ": " and the other pieces joined back with ": " and trimmed |
| UxPlayNowPlayingHelper.ApplyLine | modules/MMM-UxPlayNowPlaying/node_helper.js:75-85 | an Album, Artist or Title line sets that one field to the line's value; a line with any other key changes nothing |
| UxPlayNowPlayingHelper.LastTitleWins | modules/MMM-UxPlayNowPlaying/node_helper.js:71-86 | when several lines name a title, the record keeps the value of the last one |
| UxPlayNowPlayingHelper.NoTitleLine | modules/MMM-UxPlayNowPlaying/node_helper.js:71-86 | without a Title line the record has no title |
| UxPlayNowPlayingHelper.OtherKeysIgnored | modules/MMM-UxPlayNowPlaying/node_helper.js:71-86 | lines whose keys are none of Album, Artist and Title yield an empty record |
| UxPlayNowPlayingHelper.CollectTrack | modules/MMM-UxPlayNowPlaying/node_helper.js:69-86 | the loop over the lines builds the record that applying the lines in order gives |
| UxPlayNowPlayingHelper.Helper.constructor | modules/MMM-UxPlayNowPlaying/node_helper.js:6-15 | the helper starts not monitoring, with no track, no timer, a zero modification time and nothing sent |
| UxPlayNowPlayingHelper.Reading | modules/MMM-UxPlayNowPlaying/node_helper.js:64-112 | a read shows a track exactly when the file could be read and its record has a non-empty title or artist, and then it is that record |
| UxPlayNowPlayingHelper.PollFile | modules/MMM-UxPlayNowPlaying/node_helper.js:41-62 | one poll of a missing file clears the track and sends one empty update only when a track was shown; a file no newer than the last one changes nothing; a newer one moves the modification time on and, when its record shows a track, makes it current and sends it; at most one update per poll |
| UxPlayNowPlayingHelper.PollTwice | modules/MMM-UxPlayNowPlaying/node_helper.js:41-62 | polling an unchanged file a second time changes nothing and sends nothing |
| UxPlayNowPlayingHelper.Helper.ParseMetadata | modules/MMM-UxPlayNowPlaying/node_helper.js:64-112 | a file that cannot be read changes nothing; a record with a non-empty title or artist becomes the current track and is sent once; any other record changes nothing; the outcome is the track that `Reading` shows, when it shows one |
| UxPlayNowPlayingHelper.Helper.CheckFiles | modules/MMM-UxPlayNowPlaying/node_helper.js:41-62 | a missing file clears the track and sends one empty update only when a track was shown; a file no newer than the last one changes nothing; a newer one moves the modification time on and is parsed; the new modification time, track and updates are exactly those of one `PollFile` |
| UxPlayNowPlayingHelper.Helper.StartMonitoring | modules/MMM-UxPlayNowPlaying/node_helper.js:23-39 | a second start request changes nothing; the first records the interval, keeps the interval's handle and polls once, leaving the modification time, track and updates of one `PollFile` of the file |
| UxPlayNowPlayingHelper.Helper.Stop | modules/MMM-UxPlayNowPlaying/node_helper.js:163-168 | stopping cancels the polling interval and ends monitoring |
| UxPlayNowPlaying.TransitionNamed | modules/MMM-UxPlayNowPlaying/MMM-UxPlayNowPlaying.js:160-175 | exactly the names "fade", "slide", "fadeSlide" and "scale" select an animation |
| UxPlayNowPlaying.IsTrackChange | modules/MMM-UxPlayNowPlaying/MMM-UxPlayNowPlaying.js:50-52 | an update is a track change exactly when no track was shown, or the title or the artist differs |
| UxPlayNowPlaying.AlbumIgnored | modules/MMM-UxPlayNowPlaying/MMM-UxPlayNowPlaying.js:50-52 | a different album alone is not a track change |
| UxPlayNowPlaying.AnimationFor | modules/MMM-UxPlayNowPlaying/MMM-UxPlayNowPlaying.js:148-176 | the redraw is plain exactly when the module's wrapper is absent or the configured name selects no animation |
| UxPlayNowPlaying.RowsFor | modules/MMM-UxPlayNowPlaying/MMM-UxPlayNowPlaying.js:110-136 | the title and artist rows fall back to "Unknown Title" and "Unknown Artist" when empty; the album row appears exactly when the album is non-empty |
| UxPlayNowPlaying.NowPlaying.constructor | modules/MMM-UxPlayNowPlaying/MMM-UxPlayNowPlaying.js:18-31 | the module starts with no track and no redraw, and asks the helper once to monitor the configured file at the configured interval |
| UxPlayNowPlaying.NowPlaying.HandleTrackUpdate | modules/MMM-UxPlayNowPlaying/MMM-UxPlayNowPlaying.js:39-61 | the update becomes the current track, an empty one clearing it; exactly one redraw follows, animated only when transitions are on and the track changed |
| WakeWordIndicator.OnTopic | modules/MMM-WakeWordIndicator/MMM-WakeWordIndicator.js:114-192 | the hotword gives wake with an idle timeout of the show duration; a session start from idle gives a 500 ms timeout to listening, the only timeout that leads to listening; startListening gives listening with an idle timeout of the listening duration; stopListening gives processing with a 2000 ms idle timeout; say gives speaking with a 30 s fallback that clears the text; sayFinished and sessionEnded give idle with no timeout; any other topic keeps the status with no timeout |
| WakeWordIndicator.SessionStartedOnlyFromIdle | modules/MMM-WakeWordIndicator/MMM-WakeWordIndicator.js:124-135 | a session start from idle shows wake and moves to listening after 500 ms; from any other status it keeps the status and leaves no timeout |
| WakeWordIndicator.HotwordTopicDistinct | modules/MMM-WakeWordIndicator/MMM-WakeWordIndicator.js:114-192 | whatever the wake word, the hotword topic differs from every other topic the module handles |
| WakeWordIndicator.TimeoutsEndIdle | modules/MMM-WakeWordIndicator/MMM-WakeWordIndicator.js:114-180 | a message sets a status timeout exactly for the hotword, a session start from idle, the two listening topics and say; every such timeout ends in idle except the session-start one, which ends in listening |
| WakeWordIndicator.NonBlank | modules/MMM-WakeWordIndicator/MMM-WakeWordIndicator.js:202 | the filter keeps exactly the pieces that are not blank after trimming, and keeps no more pieces than it was given |
| WakeWordIndicator.NonBlankSingle | modules/MMM-WakeWordIndicator/MMM-WakeWordIndicator.js:202 | a single piece is kept exactly when it is not blank |
| WakeWordIndicator.NonBlankConcat | modules/MMM-WakeWordIndicator/MMM-WakeWordIndicator.js:202 | filtering a concatenation is filtering each part, so the kept pieces stay in order |
| WakeWordIndicator.NonBlankNoSpace | modules/MMM-WakeWordIndicator/MMM-WakeWordIndicator.js:202 | filtering pieces that contain no space yields pieces that contain no space |
| WakeWordIndicator.NonBlankKeepsAll | modules/MMM-WakeWordIndicator/MMM-WakeWordIndicator.js:202 | a list without blank pieces passes the filter unchanged |
| WakeWordIndicator.Words | modules/MMM-WakeWordIndicator/MMM-WakeWordIndicator.js:202 | the words are the non-blank pieces of splitting the text on single spaces, in order; a word is in the list exactly when it is such a piece, and no word contains a space |
| WakeWordIndicator.WordsJoin | modules/MMM-WakeWordIndicator/MMM-WakeWordIndicator.js:202 | a text whose single spaces separate non-blank words is its words joined by single spaces |
| WakeWordIndicator.NextDelay | modules/MMM-WakeWordIndicator/MMM-WakeWordIndicator.js:218-220 | the next word waits the per-word interval, plus the ellipsis pause exactly after a word containing "..." |
| WakeWordIndicator.Shown | modules/MMM-WakeWordIndicator/MMM-WakeWordIndicator.js:246-257 | the first min(index + 1, word count) words are shown, in order, and exactly the word at the index is current |
| WakeWordIndicator.OneCurrentWord | modules/MMM-WakeWordIndicator/MMM-WakeWordIndicator.js:246-257 | while the index is inside the list the last word shown is the current one; past the end every word is shown and none is current |
| WakeWordIndicator.HtmlStep | modules/MMM-WakeWordIndicator/MMM-WakeWordIndicator.js:248-258 | each further word appends its span and one space to the markup |
| WakeWordIndicator.Indicator.constructor | modules/MMM-WakeWordIndicator/MMM-WakeWordIndicator.js:15-22 | the indicator starts idle, with no timeout, no text, no words and no word timers |
| WakeWordIndicator.Indicator.ClearWordTimers | modules/MMM-WakeWordIndicator/MMM-WakeWordIndicator.js:232-235 | every word timer is cancelled and the list of timers is emptied |
| WakeWordIndicator.Indicator.DisplayNextWord | modules/MMM-WakeWordIndicator/MMM-WakeWordIndicator.js:212-230 | while a word remains, one fresh word timer is pushed and scheduled with that word's delay; past the last word nothing is scheduled |
| WakeWordIndicator.Indicator.RestartWords | modules/MMM-WakeWordIndicator/MMM-WakeWordIndicator.js:198-209 | the old word timers are cleared, the word list restarts from the first word, and a word timer is pending exactly when there is a word |
| WakeWordIndicator.Indicator.StartWordByWordDisplay | modules/MMM-WakeWordIndicator/MMM-WakeWordIndicator.js:195-210 | with the display off or no text nothing changes; otherwise the words of the text restart from the first, with a timer pending exactly when there is a word |
| WakeWordIndicator.Indicator.FireWordTimer | modules/MMM-WakeWordIndicator/MMM-WakeWordIndicator.js:223-226 | a word timer moves the index on by one word; while a word remains it schedules the next word's timer, one fresh timer with the delay for the word just shown, and otherwise leaves no word timer |
| WakeWordIndicator.Indicator.HandleMqttMessage | modules/MMM-WakeWordIndicator/MMM-WakeWordIndicator.js:107-193 | the pending timeout is cancelled first; the status and the one new timeout, if any, are those of the topic; a spoken-text topic takes the JSON text, the raw message when it is not JSON, and keeps the old text when the JSON has no text; when it hands over a non-empty text to show, the words become the words of that text from the first one, with a word timer exactly when there is a word; the end of speech or of the session clears the text; in every other case the words, their index and their timers are unchanged |
| WakeWordIndicator.Indicator.UpdateSpokenText | modules/MMM-WakeWordIndicator/MMM-WakeWordIndicator.js:157-191 | the text half of the message handling: the new text as for `HandleMqttMessage`, the words of a shown text restarted from the first word with a word timer exactly when there is a word, and the words, index and timers otherwise unchanged |
| WakeWordIndicator.Indicator.SetStatus | modules/MMM-WakeWordIndicator/MMM-WakeWordIndicator.js:114-192 | the status becomes the topic's, and a timeout with a fresh id is pending exactly when the topic sets one |
| WakeWordIndicator.Indicator.FireStatusTimer | modules/MMM-WakeWordIndicator/MMM-WakeWordIndicator.js:119-180 | an expiring timeout goes to listening when it was the session-start one and to idle otherwise, clearing the text only for the speaking fallback |
| WakeWordIndicator.Indicator.SocketNotificationReceived | modules/MMM-WakeWordIndicator/MMM-WakeWordIndicator.js:93-105 | an error sets the error status and a disconnect or offline notice sets idle, both leaving the pending timeout, the text and the words; a message follows `HandleMqttMessage`: the status and timeout of the topic, the new text, and the words restarted only for a shown text; anything else changes nothing |
| WakeWordIndicator.Indicator.RenderSpokenText | modules/MMM-WakeWordIndicator/MMM-WakeWordIndicator.js:237-261 | without words the whole text is shown; otherwise the markup is that of the words shown so far, the current one marked |
| CompactNewsHelper.MatchIn | modules/MMM-CompactNews/node_helper.js:69-70 | a match lies inside the text: its content starts right after the first `>` that follows the opening, ends at the first closing tag after that, and the match ends with the closing tag |
| CompactNewsHelper.ElementMatch | modules/MMM-CompactNews/node_helper.js:69-70 | the case-insensitive element pattern finds an opening tag, a content ending at the first closing tag, and that closing tag, all inside the text, the opening ending in `>` |
| CompactNewsHelper.StripCData | modules/MMM-CompactNews/node_helper.js:71 | removing CDATA wrappers never makes the text longer, and a text without a CDATA opening is left as it is |
| CompactNewsHelper.ExtractContent | modules/MMM-CompactNews/node_helper.js:68-72 | a missing element gives the empty text; any extracted content neither starts nor ends with whitespace |
| CompactNewsHelper.ExtractElement | modules/MMM-CompactNews/node_helper.js:68-72 | extraction undoes writing an element: a content without `</`, without a CDATA opening and without surrounding whitespace comes back unchanged |
| CompactNewsHelper.StripCDataSection | modules/MMM-CompactNews/node_helper.js:71 | a CDATA section whose body has no `]]>` and no line break is replaced by its body, and the stripping goes on after it |
| CompactNewsHelper.ExtractCDataElement | modules/MMM-CompactNews/node_helper.js:68-72 | the content of an element written as one CDATA section on one line is the section's body, trimmed |
| CompactNewsHelper.ElementMatchOfElement | modules/MMM-CompactNews/node_helper.js:69-70 | on a written element the pattern captures exactly the element's content, whatever the case of the tag |
| CompactNewsHelper.ItemElements | modules/MMM-CompactNews/node_helper.js:46 | each item element found is at least as long as an empty `<item></item>` |
| CompactNewsHelper.ElementMatchAtStart | modules/MMM-CompactNews/node_helper.js:46 | the element pattern finds a written element at the head of a text as the whole element, whatever follows |
| CompactNewsHelper.ItemElementsOfElement | modules/MMM-CompactNews/node_helper.js:46 | an item element without `</` in its content, written before some text, is found first, followed by the item elements of that text |
| CompactNewsHelper.ItemElementsCons | modules/MMM-CompactNews/node_helper.js:46 | writing one more item in front of written items adds its element in front of those found |
| CompactNewsHelper.ItemList | modules/MMM-CompactNews/node_helper.js:46 | the reference list of written item elements: one per content, in order |
| CompactNewsHelper.ItemElementsOfWritten | modules/MMM-CompactNews/node_helper.js:46 | the item elements found in a run of written items, none of whose contents holds `</`, are exactly those items, in order |
| CompactNewsHelper.FieldsOf | modules/MMM-CompactNews/node_helper.js:49-52 | one set of title, link and date per item element |
| CompactNewsHelper.Kept | modules/MMM-CompactNews/node_helper.js:49-62 | no more items than elements, each with a non-empty title and the feed's name as its source |
| CompactNewsHelper.KeptMembers | modules/MMM-CompactNews/node_helper.js:49-62 | an item is produced exactly when it carries the feed's name, a non-empty title and the fields of some element |
| CompactNewsHelper.KeptPrefix | modules/MMM-CompactNews/node_helper.js:49-62 | the items keep document order: those of a prefix of the elements are a prefix of the result |
| CompactNewsHelper.ParseRSSItems | modules/MMM-CompactNews/node_helper.js:42-66 | the items are those kept from the fields of every item element of the feed text |
| CompactNewsHelper.KeepTitled | modules/MMM-CompactNews/node_helper.js:49-62 | the loop pushes exactly the items kept from the fields, in order |
| CompactNewsHelper.FeedItems | modules/MMM-CompactNews/node_helper.js:16-40 | a failed request gives no items; every item of a feed has a title and names that feed |
| CompactNewsHelper.Fetched | modules/MMM-CompactNews/node_helper.js:82-85 | one list of items per feed, in feed order, each that feed's items |
| CompactNewsHelper.SliceEnd | modules/MMM-CompactNews/node_helper.js:95 | the slice ends at the limit or the length, whichever is smaller; a negative limit drops that many items from the end |
| CompactNewsHelper.NewestProperties | modules/MMM-CompactNews/node_helper.js:88-95 | the answer has at most the requested number of items, ordered newest first, each one of the fetched items |
| CompactNewsHelper.NewestAreNewest | modules/MMM-CompactNews/node_helper.js:88-95 | no fetched item left out is newer than one sent |
| CompactNewsHelper.GetCompactNews | modules/MMM-CompactNews/node_helper.js:76-101 | the answer is the newest items of all feeds together, cut at the requested number |
| CompactNewsHelper.SocketNotificationReceived | modules/MMM-CompactNews/node_helper.js:74-108 | only `GET_COMPACT_NEWS` is answered; feeds that cannot be iterated give the error reply, and otherwise the reply is the newest items of all feeds together, cut at the requested number, failed feeds included as empty |
| CompactNewsHelper.CollectItems | modules/MMM-CompactNews/node_helper.js:79-85 | the loop collects every feed's items, feed after feed |
| CompactNewsHelper.ConcatStep | modules/MMM-CompactNews/node_helper.js:84 | pushing one more feed's items appends them after those collected so far |
| CompactNewsHelper.ConcatAppend | modules/MMM-CompactNews/node_helper.js:82-85 | collecting two runs of feeds gives the items of the first run followed by those of the second |
| CompactNewsHelper.FailedFeedContributesNothing | modules/MMM-CompactNews/node_helper.js:36-39 | a feed whose request fails changes nothing: the items are those of the other feeds |
| CompactNewsHelper.AllItemsTagged | modules/MMM-CompactNews/node_helper.js:54-60 | every collected item has a title and names one of the configured feeds |
| CompactNews.Truncate | modules/MMM-CompactNews/MMM-CompactNews.js:104-107 | a title that fits, or any title when the limit is 0, stays whole; a longer one is cut to the limit (to nothing for a negative limit) and ends in "..." |
| CompactNews.TruncateBound | modules/MMM-CompactNews/MMM-CompactNews.js:104-107 | with a positive limit a shown headline has at most the limit plus three characters, and is the title or its first characters followed by "..." |
| CompactNews.DaysOfHours | modules/MMM-CompactNews/MMM-CompactNews.js:115-120 | the whole days of the whole hours are the whole days of the span |
| CompactNews.TimeAgoBuckets | modules/MMM-CompactNews/MMM-CompactNews.js:109-128 | a day or more shows whole days, an hour or more whole hours, a minute or more whole minutes, anything younger (a future date too) "just now" |
| CompactNews.TimeAgoWithoutDate | modules/MMM-CompactNews/MMM-CompactNews.js:109-114 | no date shows nothing; an unparsable date shows "just now" |
| CompactNews.TimeAgo | modules/MMM-CompactNews/MMM-CompactNews.js:109-128 | the text is empty exactly when there is no date, and is otherwise "just now" or ends in " ago" |
| CompactNews.MetaTextParts | modules/MMM-CompactNews/MMM-CompactNews.js:76-83 | the ", " separator appears exactly when both a source and the time are shown, and the line is empty exactly when neither contributes |
| CompactNews.MetaText | modules/MMM-CompactNews/MMM-CompactNews.js:76-83 | a shown, non-empty source starts the line; a shown time with a date makes the line non-empty; with neither shown the line is empty |
| CompactNews.RowOf | modules/MMM-CompactNews/MMM-CompactNews.js:68-95 | the meta element is left out exactly when the meta line is empty, so it is never empty; a title within the length limit, or with no limit, is shown whole |
| CompactNews.Dom | modules/MMM-CompactNews/MMM-CompactNews.js:59-101 | the loading view shows exactly while nothing was received or the list is empty; otherwise there is one row per item up to the limit, in order |
| CompactNews.DomRows | modules/MMM-CompactNews/MMM-CompactNews.js:68-70 | rows alternate even and odd from the first, and no more than the limit are drawn |
| CompactNews.News.constructor | modules/MMM-CompactNews/MMM-CompactNews.js:25-42 | the module starts with no items, not loaded, and one request sent |
| CompactNews.News.Tick | modules/MMM-CompactNews/MMM-CompactNews.js:44-48 | each update tick sends one more request and changes nothing else |
| CompactNews.News.SocketNotificationReceived | modules/MMM-CompactNews/MMM-CompactNews.js:130-138 | a result replaces the list, a missing list becoming empty, and marks the module loaded; an error keeps the last list |
| FantasyTracker.OrdinalStanding | modules/MMM-FantasyTracker/MMM-FantasyTracker.js:425-431 | a missing or zero standing shows "?"; any other standing shows its number followed by one of "th", "st", "nd", "rd" |
| FantasyTracker.OrdinalSuffix | modules/MMM-FantasyTracker/MMM-FantasyTracker.js:428-430 | the suffix is always one of the four in the table, whatever the index arithmetic gives |
| FantasyTracker.OrdinalIsEnglish | modules/MMM-FantasyTracker/MMM-FantasyTracker.js:425-431 | for every positive standing the index arithmetic gives the English ordinal: 1st, 2nd, 3rd, 11th, 12th, 13th, 21st, 101st and so on |
| FantasyTracker.SuffixIsEnglish | modules/MMM-FantasyTracker/MMM-FantasyTracker.js:429-430 | the suffix chosen from the remainder by 100 is the English suffix of the standing |
| FantasyTracker.SuffixBelowTwenty | modules/MMM-FantasyTracker/MMM-FantasyTracker.js:430 | below 20 the first index is out of range except at 0 and 10, so 1, 2 and 3 take their own suffix and the rest, the teens included, take "th" |
| FantasyTracker.NegativeStanding | modules/MMM-FantasyTracker/MMM-FantasyTracker.js:427-430 | a negative standing always takes "th", because both indexes are out of range under the truncating remainder |
| FantasyTracker.NonEmpty | modules/MMM-FantasyTracker/MMM-FantasyTracker.js:434 | the filter keeps exactly the non-empty pieces, and no more pieces than it was given |
| FantasyTracker.NonEmptySingle | modules/MMM-FantasyTracker/MMM-FantasyTracker.js:434 | a single piece is kept exactly when it is non-empty |
| FantasyTracker.NonEmptyConcat | modules/MMM-FantasyTracker/MMM-FantasyTracker.js:434 | filtering a concatenation is filtering each part, so the kept pieces stay in order |
| FantasyTracker.NameWords | modules/MMM-FantasyTracker/MMM-FantasyTracker.js:434 | every word of a team name is non-empty and contains no space |
| FantasyTracker.TeamInitials | modules/MMM-FantasyTracker/MMM-FantasyTracker.js:433-441 | two or more words give the upper-cased first letters of the first two; a single word gives its first two characters upper-cased; no word gives the football emoji |
| FantasyTracker.StripDst | modules/MMM-FantasyTracker/MMM-FantasyTracker.js:445 | only a " D/ST" at the very end of a name is removed |
| FantasyTracker.ShortNameKept | modules/MMM-FantasyTracker/MMM-FantasyTracker.js:451-453 | a name of at most 13 characters after removing " D/ST" is shown whole |
| FantasyTracker.FormatPlayerName | modules/MMM-FantasyTracker/MMM-FantasyTracker.js:443-470 | a name of at most 13 characters after removing " D/ST" is shown as it is; a longer one without a space becomes its first ten characters and "..." |
| FantasyTracker.MediumNameInitial | modules/MMM-FantasyTracker/MMM-FantasyTracker.js:456-458 | a multi-word name of 14 to 18 characters becomes its first initial, ". " and everything after the first space, at most one character longer than the name |
| FantasyTracker.LongNameLastWord | modules/MMM-FantasyTracker/MMM-FantasyTracker.js:461-463 | a multi-word name over 18 characters becomes its last word, which ends the name and contains no space |
| FantasyTracker.LongSingleWordTruncated | modules/MMM-FantasyTracker/MMM-FantasyTracker.js:466-468 | a single word over 13 characters becomes its first ten characters and "...", 13 characters in all |
| FantasyTracker.SplitFirst | modules/MMM-FantasyTracker/MMM-FantasyTracker.js:448-457 | the first piece of splitting on spaces is the text before the first space, and the other pieces join back to the text after it |
| FantasyTracker.JoinEndsWithLast | modules/MMM-FantasyTracker/MMM-FantasyTracker.js:461-462 | the last piece of a split ends the joined text |
| FantasyTracker.Starters | modules/MMM-FantasyTracker/MMM-FantasyTracker.js:301-303 | the starters are exactly the players of the lineup not on the bench or injured reserve, in lineup order |
| FantasyTracker.StartersSingle | modules/MMM-FantasyTracker/MMM-FantasyTracker.js:301-303 | a single player is kept exactly when not on the bench or injured reserve |
| FantasyTracker.StartersConcat | modules/MMM-FantasyTracker/MMM-FantasyTracker.js:301-303 | the starters of a concatenation are the starters of each part, so they stay in lineup order |
| FantasyTracker.SlotRank | modules/MMM-FantasyTracker/MMM-FantasyTracker.js:306-310 | a slot in the position order ranks by its place there; any other slot ranks 999 |
| FantasyTracker.PlayerRowsOrdered | modules/MMM-FantasyTracker/MMM-FantasyTracker.js:300-314 | the rows are a permutation of the starters, sorted by slot rank, and players of equal rank keep their lineup order |
| FantasyTracker.PlayerRows | modules/MMM-FantasyTracker/MMM-FantasyTracker.js:300-314 | the rows are a permutation of the starters, sorted by slot rank |
| FantasyTracker.KnownSlotsFirst | modules/MMM-FantasyTracker/MMM-FantasyTracker.js:306-311 | a player in a known slot is rendered before every player in an unknown slot |
| FantasyTracker.PlayerStatus | modules/MMM-FantasyTracker/MMM-FantasyTracker.js:482-499 | complete exactly when the game is fully played; live exactly when not complete and the game is running or the player has points; game time otherwise |
| FantasyTracker.PlayerScore | modules/MMM-FantasyTracker/MMM-FantasyTracker.js:501-507 | actual points exactly when the game is complete or the player has points; otherwise the projection, or 0 when there is none |
| FantasyTracker.StatusAndScore | modules/MMM-FantasyTracker/MMM-FantasyTracker.js:482-507 | a player waiting for kick-off always shows a projection, a player showing actual points is never waiting, and the only live-but-projected case is a running game without points yet |
| FantasyTracker.CountsPartition | modules/MMM-FantasyTracker/MMM-FantasyTracker.js:363-374 | every starter is either in play, to play, or finished without points, and in only one of them |
| FantasyTracker.TeamStats | modules/MMM-FantasyTracker/MMM-FantasyTracker.js:357-374 | the "In Play" and "To Play" figures and the finished starters without points together count every starter once, so the two figures never exceed the number of starters |
| FantasyTracker.RoundDiv | modules/MMM-FantasyTracker/MMM-FantasyTracker.js:406 | rounding a quotient gives the integer nearest to it, halves rounding up |
| FantasyTracker.WinProbability | modules/MMM-FantasyTracker/MMM-FantasyTracker.js:403-409 | the probability is always between 5 and 95, and 50 when either projection is zero or their sum is not positive |
| FantasyTracker.FavouriteAtLeastHalf | modules/MMM-FantasyTracker/MMM-FantasyTracker.js:403-409 | the team with the larger or equal projection gets at least 50 |
| FantasyTracker.FindKey | modules/MMM-FantasyTracker/MMM-FantasyTracker.js:630-632 | the first key equal to the name ignoring case, or none when no key matches |
| FantasyTracker.TeamColorClass | modules/MMM-FantasyTracker/MMM-FantasyTracker.js:590-591 | a missing or empty team name gets no class |
| FantasyTracker.NoClassIffNoKey | modules/MMM-FantasyTracker/MMM-FantasyTracker.js:590-635 | a non-empty name gets no class exactly when no key of the table matches it ignoring case |
| FantasyTracker.ClassOfMatchingKey | modules/MMM-FantasyTracker/MMM-FantasyTracker.js:594-634 | a class given to a name is "team-" and the abbreviation stored for a key matching that name ignoring case |
| FantasyTracker.Tracker.constructor | modules/MMM-FantasyTracker/MMM-FantasyTracker.js:58-71 | without a league id or user name the module is loaded with the missing-configuration error at once; otherwise it waits without an error |
| FantasyTracker.Tracker.ProcessMatchupData | modules/MMM-FantasyTracker/MMM-FantasyTracker.js:105-115 | the matchup replaces the last one, the module is loaded and the error is cleared |
| FantasyTracker.Tracker.ProcessError | modules/MMM-FantasyTracker/MMM-FantasyTracker.js:118-122 | the error is shown and the module loaded, and the last matchup is kept |
| FantasyTracker.Tracker.SocketNotificationReceived | modules/MMM-FantasyTracker/MMM-FantasyTracker.js:39-45 | notifications for another instance change nothing; data for this instance is processed as a matchup, an error as an error |
| FantasyTracker.Tracker.ClownModeChanged | modules/MMM-FantasyTracker/MMM-FantasyTracker.js:48-55 | the clown option takes the announced value and nothing else changes |
| Espn.PostGameStatus | modules/MMM-NFLMinimal/espn.js:19-21 | a finished game is "final-overtime" exactly when its period is past the fourth, and "final" otherwise, a missing period included |
| Espn.InGameStatus | modules/MMM-NFLMinimal/espn.js:23-25 | a running game past the fourth period is "overtime"; up to the fourth it is the period number itself; a missing period stays undefined |
| Espn.GameStatus | modules/MMM-NFLMinimal/espn.js:27-37 | "pregame" before the game, "halftime" at the half, the post-game status once finished, the in-game status otherwise, with a missing status counted as empty |
| Espn.GameStatusValues | modules/MMM-NFLMinimal/espn.js:19-37 | every status is one of "pregame", "halftime", "final", "final-overtime", "overtime", a period number of at most 4, or undefined |
| Espn.TeamName | modules/MMM-NFLMinimal/espn.js:39-42 | LAR is shown as LA and WSH as WAS; every other abbreviation, or its absence, is passed through |
| Espn.FindCompetitor | modules/MMM-NFLMinimal/espn.js:48 | the competitor found is the first one whose id equals the possession id; none is found exactly when no competitor has that id |
| Espn.PossessionTeam | modules/MMM-NFLMinimal/espn.js:47-48 | the team in possession is a competitor of the game whose id is the situation's possession id |
| Espn.MapEventEntry | modules/MMM-NFLMinimal/espn.js:44-64 | the entry keeps the kick-off time, takes the game status, carries a clock exactly while the game is neither before nor after play, names the first competitor as home and the second as away with their scores, and names the team in possession |
| Espn.PossessionIsPlaying | modules/MMM-NFLMinimal/espn.js:47-57 | in a game with exactly two competitors the team in possession is the home or the away team |
| Espn.Stage | modules/MMM-NFLMinimal/espn.js:3-8 | season type 1 is PRE, 2 REG, 3 POST and 4 OFF, and no other value names a stage |
| Espn.MapEvents | modules/MMM-NFLMinimal/espn.js:83 | one entry per event, in answer order, each the mapping of that event |
| Espn.ScoresSorted | modules/MMM-NFLMinimal/espn.js:81-88 | the scores are a permutation of the mapped events, ascending by kick-off time, and entries with equal times keep their answer order |
| Espn.Scores | modules/MMM-NFLMinimal/espn.js:81-88 | the scores are a permutation of the mapped events, one per event, ascending by kick-off time |
| NflMinimal.FindTeamInScores | modules/MMM-NFLMinimal/MMM-NFLMinimal.js:55-57 | the game found is the first one the team plays in, home or away; none is found exactly when the team plays in no game |
| NflMinimal.FilterFocus | modules/MMM-NFLMinimal/MMM-NFLMinimal.js:70 | the games kept are exactly those whose home or away team is in focus |
| NflMinimal.FilterFocusSingle | modules/MMM-NFLMinimal/MMM-NFLMinimal.js:70 | a single game is kept exactly when its home or away team is in focus |
| NflMinimal.FilterFocusConcat | modules/MMM-NFLMinimal/MMM-NFLMinimal.js:70 | filtering a concatenation is filtering each part, so the kept games stay in order |
| NflMinimal.FilteredScores | modules/MMM-NFLMinimal/MMM-NFLMinimal.js:66-71 | without a focus list, or before the first scores, the scores pass unchanged; otherwise they are the games of a team in focus, in their order |
| NflMinimal.ByeTeams | modules/MMM-NFLMinimal/MMM-NFLMinimal.js:63 | the bye list holds exactly the teams in focus that play in no game, and is no longer than the focus list |
| NflMinimal.FocusedTeamsWithByeWeeks | modules/MMM-NFLMinimal/MMM-NFLMinimal.js:59-64 | without a focus list, or before the first scores, no team is on a bye; otherwise exactly the focused teams without a game are |
| NflMinimal.FocusTeamsAccounted | modules/MMM-NFLMinimal/MMM-NFLMinimal.js:59-71 | every team in focus either has a game among those shown or is on the bye list, never both |
| NflMinimal.EvenGames | modules/MMM-NFLMinimal/MMM-NFLMinimal.js:87-89 | an odd number of games loses its last game; the games kept are a prefix of the list, of even length |
| NflMinimal.Columns | modules/MMM-NFLMinimal/MMM-NFLMinimal.js:92-94 | the two columns have the same length, half the games, and together are the games in order, without the last one when their number was odd |
| NflMinimal.OutcomeAsWritten | modules/MMM-NFLMinimal/MMM-NFLMinimal.js:152-160 | as written, the home side wins exactly when the away score is less than the home score as strings, and the away side exactly when the reverse holds |
| NflMinimal.StringComparisonMisranks | modules/MMM-NFLMinimal/MMM-NFLMinimal.js:152-160 | a final of 7 (away) to 21 (home) is coloured as an away win, because "7" sorts after "21" |
| NflMinimal.ScoreValue | modules/MMM-NFLMinimal/MMM-NFLMinimal.js:142 | a score has a numeric value exactly when it is a string of digits |
| NflMinimal.Outcome | modules/MMM-NFLMinimal/MMM-NFLMinimal.js:150-161 | for numeric scores the lower score loses, the higher one wins, and equal scores tie |
| NflMinimal.SameLengthDigits | modules/MMM-NFLMinimal/MMM-NFLMinimal.js:152-160 | on two digit strings of the same length the string comparison agrees with the numeric one |
| NflMinimal.AsWrittenAgreesOnEqualWidth | modules/MMM-NFLMinimal/MMM-NFLMinimal.js:150-161 | when both scores have the same number of digits the string comparison gives the intended outcome |
| NflMinimal.DisplayHour | modules/MMM-NFLMinimal/MMM-NFLMinimal.js:259 | the kick-off hour shown is between 1 and 12 |
| NflMinimal.DisplayHourRoundTrip | modules/MMM-NFLMinimal/MMM-NFLMinimal.js:257-260 | the hour shown and the am/pm marker together give back the hour of the day |
| NflMinimal.RowFor | modules/MMM-NFLMinimal/MMM-NFLMinimal.js:121-317 | for a given outcome: both scores are hidden or both shown; a final game hides them, shows the outcome in the centre and marks the side that outcome names winning and the other losing, a tie neither; only a final game marks sides; a side has the possession dot exactly when possession is shown and it holds the ball; a live clock shows exactly for a game neither final nor pregame with a truthy clock; a kick-off shows the 12-hour hour and the pm marker |
| NflMinimal.GameRow | modules/MMM-NFLMinimal/MMM-NFLMinimal.js:150-216 | as written: in a final game the home side is marked winning exactly when the away score string sorts below the home one, the away side exactly when the home string sorts below the away one and not the reverse |
| NflMinimal.GameRowIntended | modules/MMM-NFLMinimal/MMM-NFLMinimal.js:150-216 | as intended: with two digit-string scores, the home side is marked winning exactly when the away score is lower in value, and the away side exactly when the home score is |
| NflMinimal.GameRowMisranks | modules/MMM-NFLMinimal/MMM-NFLMinimal.js:152-160 | a final of 7 to 21 is drawn with the away side winning as written and the home side winning as intended |
| NflMinimal.GameRowAgreesOnEqualWidth | modules/MMM-NFLMinimal/MMM-NFLMinimal.js:152-160 | the two rows agree whenever both scores are digit strings of the same width |
| NflMinimal.FinalClassesConsistent | modules/MMM-NFLMinimal/MMM-NFLMinimal.js:150-161 | in a final game one side is losing exactly when the other is winning, and a tie marks neither |
| NflMinimal.OneDotAtMost | modules/MMM-NFLMinimal/MMM-NFLMinimal.js:169-176 | between two different teams the possession dot is on one side at most |
| NflMinimal.Rows | modules/MMM-NFLMinimal/MMM-NFLMinimal.js:103-112 | one row per game, in order, each the row of that game |
| NflMinimal.GetDom | modules/MMM-NFLMinimal/MMM-NFLMinimal.js:75-119 | the loading text shows exactly when there are no scores; otherwise the left column holds the rows of the first half of the games in focus, rounded down, and the right column the rows of as many following games, each row drawn from its game and its kick-off hour |
| NflDivisionsGrid.StatValue | modules/MMM-NFLDivisionsGrid/MMM-NFLDivisionsGrid.js:238-240 | a stat missing from the entry counts 0; the first stat of that name, wherever it stands, gives its value, or 0 when it has none |
| NflDivisionsGrid.MapEntries | modules/MMM-NFLDivisionsGrid/MMM-NFLDivisionsGrid.js:233-242 | one processed row per API entry, in the answer's order |
| NflDivisionsGrid.MapEntry | modules/MMM-NFLDivisionsGrid/MMM-NFLDivisionsGrid.js:233-242 | a processed row copies the team's display name, short name and abbreviation and counts a missing wins, losses or ties stat as 0; it keeps a first logo exactly when the team has one |
| NflDivisionsGrid.MissingStatsAreZero | modules/MMM-NFLDivisionsGrid/MMM-NFLDivisionsGrid.js:238-240 | an entry without stats is a 0-0-0 record |
| NflDivisionsGrid.FillKeys | modules/MMM-NFLDivisionsGrid/MMM-NFLDivisionsGrid.js:226-246 | the dictionary's keys are exactly the names of the divisions of the answer |
| NflDivisionsGrid.FillLast | modules/MMM-NFLDivisionsGrid/MMM-NFLDivisionsGrid.js:231-233 | each division name holds the rows of the last division with that name, in the answer's order |
| NflDivisionsGrid.RemoveFirst | modules/MMM-NFLDivisionsGrid/MMM-NFLDivisionsGrid.js:123 | a string without the pattern is unchanged; otherwise putting the pattern back at its first position gives the string again, and the text before that position does not contain the pattern |
| NflDivisionsGrid.HeaderStripsPrefix | modules/MMM-NFLDivisionsGrid/MMM-NFLDivisionsGrid.js:123 | a division name beginning with "AFC " or "NFC " loses exactly that prefix in its header |
| NflDivisionsGrid.TeamName | modules/MMM-NFLDivisionsGrid/MMM-NFLDivisionsGrid.js:192-202 | the abbreviation, the display name, or the short name when it is present and non-empty, the display name otherwise |
| NflDivisionsGrid.LogoUrlAsWritten | modules/MMM-NFLDivisionsGrid/MMM-NFLDivisionsGrid.js:204-212 | as written: the local logo file when local logos are on, and a TypeError otherwise, because the processed rows have no team field |
| NflDivisionsGrid.RemoteLogosAlwaysThrow | modules/MMM-NFLDivisionsGrid/MMM-NFLDivisionsGrid.js:210 | with local logos off, every team's logo lookup throws |
| NflDivisionsGrid.LogoUrl | modules/MMM-NFLDivisionsGrid/MMM-NFLDivisionsGrid.js:204-212 | the local logo file when local logos are on, and the same answer as the source there; otherwise the team's first ESPN logo, and the local file when it has none |
| NflDivisionsGrid.LogoFromAnswer | modules/MMM-NFLDivisionsGrid/MMM-NFLDivisionsGrid.js:210 | with local logos off, a team's logo is the first logo of its entry in the ESPN answer |
| NflDivisionsGrid.Logo | modules/MMM-NFLDivisionsGrid/MMM-NFLDivisionsGrid.js:204-212 | the code's lookup is `LogoUrlAsWritten`; the intended one is `LogoUrl`, which never throws |
| NflDivisionsGrid.RowCells | modules/MMM-NFLDivisionsGrid/MMM-NFLDivisionsGrid.js:157-186 | a team row throws exactly when logos are shown and the lookup throws; otherwise it shows the wins and losses, and the logo exactly when logos are shown |
| NflDivisionsGrid.AllCells | modules/MMM-NFLDivisionsGrid/MMM-NFLDivisionsGrid.js:156-188 | a table's rows throw exactly when one team row throws; otherwise one row per team, in standings order |
| NflDivisionsGrid.DivisionTable | modules/MMM-NFLDivisionsGrid/MMM-NFLDivisionsGrid.js:107-190 | a table throws exactly when its rows do; otherwise the header is the division name without its conference, and the table has team rows exactly when the division has non-empty standings, the row of each team being that team's cells in standings order |
| NflDivisionsGrid.DivisionTableThrows | modules/MMM-NFLDivisionsGrid/MMM-NFLDivisionsGrid.js:156-170 | with the code's lookup a table throws exactly when logos are shown from ESPN and the division has a team |
| NflDivisionsGrid.DivisionTableIntended | modules/MMM-NFLDivisionsGrid/MMM-NFLDivisionsGrid.js:156-170 | the intended lookup never throws, and without logos, or with local logos, the code draws the same table |
| NflDivisionsGrid.AllCellsAgree | modules/MMM-NFLDivisionsGrid/MMM-NFLDivisionsGrid.js:156-188 | the intended rows never throw, and without ESPN logos both lookups give the same rows |
| NflDivisionsGrid.FillDivisions | modules/MMM-NFLDivisionsGrid/MMM-NFLDivisionsGrid.js:230-244 | after a conference's divisions the dictionary is the one filled by all divisions so far |
| NflDivisionsGrid.FillStandings | modules/MMM-NFLDivisionsGrid/MMM-NFLDivisionsGrid.js:224-249 | the dictionary is filled by the divisions of every conference in order; an answer or conference without children adds nothing |
| NflDivisionsGrid.Tables | modules/MMM-NFLDivisionsGrid/MMM-NFLDivisionsGrid.js:83-86 | the row of tables throws exactly when one configured division's table throws; otherwise one table per configured division, in configured order, each with the standings stored under its name, if any |
| NflDivisionsGrid.TablesThrow | modules/MMM-NFLDivisionsGrid/MMM-NFLDivisionsGrid.js:83-100 | with the code's lookup a row of tables throws exactly when logos are shown from ESPN and one configured division has a team; with the intended lookup it never throws |
| NflDivisionsGrid.TablesAgree | modules/MMM-NFLDivisionsGrid/MMM-NFLDivisionsGrid.js:83-100 | without ESPN logos both lookups draw the same tables |
| NflDivisionsGrid.DivisionsGrid.constructor | modules/MMM-NFLDivisionsGrid/MMM-NFLDivisionsGrid.js:31-43 | no standings, not loaded, and one standings request sent |
| NflDivisionsGrid.DivisionsGrid.GetData | modules/MMM-NFLDivisionsGrid/MMM-NFLDivisionsGrid.js:45-59 | one more standings request; only a clear-all empties the standings and resets loaded |
| NflDivisionsGrid.DivisionsGrid.ProcessStandingsData | modules/MMM-NFLDivisionsGrid/MMM-NFLDivisionsGrid.js:224-249 | the standings are replaced by the dictionary built from this answer; nothing else changes |
| NflDivisionsGrid.DivisionsGrid.StandingsDataResult | modules/MMM-NFLDivisionsGrid/MMM-NFLDivisionsGrid.js:214-222 | a result replaces the standings and marks the module loaded |
| NflDivisionsGrid.DivisionsGrid.ViewWith | modules/MMM-NFLDivisionsGrid/MMM-NFLDivisionsGrid.js:67-105 | for either lookup: loading exactly when not loaded or without standings; a thrown page exactly when a table of either conference throws; otherwise one table per configured AFC and NFC division, each the table of that division's standings |
| NflDivisionsGrid.DivisionsGrid.View | modules/MMM-NFLDivisionsGrid/MMM-NFLDivisionsGrid.js:67-105 | as written: the page of the code's lookup, so loading exactly when not loaded or without standings; the page throws exactly when logos are shown from ESPN and a configured division has a team; otherwise each configured division's table |
| NflDivisionsGrid.DivisionsGrid.IntendedView | modules/MMM-NFLDivisionsGrid/MMM-NFLDivisionsGrid.js:67-105 | as intended: never throws, and without ESPN logos is the page the code draws; a drawn page shows, for every configured division with standings, one row per team holding its wins, its losses and, with logos on, its local logo or its first ESPN logo |
| NflDivisionsGrid.IntendedTablesShowLogos | modules/MMM-NFLDivisionsGrid/MMM-NFLDivisionsGrid.js:156-170 | tables drawn with the intended lookup show each team's wins, losses and chosen logo, one row per team of the division's standings |
| NflDivisionsGrid.IntendedGridShowsLogos | modules/MMM-NFLDivisionsGrid/MMM-NFLDivisionsGrid.js:67-105 | a page drawn with the intended lookup shows, in both conferences, each team's wins, losses and chosen logo |
| AllGamesLiveHelper.MapStatus | modules/MMM-AllGamesLive/node_helper.js:25-39 | a falsy status is UPCOMING; a status starting "final" is FINAL and only such a status is; "pregame" is UPCOMING with no quarter; "halftime" and "overtime" are LIVE with HALF and OT; any other string is LIVE with no quarter; a period 1-4 is LIVE with its ordinal, any other number LIVE with the number and "TH" |
| AllGamesLiveHelper.AdapterStatuses | modules/MMM-AllGamesLive/node_helper.js:57 | every status the ESPN adapter produces maps as the grid expects: before kick-off UPCOMING, halftime HALF, after the game FINAL, a period LIVE with a quarter name |
| AllGamesLiveHelper.Pad2 | modules/MMM-AllGamesLive/node_helper.js:15 | the minutes are two digits that read back to the minutes |
| AllGamesLiveHelper.Hour12 | modules/MMM-AllGamesLive/node_helper.js:16-18 | the hour shown is between 1 and 12 |
| AllGamesLiveHelper.FormatGameTime | modules/MMM-AllGamesLive/node_helper.js:8-23 | a missing time gives the empty string, and only a missing time does |
| AllGamesLiveHelper.GameTimeRoundTrip | modules/MMM-AllGamesLive/node_helper.js:8-23 | the time ends in PM exactly from noon on; the 12-hour hour with the marker gives back the hour, and the two-digit minutes give back the minutes |
| AllGamesLiveHelper.GameTimeReadsBack | modules/MMM-AllGamesLive/node_helper.js:8-23 | the day, the 24-hour hour and the minutes are read back from the formatted kick-off time |
| AllGamesLiveHelper.HourRoundTrip | modules/MMM-AllGamesLive/node_helper.js:16-18 | the 12-hour hour and the AM/PM marker give back the hour of the day |
| AllGamesLiveHelper.MidnightAndNoon | modules/MMM-AllGamesLive/node_helper.js:16-18 | midnight is shown as 12 AM and noon as 12 PM |
| AllGamesLiveHelper.ScoreNumber | modules/MMM-AllGamesLive/node_helper.js:61-62 | a missing score is 0; a score has a value exactly when it is a string of digits, and the value is that decimal number |
| AllGamesLiveHelper.OrNull | modules/MMM-AllGamesLive/node_helper.js:69-70 | an optional text is kept exactly when it is present and not empty |
| AllGamesLiveHelper.ClockOf | modules/MMM-AllGamesLive/node_helper.js:66 | a clock is shown only when the game is on and the clock is not empty |
| AllGamesLiveHelper.MapGame | modules/MMM-AllGamesLive/node_helper.js:56-73 | the status and quarter are those of the mapped status; a kick-off time is shown exactly for an upcoming game; the scores are the numeric scores; red zone only when the entry says so |
| AllGamesLiveHelper.UpcomingHasTime | modules/MMM-AllGamesLive/node_helper.js:68 | an upcoming game always shows a non-empty kick-off time, and a game not in progress has no clock |
| AllGamesLiveHelper.MapGames | modules/MMM-AllGamesLive/node_helper.js:56 | one game per score entry, in order |
| AllGamesLiveHelper.Cycle | modules/MMM-AllGamesLive/node_helper.js:93 | as many rows as asked for |
| AllGamesLiveHelper.CycleCovers | modules/MMM-AllGamesLive/node_helper.js:93 | row i is sample i modulo the number of samples; every row is a sample, and with enough rows every sample appears |
| AllGamesLiveHelper.DevMixed | modules/MMM-AllGamesLive/node_helper.js:80-95 | the preview holds sixteen rows |
| AllGamesLiveHelper.Helper.constructor | modules/MMM-AllGamesLive/node_helper.js:42-47 | preview mode is off and nothing has been sent |
| AllGamesLiveHelper.Helper.FetchAndBroadcast | modules/MMM-AllGamesLive/node_helper.js:53-78 | a successful fetch sends the mapped games, and missing scores an empty list; a failed fetch sends nothing; preview mode is unchanged |
| AllGamesLiveHelper.Helper.SocketNotificationReceived | modules/MMM-AllGamesLive/node_helper.js:97-107 | a config sets preview mode exactly when devPreview is true; a games request sends the preview rows in preview mode and fetches otherwise |
| MyScoreboardHelper.GetDirectoryTree | modules/MMM-MyScoreboard/node_helper.js:44-62 | the loop over a directory's entries builds the tree the recursive reading defines |
| MyScoreboardHelper.TreeIsPruned | modules/MMM-MyScoreboard/node_helper.js:48-59 | every node of the tree is a logo file or a directory with at least one node below it |
| MyScoreboardHelper.TreeKeepsLogos | modules/MMM-MyScoreboard/node_helper.js:50-52 | every .svg or .png entry of the directory is in the tree as a file, and every node names an entry of the directory |
| MyScoreboardHelper.LogoNamedDirectoryIsLeaf | modules/MMM-MyScoreboard/node_helper.js:50-53 | an entry whose name ends in .svg or .png is a file node even when it is a directory |
| MyScoreboardHelper.EmptyDirectoryDropped | modules/MMM-MyScoreboard/node_helper.js:55-57 | a directory not named like a logo is left out exactly when nothing below it is kept, and is otherwise a branch holding its own tree |
| MyScoreboardHelper.TreeConcat | modules/MMM-MyScoreboard/node_helper.js:48-59 | the tree of a listing is the trees of its parts in order |
| MyScoreboardHelper.Tree | modules/MMM-MyScoreboard/node_helper.js:44-62 | a listing yields at most one node per entry |
| MyScoreboardHelper.Names | modules/MMM-MyScoreboard/node_helper.js:24-26 | the file list holds the names of a league's nodes, in order |
| MyScoreboardHelper.LogoMapKeys | modules/MMM-MyScoreboard/node_helper.js:21-29 | the leagues with logo lists are exactly the directory nodes of the tree |
| MyScoreboardHelper.LogoMap | modules/MMM-MyScoreboard/node_helper.js:20-29 | every league with a logo list names a directory node of the tree |
| MyScoreboardHelper.LogoMapValue | modules/MMM-MyScoreboard/node_helper.js:21-29 | each league lists the names of the last directory node of that name, in order |
| MyScoreboardHelper.BuildLogoMap | modules/MMM-MyScoreboard/node_helper.js:21-29 | the loop over the tree builds the league-to-files dictionary the definition gives |
| MyScoreboardHelper.ProviderFor | modules/MMM-MyScoreboard/node_helper.js:14-17 | a provider is found exactly when its name is one of the four registered |
| MyScoreboardHelper.YesterdayProvider | modules/MMM-MyScoreboard/node_helper.js:77-81 | SNET's yesterday is served by SNET_YD; any other provider serves its own yesterday |
| MyScoreboardHelper.NotRunWithoutToday | modules/MMM-MyScoreboard/node_helper.js:96-98 | without today the first event is the update with no scores, notRun and sort index 999, and it is the only such update |
| MyScoreboardHelper.GetScores | modules/MMM-MyScoreboard/node_helper.js:64-120 | at least one event; a throw is the last event; without today the first event is the not-run update; when today's provider is missing only the throw happens; without yesterday there is exactly one event |
| MyScoreboardHelper.TodayRequest | modules/MMM-MyScoreboard/node_helper.js:83-95 | today's scores are asked of the named provider for the game date, by week from that date in weekly NFL mode |
| MyScoreboardHelper.YesterdayRequest | modules/MMM-MyScoreboard/node_helper.js:99-111 | yesterday's scores are asked for the day before, or the week before in weekly NFL mode, of SNET_YD for SNET |
| MyScoreboardHelper.UnknownProviderThrows | modules/MMM-MyScoreboard/node_helper.js:77-91 | asking an unregistered provider for today's scores throws before anything else happens |
| MyScoreboardHelper.WeekAggregation.constructor | modules/MMM-MyScoreboard/node_helper.js:122-143 | seven day requests, day by day from the game date or from a week before it; nothing collected, nothing delivered |
| MyScoreboardHelper.WeekAggregation.DayAnswered | modules/MMM-MyScoreboard/node_helper.js:144-161 | each answer is recorded; nothing is delivered before the seventh, and the seventh delivers once all collected games, sorted by kick-off, with the sort index |
| MyScoreboardHelper.DeliveredScores | modules/MMM-MyScoreboard/node_helper.js:153-159 | the games delivered are a permutation of those collected, ordered by kick-off, with games of the same kick-off in arrival order |
| MyScoreboardHelper.CollectedGames | modules/MMM-MyScoreboard/node_helper.js:145-147 | a game is collected exactly when one of the answers holds it |
| MyScoreboardHelper.Helper.constructor | modules/MMM-MyScoreboard/node_helper.js:11-42 | the logo and custom-logo lists are the dictionaries built from the two directories |
| MyScoreboardHelper.Helper.LocalLogoList | modules/MMM-MyScoreboard/node_helper.js:117-119 | the reply carries both logo lists as built at start |

## Left out

- DOM markup, CSS, animation timing and `updateDom` calls. Rendering is modelled only where a module decides what to show: which rows, texts, classes and fields appear.
- Network, MQTT, Express, child processes and shell probes: `fetch` and ESPN's API, MMM-ClownModeHelper's HTTP server (`START_SERVER`), the MQTT client of MMM-WakeWordIndicator, and the node helpers of MMM-FantasyTracker and MMM-SimpleStats. Their answers are parameters of the handlers.
- Wall-clock scheduling. `setTimeout` and `setInterval` are explicit timers whose expiry is a method call. The periodic refresh intervals of MMM-JokesAndFacts, MMM-CompactNews, MMM-NFLDivisionsGrid and MMM-AllGamesLive are represented by calling the method they run.
- The MutationObserver that MMM-Lastfm-Scenes attaches, and its retry. The presence of album art is a parameter of `CheckPlayback`.
- `Date`, time zones and locale formatting. Dates and kick-off times are integers, or already broken down into weekday, hour and minute. FantasyTracker `formatGameTime`, `findPrimaryPlayer` and `formatSlotPosition` are display helpers of the same kind and are not modelled.
- File-system reads and image encoding: `fs.stat`, `fs.readFile`, `readdirSync`, the cover art and the random default cover. A file is a `FileState` value, and a directory listing is a sequence of entries.
- JSON parsing. Payloads arrive as datatypes, with `Option` for fields that may be missing.
- Unicode case mapping. Case-insensitive comparisons fold ASCII letters only, and FantasyTracker.TeamInitials upper-cases ASCII letters only, where `toUpperCase` maps every letter ("über" gives "Ü").
- Configuration-only notifications: the `CONFIG` of MMM-SimpleStats, `SUSPEND`/`RESUME` of MMM-NFLMinimal, `INIT_MQTT` of MMM-WakeWordIndicator, and the `GET_FANTASY_DATA` requests with their timers in MMM-FantasyTracker.
- Team logos and weekday names of MMM-NFLMinimal. The kick-off hour is the `hourOf` parameter.
- The `stop()` of MMM-UxPlayScenes's node helper, which clears the handle but not the second, leaked interval (see Findings). UxPlayNowPlayingHelper's `Stop` is modelled.
- The order in which the asynchronous cover-art read completes in MMM-UxPlayNowPlaying. The track update is modelled as sent when it is parsed.
- The helpers and presentation-only files that contain no logic of the core: MMM-EaglesScoreboard, MMM-FantasyStandings, MMM-GestureHandler, MMM-CalendarExt2, and the bar layout of MMM-AllGamesLive's front end.
- WakeWordIndicator.NextDelay: the milliseconds per word are a natural-number parameter. The source computes them in floating point as (60 / wordsPerMinute) × 1000.
- FantasyTracker.WinProbability: points are integers in a fixed unit. `toFixed` and the floating-point rounding of the source are not modelled, so the bounds hold for the rounded value.
- FantasyTracker.PlayerScore: shows points as integers, without the one-decimal `toFixed` formatting.
- CompactNewsHelper.NewestFirst: an unparsable date sorts as 0 (1970). In the source its comparator returns NaN, which leaves the order of such items to the engine.
- CompactNewsHelper.ExtractContent: the regular expression's `.` not matching line terminators is modelled for the CDATA pattern only. The element pattern `[\s\S]*?` matches everything, as written.
- CompactNewsHelper.SocketNotificationReceived: the error reply carries no message. The source sends the engine's text of the exception, which the front end does not display.
- String lengths and indices. Strings are sequences of characters, while JavaScript's `length`, indexing and `substring` count UTF-16 code units. A character outside the Basic Multilingual Plane counts twice in the source. This affects the 13- and 10-character limits of FantasyTracker.FormatPlayerName, the initials of FantasyTracker.TeamInitials and the headline limit of CompactNews.Truncate.
- AllGamesLiveHelper.ScoreNumber: only strings of decimal digits are read. JavaScript's `Number` also accepts surrounding blanks, a sign, decimals and exponents; such scores are outside the model.
- AllGamesLiveHelper.DevMixed: the red-zone flag of every sample is false. The source's samples leave it undefined on all but one row, which the front end reads as false.
- The logo URLs of MMM-AllGamesLive's development samples. `AllGamesLiveHelper.DevSamples` keeps the teams, scores and statuses of the samples and leaves every logo URL blank, since no logic reads them. It also drops the samples' `awayRecord` and `homeRecord`, which the front end draws in place of the scores of an upcoming game (MMM-AllGamesLive.js:104-105); the model's games carry no record field, so that line of the page is not modelled.
- The Python scripts that wrap the `espn_api` library are not part of this model.

## Findings

| source | as written | input that shows it | evidently intended | confidence | as-written member | corrected member |
|---|---|---|---|---|---|---|
| modules/MMM-UxPlayScenes/node_helper.js:33-39 | when the first `checkFile` finds a track, `adjustPollingRate` arms an interval, and `startMonitoring` then arms a second one over the same handle | a metadata file with a valid track, modified after start-up, present when monitoring starts with a non-zero interval | exactly one polling interval is scheduled, and the handle refers to it | not executed | UxPlayScenesHelper.StartMonitoringLeaksInterval | UxPlayScenesHelper.Helper.StartMonitoringSingleTimer |
| modules/MMM-NFLMinimal/MMM-NFLMinimal.js:152-160 | the final scores are compared as strings with `<` | away "7", home "21": "21" < "7", so the away side is coloured as the winner | the scores are compared as numbers, so the home side wins 21 to 7 | not executed | NflMinimal.GameRowMisranks | NflMinimal.GameRowIntended |
| modules/MMM-NFLDivisionsGrid/MMM-NFLDivisionsGrid.js:204-212 | with `useLocalLogos` off, the logo is read from `team.team.logos[0]`, but the rows built by `processStandingsData` have no `team` field | any standings with `useLocalLogos: false` and `showLogos: true`: the first row throws a TypeError | the team's first ESPN logo, kept when the row is built | not executed | NflDivisionsGrid.DivisionTableThrows | NflDivisionsGrid.DivisionsGrid.IntendedView |
