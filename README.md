# New Media TV launch page — a Dafny model of its controller

The launch page shows a countdown to a fixed launch instant, 2025-10-18 11:00 at UTC+01:00. It also shows a
stream-status indicator, a live player with keyboard shortcuts, and an area for error messages. Everything the
page does is driven by one controller class, `NewMediaTVLaunch` in `script.js`. This project models the
time-driven core of that class, and the small state updates around it, with times as integer milliseconds:

- `time.dfy` (module `Time`) holds the units of time in milliseconds that the other modules share.
- `status.dfy` (module `Status`) models `checkStreamStatus` as a pure classification of an instant against the
  launch instant. It also gives the label text and colour `setStreamStatus` writes for each status.
- `countdown.dfy` (module `Countdown`) models `updateCountdown`'s arithmetic. A positive difference is split into
  days, hours, minutes and seconds. `String(n)` gives the decimal text of a number, `padStart(2, '0')` pads it,
  and the four padded fields make up the display.
- `celebration.dfy` (module `Celebration`) models the closure counter of `launchSequence`'s celebration interval:
  each firing either announces the count or hands off.
- `video_info.dfy` (module `VideoInfo`) models the children of `.video-info`, where `showErrorMessage` keeps its
  single message. The delayed removal takes out one element by identity.
- `timers.dfy` (module `Timers`) models the browser's timer facility as a table of registered callbacks. Handles
  are handed out in increasing order, and `clearInterval(null)` cancels nothing. The module also states the table
  consistency the controller keeps.
- `launch.dfy` (module `Launch`) is the controller itself, a class whose methods change its fields in place:
  - the methods modelled are `init`, `initVideoPlayer`, `showErrorMessage` and its removal timeout,
    `initCountdown`, `updateCountdown`, `launchSequence`, `postLaunchTransition`, `checkStreamStatus`,
    `setStreamStatus`, `playVideo`, `toggleMute`, the keydown handler and `handleResize`;
  - each `Fire…` method is one firing of one registered interval or timeout;
  - the current time and the outcome of `video.play()` are parameters.
- `scenarios.dfy` (module `LaunchScenarios`) builds controllers and drives them through whole runs: a load before
  the launch, a load after it, two failed plays, the keyboard and the resize boundary.

Ghost counters record how often `launchSequence` and `postLaunchTransition` have run. The class invariant
`Valid` ties them to the countdown interval. `initCountdown` calls `updateCountdown` before it stores the
interval handle (`script.js:200-201`), so a page loaded at or after the launch instant runs `launchSequence`
twice:

1. The first run comes from that direct call. Its `clearInterval(null)` cancels nothing.
2. The second run comes from the interval's first firing, which does cancel the interval.

Two celebration intervals then run side by side. The model reproduces this; `LaunchScenarios.LoadAfterLaunch`
exhibits it, and `LaunchBound` bounds it at two. One might expect the launch sequence to run exactly once;
the code runs it twice when the page is loaded at or after the launch, and the model follows the code.

## Model

| member | source | states |
|---|---|---|
| Status.StatusAt | script.js:295-307 | live exactly from the launch to one hour after it, both ends included; starting soon exactly in the hour before it; offline exactly outside both windows, so the three windows partition the timeline |
| Status.StatusFollowsPhase | script.js:295-307 | along the timeline the status goes offline, starting soon, live, offline, and never back |
| Status.BoundaryInstants | script.js:297-303 | the instants one hour before, at, and one hour after the launch fall on the stated sides of each comparison |
| Status.Label | script.js:316-326 | every status writes a non-empty label text: "🔴 LIVE NOW", "Stream Starting Soon" or "Stream Offline"; `LabelRoundTrip` shows the three differ |
| Status.Color | script.js:316-326 | every status's label colour is a six-digit CSS hex colour (#4ade80, #f59e0b, #a0a0b8) |
| Status.StatusOfLabel | script.js:309-330 | reading a status back from the label text gives a status whose label is that text |
| Status.LabelRoundTrip | script.js:309-330 | each status's label reads back as that status, so distinct statuses show distinct texts |
| Countdown.Split | script.js:216-219 | hours ≤ 23, minutes ≤ 59 and seconds ≤ 59, and the value's milliseconds d satisfy d ≤ difference < d + 1000 |
| Countdown.SplitUnique | script.js:216-219 | the split is the only clock-range value within the same second as the difference, so no field is off by one |
| Countdown.OneDay | script.js:216-219 | a difference of exactly 86,400,000 ms splits into one day, zero hours, zero minutes and zero seconds |
| Countdown.DecimalString | script.js:221-224 | String(n) of a count is a non-empty run of decimal digits |
| Countdown.DecimalStringFacts | script.js:221-224 | String(n) is a non-empty digit string with no leading zero that reads back as n; it has one digit exactly when n < 10, two exactly when 10 ≤ n < 100, and three or more exactly when n ≥ 100 |
| Countdown.PadStart2 | script.js:221-224 | strings of two or more characters are returned unchanged; shorter ones become exactly two characters, zeros in front of the original |
| Countdown.Field | script.js:221-224 | a padded field is at least two characters long and all digits |
| Countdown.FieldRoundTrip | script.js:221-224 | a padded field is all digits and reads back as its value; a value up to 99 shows exactly two digits; a value of 100 or more shows String(n) unchanged, untruncated |
| Countdown.Render | script.js:216-224 | each of the four fields of the display is at least two characters long and all digits |
| Countdown.RenderReadsBack | script.js:216-224 | hours, minutes and seconds show two digits and days at least two; reading the four fields back gives the split exactly |
| Countdown.OneDayDisplay | script.js:216-224 | one day before the launch the display reads 01, 00, 00, 00 |
| Celebration.Step | script.js:238-245 | a firing hands off exactly when the counter is zero; otherwise it announces the counter and decrements it, so the counter never goes below zero |
| Celebration.Ticks | script.js:236-246 | k firings of an interval with counter c have at most k effects and at most c + 1, as the hand-off ends the interval |
| Celebration.TicksShape | script.js:236-246 | however long the interval runs, a counter c announces c, c−1, …, 1 in order, then hands off once, then nothing |
| Celebration.TicksBeforeHandOff | script.js:236-246 | the first k ≤ c firings are all announcements, counting down from c |
| Celebration.LaunchCelebration | script.js:236-246 | from five, six or more firings produce 5, 4, 3, 2, 1 and then the hand-off |
| Celebration.Title | script.js:239 | the title is the rocket and "LAUNCHING IN ", then a run of digits that reads back as the count, then "... " and the rocket; distinct counts therefore give distinct titles |
| Celebration.TitlesDistinct | script.js:239 | distinct counts give distinct titles |
| VideoInfo.RemoveFirstError | script.js:184-187 | the area loses exactly one child when it holds a message and none otherwise |
| VideoInfo.RemoveFirstErrorSpec | script.js:183-187 | removing the first `.error-message` drops the first message only; the other children keep their order |
| VideoInfo.FirstError | script.js:184 | where there is a message, the position found holds a message and no earlier child does |
| VideoInfo.RemoveFirstErrorNone | script.js:184-187 | without a message the area is unchanged |
| VideoInfo.RemoveFirstErrorExact | script.js:184-187 | with a message, exactly the child at the first message's position is cut out; the children before and after it are kept as they were |
| VideoInfo.WithMessage | script.js:183-189 | showing a message grows the area by one child when it held no message, and keeps its size when one was replaced |
| VideoInfo.ShowLeavesOne | script.js:183-189 | with at most one message before, exactly the new message remains after, and no other child changes |
| VideoInfo.WithoutKeeps | script.js:192-196 | leaving out one identity keeps exactly the messages of other identities and never adds one |
| VideoInfo.Detach | script.js:194 | removing an element never adds a child |
| VideoInfo.DetachSpec | script.js:192-196 | removing an element takes out that element's message and nothing else, in order, and leaves the other children |
| VideoInfo.DetachRemoves | script.js:192-196 | after the removal the element is not attached; if it was not attached nothing changes |
| VideoInfo.DetachReplaced | script.js:192-196 | the removal of a message that has since been replaced leaves the replacement in place |
| VideoInfo.DetachCurrent | script.js:192-196 | the removal of the message still shown leaves no message |
| Timers.ClearCountdown | script.js:233 | clearing the stored countdown handle unregisters the countdown and keeps the table consistent |
| Timers.RetireOrRecount | script.js:241-243 | a celebration interval that is cleared, or whose counter changes, keeps the table consistent |
| Launch.NewMediaTVLaunch.LaunchBound | script.js:199-247 | the launch sequence runs at most twice, and at most once for a page loaded before the launch; once every run has handed off, no celebration interval is left |
| Launch.NewMediaTVLaunch.constructor | script.js:3-10 | no engine, no countdown interval, the launch instant 1,760,781,600,000 ms, the page's mute flag and children |
| Launch.NewMediaTVLaunch.Init | script.js:12-20 | after init the invariant holds, the engine is configured as probed, an unsupported platform's children are exactly the old ones with the fallback message appended last (any earlier message removed), the status matches the clock, the countdown shows the time left before the launch and is left untouched at or after it, and the timer table is exactly the old one plus, in order of handles, the fallback message's removal (unsupported platform only), the celebration (launch already reached only), the countdown interval and the status poll |
| Launch.NewMediaTVLaunch.InitVideoPlayer | script.js:36-71 | the engine gets worker, low-latency and 90 s back buffer; a platform that cannot play the stream gets the fallback message appended as the last child, any earlier message removed, and its removal timer (script.js:161-166), and only then are a handle and an element identity used up |
| Launch.NewMediaTVLaunch.StartCountdownAndStatus | script.js:14-19 | the countdown starts as in `InitCountdown`, its display unchanged when the launch is already reached; the status then matches the clock; the timer table gains exactly the celebration (launch reached only), the countdown interval and the poll, under consecutive fresh handles |
| Launch.NewMediaTVLaunch.StartStatus | script.js:15-19 | the status matches the clock, and the thirty-second poll is registered under a fresh handle |
| Launch.NewMediaTVLaunch.SetStreamStatus | script.js:309-330 | the indicator is lit exactly for live; the label takes that status's text and colour and reads back as it; nothing else changes |
| Launch.NewMediaTVLaunch.CheckStreamStatus | script.js:295-307 | the indicator is lit exactly when launch ≤ now ≤ launch + 1 h, and the label is the clock's status |
| Launch.NewMediaTVLaunch.ShowErrorMessage | script.js:168-197 | the area holds exactly the new message, other children are unchanged, and its removal is registered for its own element |
| Launch.NewMediaTVLaunch.FireErrorRemoval | script.js:192-196 | the timeout removes only its own element, only if still attached, and unregisters itself |
| Launch.NewMediaTVLaunch.RemoveIfAttached | script.js:193-195 | the element is no longer attached; the area is unchanged when it was not; only that element's message goes, and the other children stay |
| Launch.NewMediaTVLaunch.InitCountdown | script.js:199-204 | one update first, then the interval is stored; a launch already reached registers a celebration before the countdown interval |
| Launch.NewMediaTVLaunch.UpdateCountdown | script.js:206-225 | before the launch the display is the rendering of the time left and nothing else changes; at or after it no field is written and the launch sequence runs |
| Launch.NewMediaTVLaunch.LaunchSequence | script.js:227-247 | the stored countdown interval is cancelled, and one celebration interval with counter five is registered |
| Launch.NewMediaTVLaunch.FireCountdown | script.js:201-203 | one firing of the countdown interval is one update; before the launch no timer or handle changes, and a launch reached cancels this very interval and registers one celebration |
| Launch.NewMediaTVLaunch.FireCelebration | script.js:237-246 | a positive counter is announced in the title and decremented; at zero the interval clears itself and the stream is marked live |
| Launch.NewMediaTVLaunch.PostLaunchTransition | script.js:249-256 | the status is set to live whatever the clock says |
| Launch.NewMediaTVLaunch.FireStatusPoll | script.js:19 | the poll shows the clock's status again, even after the forced live status |
| Launch.NewMediaTVLaunch.PlayVideo | script.js:132-147 | a successful play leaves the video playing and unmuted and changes nothing else; a failed one appends the failure message as the last child, removing any earlier message, keeps the other children and registers its removal (script.js:168-197) |
| Launch.NewMediaTVLaunch.ToggleMute | script.js:403-405 | the mute flag is negated |
| Launch.NewMediaTVLaunch.KeyDown | script.js:334-353 | Space plays a paused video, unmuted and with no timer or element added when the play succeeds, and pauses a playing one; a failed play appends the failure message as the last child, removing any earlier message, keeps the other children and registers its removal; M toggles mute; neither reacts inside an INPUT, and no other key changes anything |
| Launch.NewMediaTVLaunch.HandleResize | script.js:407-421 | with the engine, widths up to 768 get 30/60 s buffers and wider ones 60/120 s, nothing else changes; without it nothing happens |
| LaunchScenarios.LaunchFromCountdown | script.js:199-256 | a page loaded before the launch shows the titles 5, 4, 3, 2, 1, is then forced live, and keeps no launch interval; a poll more than an hour after the launch shows offline (script.js:19) |
| LaunchScenarios.LoadAfterLaunch | script.js:199-204 | a page loaded at or after the launch has one celebration after init and two after the countdown's first firing |
| LaunchScenarios.ReplacedErrorMessage | script.js:168-197 | a second failure replaces the first message; the first removal then leaves it, the second empties the area, and the other children stay |
| LaunchScenarios.SpaceAndMute | script.js:334-353 | Space plays unmuted and then pauses; Space in an INPUT does nothing; M twice restores the mute flag |
| LaunchScenarios.ResizeAtBoundary | script.js:407-421 | 768 pixels gets 30/60, 769 gets 60/120, and a resize without the engine changes nothing |

## Left out

- The streaming engine itself is not modelled: `new Hls`, `loadSource`, `attachMedia`, `startLoad`, `destroy`
  and its manifest and error events. Only the configuration fields the controller sets or changes are kept, with
  the engine's default buffer lengths given as data.
- `video.play()` resolves asynchronously. `PlayVideo` takes its outcome as a boolean and applies it at once.
  `attemptAutoplay`, its delayed unmute and `handleVideoError`, which only run from engine or media events, are
  not modelled.
- Reading the clock (`new Date()`) is not modelled: the current instant is a parameter of each firing and of
  `Init`. Parsing the launch-date string is replaced by its value in milliseconds.
- Launch.NewMediaTVLaunch.Init: one instant stands for both clock reads of the load, the countdown's
  (`script.js:207`) and the status check's (`script.js:296`); on the real page they may differ by a few
  milliseconds.
- The timer delays (1000 ms for the countdown and the celebration, 10000 ms for the error removal, 30000 ms for
  the status poll) are not modelled. Registered timers may fire in any order, and the instant passed to one
  firing is not tied to the instant of the next.
- Launch.NewMediaTVLaunch.constructor: the video is taken to start paused, and the `.video-info` children given
  at load hold at most one error message.
- `querySelector('.error-message')` (`script.js:184`) searches all descendants of `.video-info`; the model's
  children are its direct children only, and an error message nested deeper is not modelled.
- Launch.NewMediaTVLaunch.constructor: the constructor's closing call of `init` is the separate method `Init`,
  which a caller runs right after construction.
- Launch.NewMediaTVLaunch.FireCelebration: the title's pulse animation is not modelled.
- The fade, scroll and hide timeouts in `postLaunchTransition` are purely presentational and are not modelled.
  The same goes for the loading spinner, the overlay, the play-button markup and every CSS string.
- The keydown handler's F key (fullscreen) is not modelled, nor are the touch long-press, the visibility,
  online/offline and `beforeunload` handlers, and `cleanup`. These are platform event plumbing.
- `trackEngagement` and all console output are not modelled.
- The native player's `video.src` and `poster` assignments are not modelled.
- The text the countdown elements and the title carry in the page's HTML before the first update is not
  modelled: the model starts them empty.
- Launch.NewMediaTVLaunch.UpdateCountdown: its contract gives the display as `Countdown.Render` of the
  difference. The properties of that rendering are the lemmas `Countdown.RenderReadsBack` and
  `Countdown.FieldRoundTrip`, kept out of the method's contract so that the method's proof stays small.
