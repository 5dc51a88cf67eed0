/** The page controller NewMediaTVLaunch: the countdown and launch sequencer,
    the status indicator, the error-message area and the playback settings it
    changes in place. The browser's timer facility is modelled as a table of
    registered callbacks; each Fire method is one firing of one registered
    callback, and the current time is a parameter of the firings that read
    the clock. */
module Launch {
  import opened Optional
  import Status
  import Time
  import Countdown
  import Celebration
  import VideoInfo
  import opened Timers

  /** The streaming engine's configuration, as far as the controller sets it. */
  datatype EngineConfig = EngineConfig(enableWorker: bool, lowLatencyMode: bool, backBufferLength: nat,
                                       maxBufferLength: nat, maxMaxBufferLength: nat)

  /** How the platform plays the stream, probed once at start-up: through the
      streaming engine (with the engine's default buffer lengths), natively,
      or not at all. */
  datatype Playback = Engine(defaultMaxBuffer: nat, defaultMaxMaxBuffer: nat) | Native | Unsupported

  /** The launch instant, 2025-10-18 11:00 at UTC+01:00, in milliseconds
      since the epoch. */
  const LAUNCH_DATE: int := 1760781600000

  /** Widths up to and including this one count as mobile. */
  const MOBILE_MAX_WIDTH: int := 768

  const FALLBACK_MESSAGE: string := "Your browser may not support live streaming. Please try a modern browser."
  const PLAY_FAILED_MESSAGE: string := "Unable to play stream. Please try again."

  /** The timer table after init registers its intervals from handle n on: a
      celebration first when the launch is already reached, then the
      countdown interval, then the status poll. */
  function StartedTimers(t: map<TimerId, Timer>, n: TimerId, reached: bool): map<TimerId, Timer>
  {
    if reached then t[n := CelebrationTimer(Celebration.START_COUNT)][n + 1 := CountdownTimer][n + 2 := StatusPollTimer]
    else t[n := CountdownTimer][n + 1 := StatusPollTimer]
  }

  class NewMediaTVLaunch {
    const launchDate: int
    /** Whether init ran at or after the launch instant. */
    ghost var launchedAtLoad: bool

    // The browser's timers as far as this page registers them.
    var timers: map<TimerId, Timer>
    var nextTimerId: TimerId
    var countdownInterval: Option<TimerId>

    // #status-indicator and #status-text.
    var indicatorLive: bool
    var statusText: string
    var statusColor: string

    // The texts of #days, #hours, #minutes and #seconds, and of .countdown-title.
    var shown: Countdown.Display
    var titleText: string

    // The children of .video-info; identities for newly created elements.
    var videoInfo: seq<VideoInfo.Node>
    var nextElementId: nat

    // this.hls (its configuration) and the video element's state.
    var hls: Option<EngineConfig>
    var muted: bool
    var paused: bool

    // How many times launchSequence and postLaunchTransition have run, and
    // which registered timers are celebration intervals.
    ghost var launchSequences: nat
    ghost var handOffs: nat
    ghost var celebrationIds: set<TimerId>

    /** The countdown interval is registered and not yet cleared. */
    predicate CountdownActive()
      reads this`countdownInterval, this`timers
    {
      countdownInterval.Some? && countdownInterval.value in timers
    }

    /** The consistency of the timer table, the celebration bookkeeping and
        the error-message area, true from start-up on. */
    ghost predicate Wf()
      reads this`timers, this`nextTimerId, this`countdownInterval, this`celebrationIds,
            this`handOffs, this`launchSequences, this`videoInfo
    {
      && TableOk(timers, nextTimerId, countdownInterval, celebrationIds)
      && handOffs + |celebrationIds| == launchSequences
      && |VideoInfo.Errors(videoInfo)| <= 1
    }

    /** The object invariant once initCountdown has stored its interval: the
        launch sequence has run once for a load at or after the launch, and
        once more when the countdown interval was cleared by it. */
    ghost predicate Valid()
      reads this`timers, this`nextTimerId, this`countdownInterval, this`celebrationIds,
            this`handOffs, this`launchSequences, this`videoInfo, this`launchedAtLoad
    {
      && Wf()
      && countdownInterval.Some?
      && launchSequences == (if launchedAtLoad then 1 else 0) + (if CountdownActive() then 0 else 1)
    }

    /** The launch sequence runs at most twice, and at most once for a page
        loaded before the launch; every hand-off closes one celebration. */
    lemma LaunchBound()
      requires Valid()
      ensures handOffs <= launchSequences <= 2
      ensures !launchedAtLoad ==> launchSequences <= 1
      ensures handOffs == launchSequences ==> celebrationIds == {}
    {
    }

    /** The constructor's own assignments: no engine, no countdown interval,
        the fixed launch instant. The video element's muted state and the
        children of .video-info are what the page was loaded with. */
    constructor (startMuted: bool, info: seq<VideoInfo.Node>)
      requires |VideoInfo.Errors(info)| <= 1
      ensures Wf() && countdownInterval.None? && launchSequences == 0 && handOffs == 0
      ensures launchDate == LAUNCH_DATE && hls.None? && muted == startMuted && paused
      ensures videoInfo == info && timers == map[]
    {
      launchDate := LAUNCH_DATE;
      timers := map[];
      nextTimerId := 1;
      countdownInterval := None;
      indicatorLive, statusText, statusColor := false, "", "";
      shown, titleText := Countdown.Display("", "", "", ""), "";
      videoInfo := info;
      nextElementId := 0;
      hls := None;
      muted := startMuted;
      paused := true;
      launchedAtLoad := false;
      launchSequences, handOffs, celebrationIds := 0, 0, {};
    }

    /** init, which the constructor ends with: probe playback, start the
        countdown, show the status and register the thirty-second status
        poll. */
    method Init(now: int, playback: Playback) returns (poll: TimerId)
      requires Wf() && countdownInterval.None? && launchSequences == 0 && handOffs == 0
      modifies this`hls, this`videoInfo, this`nextElementId, this`launchedAtLoad,
               this`shown, this`timers, this`nextTimerId, this`countdownInterval,
               this`celebrationIds, this`launchSequences,
               this`indicatorLive, this`statusText, this`statusColor
      ensures Valid() && launchedAtLoad == (launchDate - now <= 0)
      ensures hls == (if playback.Engine? then Some(EngineConfig(true, true, 90, playback.defaultMaxBuffer, playback.defaultMaxMaxBuffer)) else old(hls))
      ensures playback.Unsupported? ==>
                && videoInfo == VideoInfo.WithMessage(old(videoInfo), old(nextElementId), FALLBACK_MESSAGE)
                && VideoInfo.Errors(videoInfo) == [VideoInfo.Message(old(nextElementId), FALLBACK_MESSAGE)]
      ensures !playback.Unsupported? ==> videoInfo == old(videoInfo)
      ensures VideoInfo.Others(videoInfo) == VideoInfo.Others(old(videoInfo))
      ensures indicatorLive == (Status.StatusAt(now, launchDate) == Status.Live)
      ensures statusText == Status.Label(Status.StatusAt(now, launchDate))
      ensures statusColor == Status.Color(Status.StatusAt(now, launchDate))
      ensures launchDate - now > 0 ==> shown == Countdown.Render(launchDate - now)
      ensures launchDate - now <= 0 ==> shown == old(shown)
      ensures launchSequences == (if launchDate - now <= 0 then 1 else 0) && CountdownActive()
      ensures nextElementId == old(nextElementId) + (if playback.Unsupported? then 1 else 0)
      ensures playback.Unsupported? ==>
                && timers == StartedTimers(old(timers)[old(nextTimerId) := ErrorRemovalTimer(old(nextElementId))],
                                           old(nextTimerId) + 1, launchDate - now <= 0)
                && poll == old(nextTimerId) + (if launchDate - now <= 0 then 3 else 2)
      ensures !playback.Unsupported? ==>
                && timers == StartedTimers(old(timers), old(nextTimerId), launchDate - now <= 0)
                && poll == old(nextTimerId) + (if launchDate - now <= 0 then 2 else 1)
      ensures nextTimerId == poll + 1
      ensures poll in timers && timers[poll] == StatusPollTimer
    {
      launchedAtLoad := launchDate - now <= 0;
      InitVideoPlayer(playback);
      poll := StartCountdownAndStatus(now);
    }

    /** initVideoPlayer, as far as it changes state here: the streaming engine
        is configured when the platform supports it, and a platform that can
        play the stream in no way gets the fallback message. */
    method InitVideoPlayer(playback: Playback)
      requires Wf()
      modifies this`hls, this`videoInfo, this`nextElementId, this`timers, this`nextTimerId
      ensures Wf() && CountdownActive() == old(CountdownActive())
      ensures hls == (if playback.Engine? then Some(EngineConfig(true, true, 90, playback.defaultMaxBuffer, playback.defaultMaxMaxBuffer)) else old(hls))
      ensures playback.Unsupported? ==>
                && videoInfo == VideoInfo.WithMessage(old(videoInfo), old(nextElementId), FALLBACK_MESSAGE)
                && VideoInfo.Errors(videoInfo) == [VideoInfo.Message(old(nextElementId), FALLBACK_MESSAGE)]
                && timers == old(timers)[old(nextTimerId) := ErrorRemovalTimer(old(nextElementId))]
      ensures !playback.Unsupported? ==> videoInfo == old(videoInfo) && timers == old(timers)
      ensures VideoInfo.Others(videoInfo) == VideoInfo.Others(old(videoInfo))
      ensures nextTimerId == old(nextTimerId) + (if playback.Unsupported? then 1 else 0)
      ensures nextElementId == old(nextElementId) + (if playback.Unsupported? then 1 else 0)
    {
      if playback.Engine? {
        hls := Some(EngineConfig(true, true, 90, playback.defaultMaxBuffer, playback.defaultMaxMaxBuffer));
      } else if playback.Unsupported? {
        ShowErrorMessage(FALLBACK_MESSAGE);
      }
    }

    /** The rest of init after the video player: initCountdown, then the
        status. */
    method StartCountdownAndStatus(now: int) returns (poll: TimerId)
      requires Wf() && countdownInterval.None? && handOffs == 0 && launchSequences == 0
      requires launchedAtLoad == (launchDate - now <= 0)
      modifies this`shown,
               this`timers, this`nextTimerId, this`countdownInterval,
               this`celebrationIds, this`launchSequences,
               this`indicatorLive, this`statusText, this`statusColor
      ensures Valid() && CountdownActive()
      ensures indicatorLive == (Status.StatusAt(now, launchDate) == Status.Live)
      ensures statusText == Status.Label(Status.StatusAt(now, launchDate))
      ensures statusColor == Status.Color(Status.StatusAt(now, launchDate))
      ensures launchDate - now > 0 ==> shown == Countdown.Render(launchDate - now)
      ensures launchDate - now <= 0 ==> shown == old(shown)
      ensures launchSequences == (if launchDate - now <= 0 then 1 else 0)
      ensures timers == StartedTimers(old(timers), old(nextTimerId), launchDate - now <= 0)
      ensures poll == old(nextTimerId) + (if launchDate - now <= 0 then 2 else 1)
      ensures nextTimerId == poll + 1
      ensures poll in timers && timers[poll] == StatusPollTimer
    {
      InitCountdown(now);
      poll := StartStatus(now);
    }

    /** The end of init: checkStreamStatus, then the setInterval of the
        thirty-second status poll. */
    method StartStatus(now: int) returns (poll: TimerId)
      requires Valid()
      modifies this`timers, this`nextTimerId, this`indicatorLive, this`statusText, this`statusColor
      ensures Valid() && CountdownActive() == old(CountdownActive())
      ensures indicatorLive == (Status.StatusAt(now, launchDate) == Status.Live)
      ensures statusText == Status.Label(Status.StatusAt(now, launchDate))
      ensures statusColor == Status.Color(Status.StatusAt(now, launchDate))
      ensures poll == old(nextTimerId) && timers == old(timers)[poll := StatusPollTimer]
      ensures nextTimerId == old(nextTimerId) + 1
    {
      CheckStreamStatus(now);
      poll := nextTimerId;
      RegisterOther(timers, poll, countdownInterval, celebrationIds, StatusPollTimer);
      timers := timers[poll := StatusPollTimer];
      nextTimerId := nextTimerId + 1;
    }

    /** setStreamStatus: the indicator is lit exactly for the live status, and
        the label takes that status's text and colour. */
    method SetStreamStatus(s: Status.StreamStatus)
      modifies this`indicatorLive, this`statusText, this`statusColor
      ensures indicatorLive == (s == Status.Live)
      ensures statusText == Status.Label(s) && statusColor == Status.Color(s)
      ensures Status.StatusOfLabel(statusText) == Some(s)
    {
      Status.LabelRoundTrip(s);
      indicatorLive := s == Status.Live;
      statusText := Status.Label(s);
      statusColor := Status.Color(s);
    }

    /** checkStreamStatus: shows the status the clock gives. */
    method CheckStreamStatus(now: int)
      modifies this`indicatorLive, this`statusText, this`statusColor
      ensures indicatorLive <==> launchDate <= now <= launchDate + Time.HOUR_MS
      ensures statusText == Status.Label(Status.StatusAt(now, launchDate))
      ensures statusColor == Status.Color(Status.StatusAt(now, launchDate))
    {
      SetStreamStatus(Status.StatusAt(now, launchDate));
    }

    /** showErrorMessage: the earlier message, if any, is removed, the new one
        appended, and its own removal scheduled; the area then holds exactly
        the new message. */
    method ShowErrorMessage(message: string)
      requires Wf()
      modifies this`videoInfo, this`nextElementId, this`timers, this`nextTimerId
      ensures Wf() && CountdownActive() == old(CountdownActive())
      ensures videoInfo == VideoInfo.WithMessage(old(videoInfo), old(nextElementId), message)
      ensures VideoInfo.Errors(videoInfo) == [VideoInfo.Message(old(nextElementId), message)]
      ensures VideoInfo.Others(videoInfo) == VideoInfo.Others(old(videoInfo))
      ensures nextElementId == old(nextElementId) + 1
      ensures timers == old(timers)[old(nextTimerId) := ErrorRemovalTimer(old(nextElementId))]
      ensures nextTimerId == old(nextTimerId) + 1
    {
      var element := nextElementId;
      nextElementId := nextElementId + 1;
      VideoInfo.ShowLeavesOne(videoInfo, element, message);
      videoInfo := VideoInfo.RemoveFirstError(videoInfo) + [VideoInfo.ErrorMessage(element, message)];
      var removal := nextTimerId;
      RegisterOther(timers, removal, countdownInterval, celebrationIds, ErrorRemovalTimer(element));
      timers := timers[removal := ErrorRemovalTimer(element)];
      nextTimerId := nextTimerId + 1;
    }

    /** The ten-second timeout of showErrorMessage: removes its own element if
        it is still attached, and nothing else. */
    method FireErrorRemoval(id: TimerId)
      requires Valid() && id in timers && timers[id].ErrorRemovalTimer?
      modifies this`videoInfo, this`timers
      ensures Valid()
      ensures timers == old(timers) - {id}
      ensures var element := old(timers[id].element);
              && !VideoInfo.Attached(videoInfo, element)
              && (!VideoInfo.Attached(old(videoInfo), element) ==> videoInfo == old(videoInfo))
              && VideoInfo.Errors(videoInfo) == VideoInfo.Without(VideoInfo.Errors(old(videoInfo)), element)
      ensures VideoInfo.Others(videoInfo) == VideoInfo.Others(old(videoInfo))
    {
      var element := timers[id].element;
      RetireOrRecount(timers, nextTimerId, countdownInterval, celebrationIds, id, 0);
      assert celebrationIds - {id} == celebrationIds;
      timers := timers - {id};
      RemoveIfAttached(element);
    }

    /** The body of that timeout: `if (errorDiv.parentNode) errorDiv.remove()`. */
    method RemoveIfAttached(element: nat)
      modifies this`videoInfo
      ensures !VideoInfo.Attached(videoInfo, element)
      ensures !VideoInfo.Attached(old(videoInfo), element) ==> videoInfo == old(videoInfo)
      ensures VideoInfo.Errors(videoInfo) == VideoInfo.Without(VideoInfo.Errors(old(videoInfo)), element)
      ensures |VideoInfo.Errors(videoInfo)| <= |VideoInfo.Errors(old(videoInfo))|
      ensures VideoInfo.Others(videoInfo) == VideoInfo.Others(old(videoInfo))
    {
      VideoInfo.DetachSpec(videoInfo, element);
      VideoInfo.DetachRemoves(videoInfo, element);
      VideoInfo.WithoutKeeps(VideoInfo.Errors(videoInfo), element);
      if VideoInfo.Attached(videoInfo, element) {
        videoInfo := VideoInfo.Detach(videoInfo, element);
      }
    }

    /** initCountdown: one update straight away, and only then the interval
        is stored. An update that already finds the launch reached runs the
        launch sequence before there is an interval to clear. */
    method InitCountdown(now: int)
      requires Wf() && countdownInterval.None?
      modifies this`shown,
               this`timers, this`nextTimerId, this`countdownInterval,
               this`celebrationIds, this`launchSequences
      ensures Wf() && CountdownActive()
      ensures countdownInterval == Some(nextTimerId - 1)
      ensures launchDate - now > 0 ==> shown == Countdown.Render(launchDate - now)
      ensures launchDate - now > 0 ==> timers == old(timers)[old(nextTimerId) := CountdownTimer]
                                       && nextTimerId == old(nextTimerId) + 1
      ensures launchDate - now <= 0 ==> shown == old(shown)
      ensures launchDate - now <= 0 ==>
                timers == old(timers)[old(nextTimerId) := CelebrationTimer(Celebration.START_COUNT)]
                                     [old(nextTimerId) + 1 := CountdownTimer]
                && nextTimerId == old(nextTimerId) + 2
      ensures launchSequences == old(launchSequences) + (if launchDate - now <= 0 then 1 else 0)
    {
      UpdateCountdown(now);
      var id := nextTimerId;
      RegisterCountdown(timers, id, celebrationIds);
      timers := timers[id := CountdownTimer];
      nextTimerId := nextTimerId + 1;
      countdownInterval := Some(id);
    }

    /** updateCountdown: while the launch is ahead, shows the time left;
        once it is reached, writes no field and runs the launch sequence. */
    method UpdateCountdown(now: int)
      requires Wf()
      modifies this`shown,
               this`timers, this`nextTimerId, this`celebrationIds, this`launchSequences
      ensures Wf()
      ensures launchDate - now > 0 ==>
                && shown == Countdown.Render(launchDate - now)
                && timers == old(timers) && nextTimerId == old(nextTimerId)
                && launchSequences == old(launchSequences)
      ensures launchDate - now <= 0 ==>
                && shown == old(shown)
                && !CountdownActive()
                && timers == Cleared(old(timers), countdownInterval)[old(nextTimerId) := CelebrationTimer(Celebration.START_COUNT)]
                && nextTimerId == old(nextTimerId) + 1
                && launchSequences == old(launchSequences) + 1
    {
      var difference := launchDate - now;
      if difference <= 0 {
        LaunchSequence();
        return;
      }
      shown := Countdown.Render(difference);
    }

    /** launchSequence: clears the countdown interval and starts a celebration
        interval with its counter at five. */
    method LaunchSequence()
      requires Wf()
      modifies this`timers, this`nextTimerId, this`celebrationIds, this`launchSequences
      ensures Wf() && !CountdownActive()
      ensures timers == Cleared(old(timers), countdownInterval)[old(nextTimerId) := CelebrationTimer(Celebration.START_COUNT)]
      ensures nextTimerId == old(nextTimerId) + 1
      ensures celebrationIds == old(celebrationIds) + {old(nextTimerId)}
      ensures launchSequences == old(launchSequences) + 1
    {
      ClearCountdown(timers, nextTimerId, countdownInterval, celebrationIds);
      timers := Cleared(timers, countdownInterval);
      var celebration := nextTimerId;
      RegisterCelebration(timers, celebration, countdownInterval, celebrationIds, Celebration.START_COUNT);
      timers := timers[celebration := CelebrationTimer(Celebration.START_COUNT)];
      nextTimerId := nextTimerId + 1;
      celebrationIds := celebrationIds + {celebration};
      launchSequences := launchSequences + 1;
    }

    /** One firing of the countdown interval. */
    method FireCountdown(id: TimerId, now: int)
      requires Valid() && id in timers && timers[id] == CountdownTimer
      modifies this`shown,
               this`timers, this`nextTimerId, this`celebrationIds, this`launchSequences
      ensures Valid()
      ensures launchDate - now > 0 ==>
                && shown == Countdown.Render(launchDate - now)
                && timers == old(timers) && launchSequences == old(launchSequences)
                && nextTimerId == old(nextTimerId)
      ensures launchDate - now <= 0 ==>
                && shown == old(shown)
                && !CountdownActive()
                && timers == (old(timers) - {id})[old(nextTimerId) := CelebrationTimer(Celebration.START_COUNT)]
                && nextTimerId == old(nextTimerId) + 1
                && launchSequences == old(launchSequences) + 1
    {
      UpdateCountdown(now);
    }

    /** One firing of a celebration interval: while its counter is positive it
        announces the counter in the title and decrements it; at zero it
        clears itself and hands off to postLaunchTransition. */
    method FireCelebration(id: TimerId)
      requires Valid() && id in timers && timers[id].CelebrationTimer?
      modifies this`titleText, this`timers, this`celebrationIds, this`handOffs,
               this`indicatorLive, this`statusText, this`statusColor
      ensures Valid()
      ensures var step := Celebration.Step(old(timers[id].count));
              match step.0
              case Announce(n) =>
                && titleText == Celebration.Title(n)
                && timers == old(timers)[id := CelebrationTimer(step.1)]
                && handOffs == old(handOffs)
                && indicatorLive == old(indicatorLive) && statusText == old(statusText)
                && statusColor == old(statusColor)
              case HandOff =>
                && titleText == old(titleText)
                && timers == old(timers) - {id}
                && handOffs == old(handOffs) + 1
                && indicatorLive && statusText == Status.Label(Status.Live)
                && statusColor == Status.Color(Status.Live)
    {
      var celebrationCount := timers[id].count;
      RetireOrRecount(timers, nextTimerId, countdownInterval, celebrationIds, id, if celebrationCount > 0 then celebrationCount - 1 else 0);
      if celebrationCount > 0 {
        titleText := Celebration.Title(celebrationCount);
        timers := timers[id := CelebrationTimer(celebrationCount - 1)];
      } else {
        timers := timers - {id};
        celebrationIds := celebrationIds - {id};
        PostLaunchTransition();
      }
    }

    /** postLaunchTransition: marks the stream live whatever the clock says. */
    method PostLaunchTransition()
      modifies this`indicatorLive, this`statusText, this`statusColor, this`handOffs
      ensures indicatorLive && statusText == Status.Label(Status.Live) && statusColor == Status.Color(Status.Live)
      ensures handOffs == old(handOffs) + 1
    {
      SetStreamStatus(Status.Live);
      handOffs := handOffs + 1;
    }

    /** One firing of the thirty-second status poll: the clock decides again,
        even after postLaunchTransition forced the live status. */
    method FireStatusPoll(id: TimerId, now: int)
      requires Valid() && id in timers && timers[id] == StatusPollTimer
      modifies this`indicatorLive, this`statusText, this`statusColor
      ensures Valid()
      ensures indicatorLive <==> launchDate <= now <= launchDate + Time.HOUR_MS
      ensures statusText == Status.Label(Status.StatusAt(now, launchDate))
      ensures statusColor == Status.Color(Status.StatusAt(now, launchDate))
    {
      CheckStreamStatus(now);
    }

    /** playVideo with the outcome of video.play(): on success the video plays
        unmuted; on failure the failure message is shown. */
    method PlayVideo(played: bool)
      requires Valid()
      modifies this`muted, this`paused, this`videoInfo, this`nextElementId, this`timers, this`nextTimerId
      ensures Valid()
      ensures played ==> && !paused && !muted
                         && videoInfo == old(videoInfo) && timers == old(timers)
                         && nextElementId == old(nextElementId) && nextTimerId == old(nextTimerId)
      ensures !played ==> && paused == old(paused) && muted == old(muted)
                          && videoInfo == VideoInfo.WithMessage(old(videoInfo), old(nextElementId), PLAY_FAILED_MESSAGE)
                          && VideoInfo.Errors(videoInfo) == [VideoInfo.Message(old(nextElementId), PLAY_FAILED_MESSAGE)]
                          && VideoInfo.Others(videoInfo) == VideoInfo.Others(old(videoInfo))
                          && timers == old(timers)[old(nextTimerId) := ErrorRemovalTimer(old(nextElementId))]
                          && nextElementId == old(nextElementId) + 1 && nextTimerId == old(nextTimerId) + 1
    {
      if played {
        paused := false;
        muted := false;
      } else {
        ShowErrorMessage(PLAY_FAILED_MESSAGE);
      }
    }

    /** toggleMute. */
    method ToggleMute()
      modifies this`muted
      ensures muted == !old(muted)
    {
      muted := !muted;
    }

    /** The keydown handler: Space plays a paused video and pauses a playing
        one, M toggles mute; neither reacts when typing into an INPUT. */
    method KeyDown(code: string, targetTag: string, played: bool)
      requires Valid()
      modifies this`muted, this`paused, this`videoInfo, this`nextElementId, this`timers, this`nextTimerId
      ensures Valid()
      ensures targetTag == "INPUT" || (code != "Space" && code != "KeyM") ==>
                && muted == old(muted) && paused == old(paused)
                && videoInfo == old(videoInfo) && timers == old(timers)
                && nextTimerId == old(nextTimerId) && nextElementId == old(nextElementId)
      ensures code == "Space" && targetTag != "INPUT" && !old(paused) ==>
                && paused && muted == old(muted)
                && videoInfo == old(videoInfo) && timers == old(timers)
                && nextTimerId == old(nextTimerId) && nextElementId == old(nextElementId)
      ensures code == "Space" && targetTag != "INPUT" && old(paused) && played ==>
                && !paused && !muted && videoInfo == old(videoInfo) && timers == old(timers)
                && nextTimerId == old(nextTimerId) && nextElementId == old(nextElementId)
      ensures code == "Space" && targetTag != "INPUT" && old(paused) && !played ==>
                && paused && muted == old(muted)
                && videoInfo == VideoInfo.WithMessage(old(videoInfo), old(nextElementId), PLAY_FAILED_MESSAGE)
                && VideoInfo.Errors(videoInfo) == [VideoInfo.Message(old(nextElementId), PLAY_FAILED_MESSAGE)]
                && VideoInfo.Others(videoInfo) == VideoInfo.Others(old(videoInfo))
                && timers == old(timers)[old(nextTimerId) := ErrorRemovalTimer(old(nextElementId))]
                && nextTimerId == old(nextTimerId) + 1 && nextElementId == old(nextElementId) + 1
      ensures code == "KeyM" && targetTag != "INPUT" ==>
                && muted == !old(muted) && paused == old(paused)
                && videoInfo == old(videoInfo) && timers == old(timers)
                && nextTimerId == old(nextTimerId) && nextElementId == old(nextElementId)
    {
      if code == "Space" && targetTag != "INPUT" {
        if paused {
          PlayVideo(played);
        } else {
          paused := true;
        }
      }
      if code == "KeyM" && targetTag != "INPUT" {
        ToggleMute();
      }
    }

    /** handleResize: with the engine present, widths up to 768 get the
        30/60-second buffers and wider ones 60/120; nothing else in the
        configuration changes, and without the engine nothing happens. */
    method HandleResize(innerWidth: int)
      modifies this`hls
      ensures old(hls).None? ==> hls == old(hls)
      ensures old(hls).Some? && innerWidth <= MOBILE_MAX_WIDTH ==>
                hls == Some(old(hls).value.(maxBufferLength := 30, maxMaxBufferLength := 60))
      ensures old(hls).Some? && innerWidth > MOBILE_MAX_WIDTH ==>
                hls == Some(old(hls).value.(maxBufferLength := 60, maxMaxBufferLength := 120))
    {
      if hls.Some? {
        var isMobile := innerWidth <= MOBILE_MAX_WIDTH;
        if isMobile {
          hls := Some(hls.value.(maxBufferLength := 30, maxMaxBufferLength := 60));
        } else {
          hls := Some(hls.value.(maxBufferLength := 60, maxMaxBufferLength := 120));
        }
      }
    }
  }
}
