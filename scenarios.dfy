/** Runs of the page controller built from its own methods, from the page
    load through the launch: what a visitor sees in each situation. */
module LaunchScenarios {
  import Status
  import Time
  import Celebration
  import VideoInfo
  import opened Timers
  import opened Launch

  /** A page loaded before the launch whose countdown next fires at or after
      it: the title counts 5, 4, 3, 2, 1, the stream is then marked live and
      no interval of the launch is left; a status poll more than an hour
      after the launch takes the live status back. */
  method LaunchFromCountdown(loadedAt: int, firedAt: int, polledAt: int)
    returns (titles: seq<string>, forced: string, celebrationsLeft: nat, counting: bool, polled: string)
    requires loadedAt < LAUNCH_DATE <= firedAt
    requires polledAt > LAUNCH_DATE + Time.HOUR_MS
    ensures titles == [Celebration.Title(5), Celebration.Title(4), Celebration.Title(3),
                       Celebration.Title(2), Celebration.Title(1)]
    ensures forced == Status.Label(Status.Live)
    ensures celebrationsLeft == 0 && !counting
    ensures polled == Status.Label(Status.Offline)
  {
    var page := new NewMediaTVLaunch(false, []);
    var poll := page.Init(loadedAt, Native);
    var celebration := page.nextTimerId;
    page.FireCountdown(page.countdownInterval.value, firedAt);
    titles := Celebrate(page, celebration, poll);
    forced := page.statusText;
    celebrationsLeft := |Celebrations(page.timers)|;
    counting := page.CountdownActive();
    page.FireStatusPoll(poll, polledAt);
    polled := page.statusText;
  }

  /** Fires a fresh celebration interval until it hands off, collecting the
      titles it shows; the only launch sequence so far is then closed. */
  method Celebrate(page: NewMediaTVLaunch, celebration: TimerId, poll: TimerId) returns (titles: seq<string>)
    requires page.Valid() && page.handOffs == 0 && page.launchSequences == 1
    requires celebration in page.timers && page.timers[celebration] == CelebrationTimer(Celebration.START_COUNT)
    requires poll in page.timers && page.timers[poll] == StatusPollTimer
    modifies page
    ensures page.Valid() && page.launchSequences == 1 && page.handOffs == 1
    ensures page.CountdownActive() == old(page.CountdownActive())
    ensures poll in page.timers && page.timers[poll] == StatusPollTimer
    ensures page.statusText == Status.Label(Status.Live)
    ensures titles == [Celebration.Title(5), Celebration.Title(4), Celebration.Title(3),
                       Celebration.Title(2), Celebration.Title(1)]
  {
    titles := AnnounceAll(page, celebration, poll);
    page.FireCelebration(celebration);
  }

  /** The five announcing firings of a fresh celebration interval, collecting
      the titles they show; the interval is then at zero. */
  method AnnounceAll(page: NewMediaTVLaunch, celebration: TimerId, poll: TimerId) returns (titles: seq<string>)
    requires page.Valid() && page.handOffs == 0 && page.launchSequences == 1
    requires celebration in page.timers && page.timers[celebration] == CelebrationTimer(Celebration.START_COUNT)
    requires poll in page.timers && page.timers[poll] == StatusPollTimer
    modifies page
    ensures page.Valid() && page.handOffs == 0 && page.launchSequences == 1
    ensures page.CountdownActive() == old(page.CountdownActive())
    ensures celebration in page.timers && page.timers[celebration] == CelebrationTimer(0)
    ensures poll in page.timers && page.timers[poll] == StatusPollTimer
    ensures |titles| == 5 && forall i :: 0 <= i < 5 ==> titles[i] == Celebration.Title(5 - i)
  {
    titles := [];
    var k := 0;
    while k < 5
      invariant 0 <= k <= 5
      invariant page.Valid() && page.handOffs == 0 && page.launchSequences == 1
      invariant page.CountdownActive() == old(page.CountdownActive())
      invariant celebration in page.timers && page.timers[celebration] == CelebrationTimer(5 - k)
      invariant poll in page.timers && page.timers[poll] == StatusPollTimer
      invariant |titles| == k && forall i :: 0 <= i < k ==> titles[i] == Celebration.Title(5 - i)
      modifies page
    {
      page.FireCelebration(celebration);
      titles := titles + [page.titleText];
      k := k + 1;
    }
  }

  /** A page loaded at or after the launch runs the launch sequence from
      initCountdown's first update, before the countdown interval exists, and
      again on that interval's first firing: two celebrations run. */
  method LoadAfterLaunch(loadedAt: int, firedAt: int) returns (atLoad: nat, afterFirstTick: nat, counting: bool)
    requires LAUNCH_DATE <= loadedAt <= firedAt
    ensures atLoad == 1 && afterFirstTick == 2 && !counting
  {
    var page := new NewMediaTVLaunch(false, []);
    var poll := page.Init(loadedAt, Native);
    atLoad := |Celebrations(page.timers)|;
    page.FireCountdown(page.countdownInterval.value, firedAt);
    afterFirstTick := |Celebrations(page.timers)|;
    counting := page.CountdownActive();
  }

  /** Two failed plays: the second message replaces the first; the first
      message's removal then finds its element gone and leaves the second in
      place, and the second's removal empties the area. The container's other
      children stay throughout. */
  method ReplacedErrorMessage(now: int)
    returns (shown: seq<VideoInfo.Message>, afterStale: seq<VideoInfo.Message>,
             afterOwn: seq<VideoInfo.Message>, others: seq<string>)
    ensures |shown| == 1 && shown[0].text == PLAY_FAILED_MESSAGE
    ensures afterStale == shown && afterOwn == []
    ensures others == ["title"]
  {
    var page := new NewMediaTVLaunch(false, [VideoInfo.Other("title")]);
    var poll := page.Init(now, Native);
    var first, second := FailTwice(page);
    shown := VideoInfo.Errors(page.videoInfo);
    page.FireErrorRemoval(first);
    afterStale := VideoInfo.Errors(page.videoInfo);
    page.FireErrorRemoval(second);
    afterOwn := VideoInfo.Errors(page.videoInfo);
    others := VideoInfo.Others(page.videoInfo);
  }

  /** Two failed plays in a row, and the removals they schedule: the first
      for an element no longer shown, the second for the one shown. */
  method FailTwice(page: NewMediaTVLaunch) returns (first: TimerId, second: TimerId)
    requires page.Valid()
    modifies page
    ensures page.Valid() && first != second
    ensures first in page.timers && second in page.timers
    ensures page.timers[first].ErrorRemovalTimer? && page.timers[second].ErrorRemovalTimer?
    ensures VideoInfo.Errors(page.videoInfo)
              == [VideoInfo.Message(page.timers[second].element, PLAY_FAILED_MESSAGE)]
    ensures page.timers[first].element != page.timers[second].element
    ensures VideoInfo.Others(page.videoInfo) == VideoInfo.Others(old(page.videoInfo))
  {
    first := page.nextTimerId;
    page.PlayVideo(false);
    second := page.nextTimerId;
    page.PlayVideo(false);
  }

  /** Space plays a paused video (unmuted) and pauses a playing one; typed
      into an INPUT it does nothing; M twice leaves the mute as it was. */
  method SpaceAndMute(now: int) returns (playing: bool, pausedAgain: bool, typed: bool, mutedAfterTwo: bool)
    ensures playing && pausedAgain && typed && !mutedAfterTwo
  {
    var page := new NewMediaTVLaunch(true, []);
    var poll := page.Init(now, Native);
    page.KeyDown("Space", "BODY", true);
    playing := !page.paused && !page.muted;
    page.KeyDown("Space", "BODY", true);
    pausedAgain := page.paused;
    page.KeyDown("Space", "INPUT", true);
    typed := page.paused;
    page.KeyDown("KeyM", "BODY", true);
    page.KeyDown("KeyM", "BODY", true);
    mutedAfterTwo := page.muted;
  }

  /** The 768-pixel boundary: 768 gets the mobile buffers, 769 the desktop
      ones; without the engine a resize changes nothing. */
  method ResizeAtBoundary(now: int) returns (mobile: EngineConfig, desktop: EngineConfig, native: bool)
    ensures mobile == EngineConfig(true, true, 90, 30, 60)
    ensures desktop == EngineConfig(true, true, 90, 60, 120)
    ensures native
  {
    var page := new NewMediaTVLaunch(false, []);
    var poll := page.Init(now, Engine(30, 600));
    page.HandleResize(768);
    mobile := page.hls.value;
    page.HandleResize(769);
    desktop := page.hls.value;
    var other := new NewMediaTVLaunch(false, []);
    poll := other.Init(now, Native);
    other.HandleResize(320);
    native := other.hls.None?;
  }
}
