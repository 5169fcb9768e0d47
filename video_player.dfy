/** The video player screen: time formatting, the progress bar, the transport
    commands, the auto-hiding controls overlay and the orientation lock. */
module VideoPlayer {
  import opened Wrappers
  import opened Decimal
  import opened Catalog

  /** What the video element reports on each status callback. Missing
      properties are `None`; the initial status `{}` has all of them missing. */
  datatype PlaybackStatus = PlaybackStatus(
    isLoaded: bool,
    isPlaying: bool,
    positionMillis: Option<nat>,
    durationMillis: Option<nat>)

  const EmptyStatus := PlaybackStatus(false, false, None, None)

  datatype OrientationLock = Landscape | Portrait

  /** A call into code outside the screen (the video element, the orientation
      service, the back-button registry, the timer queue, the navigator),
      recorded in the order the screen makes it. */
  datatype Effect =
    | LockAsync(lock: OrientationLock)
    | AddBackPressListener
    | RemoveBackPressListener
    | PlayAsync
    | PauseAsync
    | SetPositionAsync(millis: real)
    | SetTimeout(timer: nat, delayMillis: nat)
    | ClearTimeout(timer: nat)
    | Nav(command: NavCommand)

  /** How long the controls stay up without a tap. */
  const HideDelayMillis: nat := 3000

  /** `s.padStart(2, '0')`. */
  function PadTwo(s: string): (r: string)
    ensures |s| <= 2 ==> |r| == 2
    ensures |s| == 0 ==> r == "00"
    ensures |s| == 1 ==> r == "0" + s
    ensures |s| >= 2 ==> r == s
  {
    if |s| >= 2 then s else seq(2 - |s|, _ => '0') + s
  }

  /** The two-digit seconds field reads back as the seconds. */
  lemma SecondsField(seconds: nat)
    requires seconds < 60
    ensures AllDigits(PadTwo(ToDecimal(seconds)))
    ensures FromDecimal(PadTwo(ToDecimal(seconds))) == seconds
  {
    FromToDecimal(seconds);
    if seconds < 10 {
      LeadingZero(ToDecimal(seconds));
    }
  }

  /** `formatTime`: whole minutes, a colon, then whole seconds as exactly two
      digits. There is no hours field: the minutes grow without bound. */
  function FormatTime(timeInMillis: nat): (r: string)
    ensures |r| >= 4 && r[|r| - 3] == ':'
    ensures AllDigits(r[..|r| - 3]) && AllDigits(r[|r| - 2..])
    ensures |r| > 4 ==> r[0] != '0'
    ensures FromDecimal(r[|r| - 2..]) < 60
    ensures FromDecimal(r[..|r| - 3]) * 60 + FromDecimal(r[|r| - 2..]) == timeInMillis / 1000
  {
    var totalSeconds := timeInMillis / 1000;
    var minutes := totalSeconds / 60;
    var seconds := totalSeconds % 60;
    var m := ToDecimal(minutes);
    var s := PadTwo(ToDecimal(seconds));
    FromToDecimal(minutes);
    SecondsField(seconds);
    var r := m + ":" + s;
    assert r[..|r| - 3] == m && r[|r| - 2..] == s;
    r
  }

  /** `progressPercentage`: the share of the video played, in percent, and 0
      while the duration is unknown. It is not clamped to 100. */
  function ProgressPercentage(currentTime: nat, duration: nat): (r: real)
    ensures duration == 0 ==> r == 0.0
    ensures duration > 0 ==> r * duration as real == 100.0 * currentTime as real
    ensures 0.0 <= r
    ensures currentTime <= duration ==> r <= 100.0
  {
    if duration > 0 then (currentTime as real / duration as real) * 100.0 else 0.0
  }

  /** The seek target of `handleSeek`: `value` is a percentage of `duration`. */
  function SeekTarget(value: real, duration: nat): (t: real)
    ensures t * 100.0 == value * duration as real
    ensures 0.0 <= value <= 100.0 ==> 0.0 <= t <= duration as real
  {
    (value / 100.0) * duration as real
  }

  /** The cleanup of the auto-hide effect: clear the timer the ref holds, if any. */
  function ClearRef(ref: nat): (r: seq<Effect>)
    ensures r == [] <==> ref == 0
    ensures |r| <= 1
    ensures forall e :: e in r ==> e == ClearTimeout(ref)
  {
    if ref != 0 then [ClearTimeout(ref)] else []
  }

  class PlayerScreen {
    const anime: Anime
    const episode: Episode
    var status: PlaybackStatus
    var isControlsVisible: bool
    var isFullscreen: bool
    var currentTime: nat
    var duration: nat
    /** The ref `controlsTimeout`: the last timer the auto-hide effect started; 0 is null. */
    var controlsTimeout: nat
    /** The id the timer queue hands out next. */
    var nextTimerId: nat
    /** The timers that are started and have neither fired nor been cleared. */
    var pendingTimers: set<nat>
    var mounted: bool
    var log: seq<Effect>

    /** A hide timer is pending exactly while the mounted screen shows its controls,
        and then it is the only one, and the ref holds it. */
    ghost predicate HideTimerRule()
      reads this
    {
      if mounted && isControlsVisible then controlsTimeout != 0 && pendingTimers == {controlsTimeout}
      else pendingTimers == {}
    }

    /** The landscape lock and the back listener are acquired once at mount; the
        portrait lock and the listener's removal happen once, at unmount. */
    ghost predicate Valid()
      reads this
    {
      HideTimerRule() &&
      0 < nextTimerId && controlsTimeout < nextTimerId &&
      multiset(log)[AddBackPressListener] == 1 &&
      multiset(log)[RemoveBackPressListener] == (if mounted then 0 else 1) &&
      multiset(log)[LockAsync(Portrait)] == (if mounted then 0 else 1)
    }

    /** The first render followed by the mount effects, in declaration order:
        lock landscape and listen for the back button, then start the hide timer
        because the controls start visible. */
    constructor (anime: Anime, episode: Episode)
      ensures Valid() && mounted
      ensures this.anime == anime && this.episode == episode
      ensures status == EmptyStatus && currentTime == 0 && duration == 0
      ensures isControlsVisible && !isFullscreen
      ensures log == [LockAsync(Landscape), AddBackPressListener, SetTimeout(1, HideDelayMillis)]
      ensures controlsTimeout == 1 && pendingTimers == {1}
    {
      this.anime, this.episode := anime, episode;
      status := EmptyStatus;
      isControlsVisible, isFullscreen := true, false;
      currentTime, duration := 0, 0;
      mounted := true;
      controlsTimeout, nextTimerId := 1, 2;
      pendingTimers := {1};
      log := [LockAsync(Landscape), AddBackPressListener, SetTimeout(1, HideDelayMillis)];
    }

    /** The unmount cleanups, in declaration order: lock portrait and drop the back
        listener, then clear the hide timer the ref holds. */
    method Unmount()
      requires Valid() && mounted
      modifies this`mounted, this`pendingTimers, this`log
      ensures Valid() && !mounted && pendingTimers == {}
      ensures log == old(log) + [LockAsync(Portrait), RemoveBackPressListener] + ClearRef(controlsTimeout)
    {
      mounted := false;
      log := log + [LockAsync(Portrait), RemoveBackPressListener] + ClearRef(controlsTimeout);
      pendingTimers := pendingTimers - {controlsTimeout};
    }

    /** `handleScreenPress`: flip the controls. The change re-runs the auto-hide
        effect: its cleanup clears the timer in the ref first, then a new timer
        is started if the controls are now visible. */
    method HandleScreenPress()
      requires Valid() && mounted
      modifies this`isControlsVisible, this`controlsTimeout, this`nextTimerId, this`pendingTimers, this`log
      ensures Valid() && mounted
      ensures isControlsVisible == !old(isControlsVisible)
      ensures isControlsVisible <==> |pendingTimers| == 1
      ensures isControlsVisible ==>
        controlsTimeout == old(nextTimerId) && nextTimerId == old(nextTimerId) + 1 &&
        pendingTimers == {controlsTimeout} &&
        log == old(log) + ClearRef(old(controlsTimeout)) + [SetTimeout(controlsTimeout, HideDelayMillis)]
      ensures !isControlsVisible ==>
        controlsTimeout == old(controlsTimeout) && nextTimerId == old(nextTimerId) &&
        pendingTimers == {} &&
        log == old(log) + ClearRef(old(controlsTimeout))
    {
      isControlsVisible := !isControlsVisible;
      log := log + ClearRef(controlsTimeout);
      pendingTimers := pendingTimers - {controlsTimeout};
      if isControlsVisible {
        controlsTimeout := nextTimerId;
        nextTimerId := nextTimerId + 1;
        pendingTimers := pendingTimers + {controlsTimeout};
        log := log + [SetTimeout(controlsTimeout, HideDelayMillis)];
      }
    }

    /** A pending hide timer fires: the controls hide, and the effect's cleanup
        clears the (already fired) timer in the ref. */
    method FireHideTimer(timer: nat)
      requires Valid() && timer in pendingTimers
      modifies this`isControlsVisible, this`pendingTimers, this`log
      ensures Valid() && mounted
      ensures old(isControlsVisible) && !isControlsVisible
      ensures timer == controlsTimeout && pendingTimers == {}
      ensures log == old(log) + [ClearTimeout(timer)]
    {
      pendingTimers := pendingTimers - {timer};
      isControlsVisible := false;
      log := log + ClearRef(controlsTimeout);
    }

    /** `togglePlayPause`: nothing before the video has loaded; then exactly one
        command, pause while playing and play otherwise. No local state changes. */
    method TogglePlayPause()
      requires Valid() && mounted
      modifies this`log
      ensures Valid()
      ensures !status.isLoaded ==> log == old(log)
      ensures status.isLoaded ==> |log| == |old(log)| + 1 && log[..|old(log)|] == old(log)
      ensures status.isLoaded ==> (log[|log| - 1] == PauseAsync <==> status.isPlaying)
      ensures status.isLoaded ==> (log[|log| - 1] == PlayAsync <==> !status.isPlaying)
    {
      if status.isLoaded {
        if status.isPlaying {
          log := log + [PauseAsync];
        } else {
          log := log + [PlayAsync];
        }
      }
    }

    /** `handleSeek`: seek to `value` percent of the duration, but only once the
        video has loaded and the duration is known. The displayed position is left
        for the next status callback to update. */
    method HandleSeek(value: real)
      requires Valid() && mounted
      modifies this`log
      ensures Valid()
      ensures !(status.isLoaded && duration > 0) ==> log == old(log)
      ensures status.isLoaded && duration > 0 ==>
        log == old(log) + [SetPositionAsync(SeekTarget(value, duration))]
    {
      if status.isLoaded && duration > 0 {
        var seekTime := SeekTarget(value, duration);
        log := log + [SetPositionAsync(seekTime)];
      }
    }

    /** The status callback: always keep the status; take position and duration
        (missing ones as 0) only from a loaded status. */
    method OnPlaybackStatusUpdate(playbackStatus: PlaybackStatus)
      requires Valid() && mounted
      modifies this`status, this`currentTime, this`duration
      ensures Valid()
      ensures status == playbackStatus
      ensures playbackStatus.isLoaded ==>
        currentTime == playbackStatus.positionMillis.GetOr(0) &&
        duration == playbackStatus.durationMillis.GetOr(0)
      ensures !playbackStatus.isLoaded ==>
        currentTime == old(currentTime) && duration == old(duration)
    {
      status := playbackStatus;
      if playbackStatus.isLoaded {
        currentTime := playbackStatus.positionMillis.GetOr(0);
        duration := playbackStatus.durationMillis.GetOr(0);
      }
    }

    /** `toggleFullscreen`: both branches request landscape; the flag flips. */
    method ToggleFullscreen()
      requires Valid() && mounted
      modifies this`isFullscreen, this`log
      ensures Valid()
      ensures isFullscreen == !old(isFullscreen)
      ensures log == old(log) + [LockAsync(Landscape)]
    {
      if isFullscreen {
        log := log + [LockAsync(Landscape)];
      } else {
        log := log + [LockAsync(Landscape)];
      }
      isFullscreen := !isFullscreen;
    }

    /** `handleGoBack`, behind the overlay's back arrow. */
    method HandleGoBack()
      requires Valid() && mounted
      modifies this`log
      ensures Valid()
      ensures log == old(log) + [Nav(GoBack)]
    {
      log := log + [Nav(GoBack)];
    }

    /** `backAction`, the hardware back listener: go back and report the press handled. */
    method BackAction() returns (handled: bool)
      requires Valid() && mounted
      modifies this`log
      ensures Valid()
      ensures handled
      ensures log == old(log) + [Nav(GoBack)]
    {
      HandleGoBack();
      handled := true;
    }
  }

  /** Two taps in a row restore the controls and leave exactly one pending hide
      timer when they end up visible, none otherwise. */
  method DoubleTap(p: PlayerScreen)
    requires p.Valid() && p.mounted
    modifies p
    ensures p.Valid() && p.mounted
    ensures p.isControlsVisible == old(p.isControlsVisible)
    ensures |p.pendingTimers| == if p.isControlsVisible then 1 else 0
  {
    p.HandleScreenPress();
    p.HandleScreenPress();
  }
}
