/** MMM-UxPlayScenes front end: switches to the music scene when the helper
    reports music, and back to the return scene once a stop signal has not
    been contradicted for a grace delay. `stopTimer` is the pending return
    timer, together with its delay; a timer is cancelled by dropping it, and
    `FireStopTimer` is its expiry. The clock is a parameter (`now`). */
module UxPlayScenes {
  import opened Util
  import opened UxPlayScenesHelper

  /** The grace delay of the `FILE_MISSING` path. */
  const FileMissingDelay: nat := 10000

  datatype Timer = Timer(id: nat, delay: nat)

  /** A `SCENES_PLAY` request for a scene. */
  datatype Note = ScenesPlay(scene: string)

  /** The `START_MONITORING` request to the helper, with its settings. */
  datatype MonitorRequest = StartMonitoring(metadataFile: string, checkInterval: int, stopDelay: nat)

  /** How long `start` waits before asking the helper to monitor. */
  const StartupDelay: nat := 30000

  class Controller {
    const musicSceneName: string
    const returnSceneName: string
    const stopDelay: nat
    const metadataFile: string
    const checkInterval: int
    var isPlaying: bool
    var stopTimer: Option<Timer>
    var lastFileCheck: int
    var nextId: nat
    /** Every notification sent, in order. */
    var sent: seq<Note>
    /** Every request sent to the helper, in order. */
    var requests: seq<MonitorRequest>

    /** A return timer is pending only while music plays. */
    predicate Valid()
      reads this
    {
      (stopTimer.Some? ==> isPlaying && stopTimer.value.id < nextId)
    }

    /** `start`, with the configured scene names and delay. */
    constructor (musicSceneName: string, returnSceneName: string, stopDelay: nat,
                 metadataFile: string, checkInterval: int)
      ensures Valid()
      ensures this.musicSceneName == musicSceneName && this.returnSceneName == returnSceneName
      ensures this.stopDelay == stopDelay
      ensures this.metadataFile == metadataFile && this.checkInterval == checkInterval
      ensures !isPlaying && stopTimer.None? && lastFileCheck == 0 && sent == [] && requests == []
    {
      this.musicSceneName := musicSceneName;
      this.returnSceneName := returnSceneName;
      this.stopDelay := stopDelay;
      this.metadataFile := metadataFile;
      this.checkInterval := checkInterval;
      requests := [];
      isPlaying := false;
      stopTimer := None;
      lastFileCheck := 0;
      nextId := 1;
      sent := [];
    }

    /** The startup timer (`StartupDelay` after `start`) expires: the helper
        is asked to monitor with the configured file, interval and delay. */
    method StartupTimerFires()
      modifies this`requests
      ensures requests == old(requests) + [StartMonitoring(metadataFile, checkInterval, stopDelay)]
    {
      requests := requests + [StartMonitoring(metadataFile, checkInterval, stopDelay)];
    }

    /** `handleMusicPlaying`: cancel any pending return, switch scene on the
        first signal only. */
    method HandleMusicPlaying(now: int)
      requires Valid()
      modifies this`isPlaying, this`stopTimer, this`lastFileCheck, this`sent
      ensures Valid()
      ensures isPlaying && stopTimer.None? && lastFileCheck == now
      ensures sent == old(sent) + (if old(isPlaying) then [] else [ScenesPlay(musicSceneName)])
    {
      stopTimer := None;
      if !isPlaying {
        isPlaying := true;
        OnPlay();
      }
      lastFileCheck := now;
    }

    /** Arms the return timer unless one is pending or music is not playing;
        `handleMusicStopped` and `handleFileMissing` differ only in the delay. */
    method ArmReturn(delay: nat)
      requires Valid()
      modifies this`stopTimer, this`nextId
      ensures Valid()
      ensures old(isPlaying) && old(stopTimer).None? ==> stopTimer == Some(Timer(old(nextId), delay))
      ensures !(old(isPlaying) && old(stopTimer).None?) ==> stopTimer == old(stopTimer)
    {
      if isPlaying && stopTimer.None? {
        stopTimer := Some(Timer(nextId, delay));
        nextId := nextId + 1;
      }
    }

    /** `handleMusicStopped` */
    method HandleMusicStopped()
      requires Valid()
      modifies this`stopTimer, this`nextId
      ensures Valid()
      ensures old(isPlaying) && old(stopTimer).None? ==> stopTimer == Some(Timer(old(nextId), stopDelay))
      ensures !(old(isPlaying) && old(stopTimer).None?) ==> stopTimer == old(stopTimer)
    {
      ArmReturn(stopDelay);
    }

    /** `handleFileMissing` */
    method HandleFileMissing()
      requires Valid()
      modifies this`stopTimer, this`nextId
      ensures Valid()
      ensures old(isPlaying) && old(stopTimer).None? ==> stopTimer == Some(Timer(old(nextId), FileMissingDelay))
      ensures !(old(isPlaying) && old(stopTimer).None?) ==> stopTimer == old(stopTimer)
    {
      ArmReturn(FileMissingDelay);
    }

    /** `socketNotificationReceived` */
    method SocketNotificationReceived(signal: MusicSignal, now: int)
      requires Valid()
      modifies this`isPlaying, this`stopTimer, this`lastFileCheck, this`sent, this`nextId
      ensures Valid()
      ensures signal == MusicPlaying ==>
                isPlaying && stopTimer.None? && lastFileCheck == now &&
                sent == old(sent) + (if old(isPlaying) then [] else [ScenesPlay(musicSceneName)])
      ensures signal != MusicPlaying ==>
                isPlaying == old(isPlaying) && sent == old(sent) && lastFileCheck == old(lastFileCheck)
      ensures signal != MusicPlaying && old(isPlaying) && old(stopTimer).None? ==>
                stopTimer == Some(Timer(old(nextId), if signal == MusicStopped then stopDelay else FileMissingDelay))
      ensures signal != MusicPlaying && !(old(isPlaying) && old(stopTimer).None?) ==> stopTimer == old(stopTimer)
    {
      match signal {
        case MusicPlaying => HandleMusicPlaying(now);
        case MusicStopped => HandleMusicStopped();
        case FileMissing => HandleFileMissing();
      }
    }

    /** The return timer expires: back to the return scene, exactly once. */
    method FireStopTimer()
      requires Valid() && stopTimer.Some?
      modifies this`isPlaying, this`stopTimer, this`sent
      ensures Valid()
      ensures !isPlaying && stopTimer.None?
      ensures sent == old(sent) + [ScenesPlay(returnSceneName)]
    {
      isPlaying := false;
      stopTimer := None;
      OnStop();
    }

    /** `onPlay` */
    method OnPlay()
      modifies this`sent
      ensures sent == old(sent) + [ScenesPlay(musicSceneName)]
    {
      sent := sent + [ScenesPlay(musicSceneName)];
    }

    /** `onStop` */
    method OnStop()
      modifies this`sent
      ensures sent == old(sent) + [ScenesPlay(returnSceneName)]
    {
      sent := sent + [ScenesPlay(returnSceneName)];
    }
  }
}
