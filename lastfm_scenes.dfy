/** MMM-Lastfm-Scenes: watches the Last.fm widget for album art; art
    appearing switches to the music scene, art disappearing (re)starts a
    short timer that switches back. The presence of album art is a parameter
    of `CheckPlayback`. `stopTimer` is the handle the module keeps and `armed`
    the stop timer still scheduled, with its delay: the callback does not
    clear the handle, so the two differ after it has run. */
module LastfmScenes {
  import opened Util

  datatype Note = ScenesPlay(scene: string)

  /** A scheduled timer: the id `setTimeout` returned and its delay. */
  datatype Timer = Timer(id: nat, delay: nat)

  class Controller {
    const musicSceneName: string
    const returnSceneName: string
    const stopDelay: nat
    var isPlaying: bool
    var stopTimer: Option<nat>
    /** The stop timer still scheduled, if any. */
    var armed: Option<Timer>
    var nextId: nat
    var sent: seq<Note>

    /** At most one stop timer is scheduled, the one the handle names, and
        only while music plays. */
    predicate Valid()
      reads this
    {
      (armed.Some? ==> stopTimer == Some(armed.value.id) && isPlaying) &&
      (stopTimer.Some? ==> stopTimer.value < nextId)
    }

    /** `start` */
    constructor (musicSceneName: string, returnSceneName: string, stopDelay: nat)
      ensures Valid()
      ensures this.musicSceneName == musicSceneName && this.returnSceneName == returnSceneName
      ensures this.stopDelay == stopDelay
      ensures !isPlaying && stopTimer.None? && armed.None? && sent == []
    {
      this.musicSceneName := musicSceneName;
      this.returnSceneName := returnSceneName;
      this.stopDelay := stopDelay;
      isPlaying := false;
      stopTimer := None;
      armed := None;
      nextId := 1;
      sent := [];
    }

    /** `clearTimeout(this.stopTimer)` */
    method ClearStopTimer()
      requires Valid()
      modifies this`armed
      ensures Valid() && armed.None?
    {
      armed := None;
    }

    /** `checkPlayback`, given whether the widget shows album art. */
    method CheckPlayback(hasAlbumArt: bool)
      requires Valid()
      modifies this`isPlaying, this`stopTimer, this`armed, this`nextId, this`sent
      ensures Valid()
      ensures hasAlbumArt && !old(isPlaying) ==>
                isPlaying && armed.None? && stopTimer == old(stopTimer) &&
                sent == old(sent) + [ScenesPlay(musicSceneName)]
      ensures !hasAlbumArt && old(isPlaying) ==>
                isPlaying && stopTimer == Some(old(nextId)) && armed == Some(Timer(old(nextId), stopDelay)) &&
                sent == old(sent)
      ensures hasAlbumArt == old(isPlaying) ==>
                isPlaying == old(isPlaying) && stopTimer == old(stopTimer) &&
                armed == old(armed) && sent == old(sent)
    {
      if hasAlbumArt && !isPlaying {
        ClearStopTimer();
        isPlaying := true;
        OnPlay();
      } else if !hasAlbumArt && isPlaying {
        ClearStopTimer();
        stopTimer := Some(nextId);
        armed := Some(Timer(nextId, stopDelay));
        nextId := nextId + 1;
      }
    }

    /** The stop timer expires: back to the return scene. The handle stays set. */
    method FireStopTimer()
      requires Valid() && armed.Some?
      modifies this`isPlaying, this`armed, this`sent
      ensures Valid()
      ensures !isPlaying && armed.None? && stopTimer == old(stopTimer)
      ensures sent == old(sent) + [ScenesPlay(returnSceneName)]
    {
      armed := None;
      isPlaying := false;
      OnStop();
    }

    /** `onPlay` */
    method OnPlay()
      modifies this`sent
      ensures sent == old(sent) + [ScenesPlay(musicSceneName)]
    {
      sent := sent + [ScenesPlay(musicSceneName)];
    }

    /** `onStop` */
    method OnStop()
      modifies this`sent
      ensures sent == old(sent) + [ScenesPlay(returnSceneName)]
    {
      sent := sent + [ScenesPlay(returnSceneName)];
    }
  }
}
