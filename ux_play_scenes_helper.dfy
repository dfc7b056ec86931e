/** MMM-UxPlayScenes node helper: polls the UxPlay metadata file and tells
    the front end when music starts (`MUSIC_PLAYING`) and stops
    (`MUSIC_STOPPED`). It polls fast while idle and three times slower while
    a track is playing. The file is observed through `FileState` values, the
    helper's start time is a parameter, and the polling intervals are explicit
    timers: `checkTimer` is the handle the helper keeps and `live` maps every
    interval timer still scheduled to its period. */
module UxPlayScenesHelper {
  import opened Util

  /** The socket notifications between the helper and the front end. */
  datatype MusicSignal = MusicPlaying | MusicStopped | FileMissing

  /** One look at the metadata file: `Missing` when stat or read fails. */
  datatype FileState = Missing | Present(mtime: int, content: string)

  /** The trimmed file names a track: non-empty, with a "Title:" and without "no data". */
  function HasValidContent(content: string): (r: bool)
    ensures r ==> |Trim(content)| >= |"Title:"|
    ensures r ==> Contains(Trim(content), "Title:") && !Contains(Trim(content), "no data")
    ensures Trim(content) == [] ==> !r
  {
    var c := Trim(content);
    |c| > 0 && Contains(c, "Title:") && !Contains(c, "no data")
  }

  /** A file made of whitespace only never names a track. */
  lemma BlankContentInvalid(content: string)
    requires forall i :: 0 <= i < |content| ==> IsSpace(content[i])
    ensures !HasValidContent(content)
  {
    TrimAllSpace(content);
  }

  /** The helper sends PLAYING, STOPPED, PLAYING, ... and never `FILE_MISSING`. */
  predicate AlternatesFromPlaying(sent: seq<MusicSignal>) {
    forall i :: 0 <= i < |sent| ==> sent[i] == (if i % 2 == 0 then MusicPlaying else MusicStopped)
  }

  class Helper {
    const startupTime: int
    var monitoring: bool
    var lastModified: int
    var hasTrack: bool
    var checkInterval: nat
    var slowCheckInterval: nat
    var currentInterval: nat
    var checkTimer: Option<nat>
    /** Interval timers still scheduled, with their periods. */
    var live: map<nat, nat>
    var nextId: nat
    /** Socket notifications sent to the front end, in order. */
    var sent: seq<MusicSignal>

    function Expected(track: bool): nat
      reads this
    {
      if track then slowCheckInterval else checkInterval
    }

    /** Before monitoring nothing has happened; once monitoring, the polling
        period follows `hasTrack`, the timer the handle names polls at that
        period, and the signals alternate with `hasTrack` telling which was last. */
    predicate Valid()
      reads this
    {
      (!monitoring ==> !hasTrack && sent == [] && live == map[] && checkTimer.None?) &&
      (monitoring ==> slowCheckInterval == 3 * checkInterval &&
                      currentInterval == Expected(hasTrack)) &&
      (checkTimer.Some? && checkTimer.value in live ==> live[checkTimer.value] == currentInterval) &&
      (checkTimer.Some? ==> checkTimer.value < nextId) &&
      (forall id :: id in live ==> id < nextId) &&
      AlternatesFromPlaying(sent) &&
      (hasTrack <==> |sent| % 2 == 1)
    }

    /** `start` */
    constructor (startupTime: int)
      ensures Valid()
      ensures this.startupTime == startupTime
      ensures !monitoring && lastModified == 0 && !hasTrack && checkTimer.None?
      ensures live == map[] && sent == []
    {
      this.startupTime := startupTime;
      monitoring := false;
      lastModified := 0;
      hasTrack := false;
      checkTimer := None;
      checkInterval, slowCheckInterval, currentInterval := 0, 0, 0;
      live := map[];
      nextId := 1;
      sent := [];
    }

    /** `setInterval`: schedule a new interval timer with a fresh id. */
    method ArmInterval(period: nat) returns (id: nat)
      modifies this`live, this`nextId
      ensures id == old(nextId) && nextId == id + 1
      ensures live == old(live)[id := period]
    {
      id := nextId;
      nextId := nextId + 1;
      live := live[id := period];
    }

    /** How `adjustPollingRate` moves the timers from one state to the next
        when the wanted period is `want`. */
    static predicate Repolled(live0: map<nat, nat>, timer0: Option<nat>, next0: nat, interval0: nat,
                              live1: map<nat, nat>, timer1: Option<nat>, next1: nat, interval1: nat,
                              want: nat)
    {
      if interval0 == want then
        live1 == live0 && timer1 == timer0 && next1 == next0 && interval1 == interval0
      else
        interval1 == want && timer1 == Some(next0) && next1 == next0 + 1 &&
        live1 == (if timer0.Some? then live0 - {timer0.value} else live0)[next0 := want]
    }

    /** `adjustPollingRate`: when the wanted period changed, replace the
        timer the handle names by one with the new period. */
    method AdjustPollingRate()
      requires monitoring && slowCheckInterval == 3 * checkInterval
      requires checkTimer.Some? ==> checkTimer.value < nextId
      requires forall id :: id in live ==> id < nextId
      requires checkTimer.Some? && checkTimer.value in live ==> live[checkTimer.value] == currentInterval
      modifies this`currentInterval, this`checkTimer, this`live, this`nextId
      ensures currentInterval == Expected(hasTrack)
      ensures checkTimer.Some? ==> checkTimer.value < nextId
      ensures forall id :: id in live ==> id < nextId
      ensures checkTimer.Some? && checkTimer.value in live ==> live[checkTimer.value] == currentInterval
      ensures Repolled(old(live), old(checkTimer), old(nextId), old(currentInterval),
                       live, checkTimer, nextId, currentInterval, Expected(hasTrack))
    {
      var newInterval := Expected(hasTrack);
      if newInterval != currentInterval {
        currentInterval := newInterval;
        if checkTimer.Some? {
          live := live - {checkTimer.value};
        }
        var id := ArmInterval(currentInterval);
        checkTimer := Some(id);
      }
    }

    /** A track starts or ends: flip `hasTrack`, adapt the polling, tell the front end. */
    method ChangeTrack(track: bool)
      requires Valid() && monitoring && track != hasTrack
      modifies this`hasTrack, this`sent, this`currentInterval, this`checkTimer, this`live, this`nextId
      ensures Valid() && hasTrack == track
      ensures sent == old(sent) + [if track then MusicPlaying else MusicStopped]
      ensures Repolled(old(live), old(checkTimer), old(nextId), old(currentInterval),
                       live, checkTimer, nextId, currentInterval, Expected(track))
    {
      hasTrack := track;
      AdjustPollingRate();
      sent := sent + [if track then MusicPlaying else MusicStopped];
    }

    /** `checkFile`: one poll of the metadata file. */
    method CheckFile(file: FileState)
      requires Valid() && monitoring
      modifies this`lastModified, this`hasTrack, this`sent, this`currentInterval,
               this`checkTimer, this`live, this`nextId
      ensures Valid() && monitoring
      ensures lastModified >= old(lastModified)
      ensures file.Missing? ==>
                lastModified == old(lastModified) && !hasTrack &&
                sent == old(sent) + (if old(hasTrack) then [MusicStopped] else [])
      ensures file.Present? && file.mtime > old(lastModified) ==> lastModified == file.mtime
      ensures file.Present? && file.mtime <= old(lastModified) ==>
                lastModified == old(lastModified) && hasTrack == old(hasTrack)
      ensures file.Present? && file.mtime <= startupTime ==> hasTrack == old(hasTrack)
      ensures file.Present? && file.mtime > old(lastModified) && file.mtime > startupTime ==>
                hasTrack == HasValidContent(file.content)
      ensures hasTrack == old(hasTrack) ==>
                sent == old(sent) && live == old(live) && checkTimer == old(checkTimer) &&
                nextId == old(nextId) && currentInterval == old(currentInterval)
      ensures hasTrack != old(hasTrack) ==>
                sent == old(sent) + [if hasTrack then MusicPlaying else MusicStopped] &&
                Repolled(old(live), old(checkTimer), old(nextId), old(currentInterval),
                         live, checkTimer, nextId, currentInterval, Expected(hasTrack))
    {
      match file {
        case Missing =>
          if hasTrack {
            ChangeTrack(false);
          }
        case Present(modified, content) =>
          CheckPresentFile(modified, content);
      }
    }

    /** `checkFile` when the file exists: a newer file moves the
        modification time on, and one written after startup decides the
        track from its content. */
    method CheckPresentFile(modified: int, content: string)
      requires Valid() && monitoring
      modifies this`lastModified, this`hasTrack, this`sent, this`currentInterval,
               this`checkTimer, this`live, this`nextId
      ensures Valid() && monitoring
      ensures modified > old(lastModified) ==> lastModified == modified
      ensures modified <= old(lastModified) ==> lastModified == old(lastModified) && hasTrack == old(hasTrack)
      ensures modified <= startupTime ==> hasTrack == old(hasTrack)
      ensures modified > old(lastModified) && modified > startupTime ==> hasTrack == HasValidContent(content)
      ensures hasTrack == old(hasTrack) ==>
                sent == old(sent) && live == old(live) && checkTimer == old(checkTimer) &&
                nextId == old(nextId) && currentInterval == old(currentInterval)
      ensures hasTrack != old(hasTrack) ==>
                sent == old(sent) + [if hasTrack then MusicPlaying else MusicStopped] &&
                Repolled(old(live), old(checkTimer), old(nextId), old(currentInterval),
                         live, checkTimer, nextId, currentInterval, Expected(hasTrack))
    {
      var valid := HasValidContent(content);
      if modified > lastModified && modified > startupTime {
        lastModified := modified;
        if !hasTrack && valid {
          ChangeTrack(true);
        } else if hasTrack && !valid {
          ChangeTrack(false);
        }
      } else if modified > lastModified {
        lastModified := modified;
      }
    }

    /** The first steps of `startMonitoring`: record the configuration. */
    method Configure(interval: nat)
      requires Valid() && !monitoring
      modifies this`monitoring, this`checkInterval, this`slowCheckInterval, this`currentInterval
      ensures Valid() && monitoring && !hasTrack && live == map[] && checkTimer.None?
      ensures checkInterval == interval && slowCheckInterval == 3 * interval
      ensures currentInterval == interval
    {
      monitoring := true;
      checkInterval := interval;
      slowCheckInterval := interval * 3;
      currentInterval := checkInterval;
    }

    /** Whether a poll of `file` leaves a track playing, from `lastModified0`
        and `track0` before it: a newer file written after startup decides
        from its content, a missing file ends the track, anything else keeps it. */
    function PollFinds(file: FileState, lastModified0: int, track0: bool): bool
      reads this
    {
      match file
      case Missing => false
      case Present(mtime, content) =>
        if mtime > lastModified0 && mtime > startupTime then HasValidContent(content) else track0
    }

    /** The modification time a poll of `file` leaves. */
    function PollTime(file: FileState, lastModified0: int): int {
      if file.Present? && file.mtime > lastModified0 then file.mtime else lastModified0
    }

    /** The check `startMonitoring` makes before arming its interval: when it
        finds a track, `adjustPollingRate` arms a slow interval already. */
    method InitialCheck(file: FileState)
      requires Valid() && monitoring && live == map[] && checkTimer.None?
      requires currentInterval == checkInterval
      modifies this`lastModified, this`hasTrack, this`sent, this`currentInterval,
               this`checkTimer, this`live, this`nextId
      ensures Valid() && monitoring
      ensures hasTrack == PollFinds(file, old(lastModified), old(hasTrack))
      ensures lastModified == PollTime(file, old(lastModified))
      ensures sent == old(sent) + (if hasTrack != old(hasTrack) then [if hasTrack then MusicPlaying else MusicStopped] else [])
      ensures hasTrack && checkInterval != 0 ==>
                live == map[old(nextId) := 3 * checkInterval] && checkTimer == Some(old(nextId))
      ensures !(hasTrack && checkInterval != 0) ==> live == map[] && checkTimer.None?
    {
      CheckFile(file);
    }

    /** `startMonitoring` as written: the initial check may already have
        armed a slow interval through `adjustPollingRate`; the handle is then
        overwritten and that interval stays scheduled with no handle. */
    method StartMonitoring(interval: nat, file: FileState)
      requires Valid()
      modifies this
      ensures Valid()
      ensures old(monitoring) ==>
                monitoring && lastModified == old(lastModified) && hasTrack == old(hasTrack) &&
                live == old(live) && checkTimer == old(checkTimer) && sent == old(sent)
      ensures !old(monitoring) ==>
                monitoring && checkInterval == interval && slowCheckInterval == 3 * interval &&
                checkTimer.Some? && checkTimer.value in live && live[checkTimer.value] == currentInterval &&
                |live| == (if hasTrack && interval != 0 then 2 else 1)
      ensures !old(monitoring) ==>
                hasTrack == PollFinds(file, old(lastModified), false) &&
                lastModified == PollTime(file, old(lastModified)) &&
                sent == (if hasTrack then [MusicPlaying] else [])
    {
      if monitoring {
        return;
      }
      Configure(interval);
      InitialCheck(file);
      ghost var leaked := live;
      var id := ArmInterval(currentInterval);
      checkTimer := Some(id);
      TwoTimers(leaked, id, currentInterval);
    }

    /** `startMonitoring` with the handle cleared before the interval is
        armed, so exactly one interval is ever scheduled. */
    method StartMonitoringSingleTimer(interval: nat, file: FileState)
      requires Valid()
      modifies this
      ensures Valid()
      ensures old(monitoring) ==>
                monitoring && lastModified == old(lastModified) && hasTrack == old(hasTrack) &&
                live == old(live) && checkTimer == old(checkTimer) && sent == old(sent)
      ensures !old(monitoring) ==>
                monitoring && checkInterval == interval && slowCheckInterval == 3 * interval &&
                checkTimer.Some? && live == map[checkTimer.value := currentInterval]
      ensures !old(monitoring) ==>
                hasTrack == PollFinds(file, old(lastModified), false) &&
                lastModified == PollTime(file, old(lastModified)) &&
                sent == (if hasTrack then [MusicPlaying] else [])
    {
      if monitoring {
        return;
      }
      Configure(interval);
      InitialCheck(file);
      if checkTimer.Some? {
        live := live - {checkTimer.value};
      }
      assert live == map[];
      var id := ArmInterval(currentInterval);
      checkTimer := Some(id);
    }

    /** A scheduled interval timer fires and polls the file. The new state is
        the one `checkFile` leaves; an interval the handle does not name, such
        as the leaked one, stays scheduled whatever the poll finds. */
    method FireInterval(id: nat, file: FileState)
      requires Valid() && id in live
      modifies this`lastModified, this`hasTrack, this`sent, this`currentInterval,
               this`checkTimer, this`live, this`nextId
      ensures Valid() && monitoring
      ensures lastModified >= old(lastModified)
      ensures file.Missing? ==>
                lastModified == old(lastModified) && !hasTrack &&
                sent == old(sent) + (if old(hasTrack) then [MusicStopped] else [])
      ensures file.Present? && file.mtime > old(lastModified) ==> lastModified == file.mtime
      ensures file.Present? && file.mtime <= old(lastModified) ==>
                lastModified == old(lastModified) && hasTrack == old(hasTrack)
      ensures file.Present? && file.mtime <= startupTime ==> hasTrack == old(hasTrack)
      ensures file.Present? && file.mtime > old(lastModified) && file.mtime > startupTime ==>
                hasTrack == HasValidContent(file.content)
      ensures hasTrack == old(hasTrack) ==>
                sent == old(sent) && live == old(live) && checkTimer == old(checkTimer) &&
                nextId == old(nextId) && currentInterval == old(currentInterval)
      ensures hasTrack != old(hasTrack) ==>
                sent == old(sent) + [if hasTrack then MusicPlaying else MusicStopped] &&
                Repolled(old(live), old(checkTimer), old(nextId), old(currentInterval),
                         live, checkTimer, nextId, currentInterval, Expected(hasTrack))
      ensures old(checkTimer) != Some(id) ==> id in live
    {
      CheckFile(file);
    }
  }

  /** The input of the finding: a fresh helper that starts monitoring with a
      non-zero period and finds a valid track written after start-up sends
      `MUSIC_PLAYING` once and is left with two polling intervals scheduled,
      only one of which its handle names. */
  method StartMonitoringLeaksInterval(startupTime: int, interval: nat, mtime: int, content: string)
    returns (h: Helper)
    requires interval != 0 && mtime > startupTime && mtime > 0 && HasValidContent(content)
    ensures h.hasTrack && h.sent == [MusicPlaying]
    ensures |h.live| == 2 && h.checkTimer.Some? && h.checkTimer.value in h.live
  {
    h := new Helper(startupTime);
    h.StartMonitoring(interval, Present(mtime, content));
  }

  /** The same input with the handle cleared before arming leaves a single
      interval. */
  method StartMonitoringSingleTimerKeepsOne(startupTime: int, interval: nat, mtime: int, content: string)
    returns (h: Helper)
    requires interval != 0 && mtime > startupTime && mtime > 0 && HasValidContent(content)
    ensures h.hasTrack && h.sent == [MusicPlaying]
    ensures |h.live| == 1 && h.checkTimer.Some? && h.checkTimer.value in h.live
  {
    h := new Helper(startupTime);
    h.StartMonitoringSingleTimer(interval, Present(mtime, content));
  }

  /** Adding a fresh key to a map of at most one entry. */
  lemma TwoTimers(m: map<nat, nat>, id: nat, period: nat)
    requires id !in m && |m| <= 1
    ensures |m[id := period]| == |m| + 1
  {
  }

  /** The helper never sends `FILE_MISSING`: every signal it has sent is PLAYING or STOPPED. */
  lemma NeverFileMissing(sent: seq<MusicSignal>, i: int)
    requires AlternatesFromPlaying(sent) && 0 <= i < |sent|
    ensures sent[i] != FileMissing
  {
  }
}
