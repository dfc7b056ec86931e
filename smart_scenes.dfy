/** MMM-SmartScenes: every user interaction "holds" the current scene. The
    first interaction pauses the scene rotation and arms a resume timer; later
    interactions only re-arm it; when the timer fires the rotation resumes.

    Timers are explicit: `extendedTimer` is the handle the module keeps, and
    `armed` is the extension timer the event loop will still fire, with its
    delay (the two differ after `Suspend`, which cancels the timer but keeps
    the handle). Manual scene changes schedule a further extension 1000 ms
    later; those timers carry no handle, and `delayed` lists their delays in
    the order they were scheduled. */
module SmartScenes {
  import opened Util

  /** The eight notifications that count as a user interaction. */
  const InteractionNames: seq<string> := [
    "CLOWN_MODE_CHANGED", "SCENES_NEXT", "SCENES_PREV", "SCENES_PLAY",
    "SCENES_PAUSE", "VOLUME_UP", "VOLUME_DOWN", "USER_PRESENCE"]

  /** The delay before a manual scene change extends the new scene. */
  const SceneChangeDelay: nat := 1000

  datatype Note = ScenesPause | ScenesResume

  /** A scheduled timer: the id `setTimeout` returned and its delay. */
  datatype Timer = Timer(id: nat, delay: nat)

  function IsUserInteraction(notification: string): (r: bool)
    ensures r <==> exists i :: 0 <= i < |InteractionNames| && InteractionNames[i] == notification
  {
    notification in InteractionNames
  }

  predicate IsSceneChange(notification: string) {
    notification == "SCENES_NEXT" || notification == "SCENES_PREV" || notification == "SCENES_PLAY"
  }

  /** Every manual scene change is also an interaction. */
  lemma SceneChangeIsInteraction(notification: string)
    requires IsSceneChange(notification)
    ensures IsUserInteraction(notification)
  {
    assert InteractionNames[1] == "SCENES_NEXT";
    assert InteractionNames[2] == "SCENES_PREV";
    assert InteractionNames[3] == "SCENES_PLAY";
  }

  /** The notifications sent so far alternate PAUSE, RESUME, PAUSE, ... */
  predicate Alternates(sent: seq<Note>) {
    forall i :: 0 <= i < |sent| ==> sent[i] == (if i % 2 == 0 then ScenesPause else ScenesResume)
  }

  class SmartScenes {
    const extendedDuration: nat
    var isExtended: bool
    var extendedTimer: Option<nat>
    var interactionCount: nat
    /** The extension timer still scheduled in the event loop, if any. */
    var armed: Option<Timer>
    /** The delays of the scene-change extensions scheduled and not yet run,
        oldest first. */
    var delayed: seq<nat>
    /** The next timer id the event loop hands out. */
    var nextId: nat
    /** Every notification the module has sent, in order. */
    var sent: seq<Note>

    /** At most one extension timer is scheduled, it is the one the handle
        names, it is scheduled only while extended, and PAUSE and RESUME
        alternate with the last one sent matching `isExtended`. */
    predicate Valid()
      reads this
    {
      (armed.Some? ==> extendedTimer == Some(armed.value.id) && isExtended) &&
      (extendedTimer.Some? ==> extendedTimer.value < nextId) &&
      Alternates(sent) &&
      (isExtended <==> |sent| % 2 == 1)
    }

    /** `start` */
    constructor (extendedDuration: nat)
      ensures Valid()
      ensures this.extendedDuration == extendedDuration
      ensures !isExtended && extendedTimer.None? && interactionCount == 0
      ensures armed.None? && delayed == [] && sent == []
    {
      this.extendedDuration := extendedDuration;
      isExtended := false;
      extendedTimer := None;
      interactionCount := 0;
      armed := None;
      delayed := [];
      nextId := 1;
      sent := [];
    }

    /** `resetExtensionTimer`: cancel the timer the handle names, arm a new one. */
    method ResetExtensionTimer()
      requires Valid() && isExtended
      modifies this
      ensures Valid()
      ensures extendedTimer.Some? && armed == Some(Timer(extendedTimer.value, extendedDuration))
      ensures old(extendedTimer).Some? ==> extendedTimer != old(extendedTimer)
      ensures isExtended && sent == old(sent) && interactionCount == old(interactionCount)
      ensures delayed == old(delayed)
    {
      if extendedTimer.Some? {
        if armed.Some? && Some(armed.value.id) == extendedTimer {
          armed := None;
        }
      }
      var id := nextId;
      nextId := nextId + 1;
      extendedTimer := Some(id);
      armed := Some(Timer(id, extendedDuration));
    }

    /** `extendCurrentScene`: pause the rotation once, and (re)arm the timer. */
    method ExtendCurrentScene()
      requires Valid()
      modifies this
      ensures Valid()
      ensures isExtended && extendedTimer.Some? && armed == Some(Timer(extendedTimer.value, extendedDuration))
      ensures old(extendedTimer).Some? ==> extendedTimer != old(extendedTimer)
      ensures sent == old(sent) + (if old(isExtended) then [] else [ScenesPause])
      ensures interactionCount == old(interactionCount)
      ensures delayed == old(delayed)
    {
      if isExtended {
        ResetExtensionTimer();
        return;
      }
      isExtended := true;
      sent := sent + [ScenesPause];
      ResetExtensionTimer();
    }

    /** `handleUserInteraction` */
    method HandleUserInteraction()
      requires Valid()
      modifies this
      ensures Valid()
      ensures interactionCount == old(interactionCount) + 1
      ensures isExtended && extendedTimer.Some? && armed == Some(Timer(extendedTimer.value, extendedDuration))
      ensures old(extendedTimer).Some? ==> extendedTimer != old(extendedTimer)
      ensures sent == old(sent) + (if old(isExtended) then [] else [ScenesPause])
      ensures delayed == old(delayed)
    {
      interactionCount := interactionCount + 1;
      ExtendCurrentScene();
    }

    /** `handleSceneChange`: schedule one more extension after `SceneChangeDelay`. */
    method HandleSceneChange(notification: string)
      requires Valid()
      modifies this
      ensures Valid()
      ensures delayed == old(delayed) + (if IsSceneChange(notification) then [SceneChangeDelay] else [])
      ensures isExtended == old(isExtended) && extendedTimer == old(extendedTimer) && armed == old(armed)
      ensures sent == old(sent) && interactionCount == old(interactionCount)
    {
      if IsSceneChange(notification) {
        delayed := delayed + [SceneChangeDelay];
      }
    }

    /** `notificationReceived` */
    method NotificationReceived(notification: string)
      requires Valid()
      modifies this
      ensures Valid()
      ensures interactionCount == old(interactionCount) + (if IsUserInteraction(notification) then 1 else 0)
      ensures delayed == old(delayed) + (if IsSceneChange(notification) then [SceneChangeDelay] else [])
      ensures IsUserInteraction(notification) ==>
                isExtended && extendedTimer.Some? && armed == Some(Timer(extendedTimer.value, extendedDuration)) &&
                (old(extendedTimer).Some? ==> extendedTimer != old(extendedTimer)) &&
                sent == old(sent) + (if old(isExtended) then [] else [ScenesPause])
      ensures !IsUserInteraction(notification) ==>
                isExtended == old(isExtended) && extendedTimer == old(extendedTimer) &&
                armed == old(armed) && sent == old(sent)
    {
      if IsUserInteraction(notification) {
        HandleUserInteraction();
      }
      if IsSceneChange(notification) {
        HandleSceneChange(notification);
      }
    }

    /** `resumeNormalScenes` */
    method ResumeNormalScenes()
      requires Valid() && isExtended && armed.None?
      modifies this
      ensures Valid()
      ensures !isExtended && extendedTimer.None? && armed.None?
      ensures sent == old(sent) + [ScenesResume]
      ensures interactionCount == old(interactionCount)
      ensures delayed == old(delayed)
    {
      isExtended := false;
      extendedTimer := None;
      sent := sent + [ScenesResume];
    }

    /** The extension timer expires: the rotation resumes, once. */
    method FireExtensionTimer()
      requires Valid() && armed.Some?
      modifies this
      ensures Valid()
      ensures !isExtended && extendedTimer.None? && armed.None?
      ensures sent == old(sent) + [ScenesResume]
      ensures interactionCount == old(interactionCount)
      ensures delayed == old(delayed)
    {
      armed := None;
      ResumeNormalScenes();
    }

    /** A scene-change extension scheduled earlier runs. */
    method FireDelayedExtension()
      requires Valid() && delayed != []
      modifies this
      ensures Valid()
      ensures delayed == old(delayed)[1..]
      ensures isExtended && extendedTimer.Some? && armed == Some(Timer(extendedTimer.value, extendedDuration))
      ensures old(extendedTimer).Some? ==> extendedTimer != old(extendedTimer)
      ensures sent == old(sent) + (if old(isExtended) then [] else [ScenesPause])
      ensures interactionCount == old(interactionCount)
    {
      delayed := delayed[1..];
      ExtendCurrentScene();
    }

    /** `suspend`: cancels the extension timer but keeps the handle and the
        extended flag, so the rotation stays paused until a new interaction. */
    method Suspend()
      requires Valid()
      modifies this
      ensures Valid()
      ensures armed.None?
      ensures isExtended == old(isExtended) && extendedTimer == old(extendedTimer)
      ensures sent == old(sent) && interactionCount == old(interactionCount)
      ensures delayed == old(delayed)
    {
      if extendedTimer.Some? {
        armed := None;
      }
    }
  }

  /** A run of events, as the event loop may deliver them. */
  datatype Event = Notify(name: string) | ExtensionExpires | DelayedExtensionRuns | SuspendModule

  /** The events a state allows: a timer can only expire while it is scheduled. */
  predicate Enabled(m: SmartScenes, e: Event)
    reads m
  {
    match e
    case ExtensionExpires => m.armed.Some?
    case DelayedExtensionRuns => m.delayed != []
    case _ => true
  }

  /** Over any run from `start`, the notifications sent alternate PAUSE,
      RESUME, PAUSE, ..., beginning with PAUSE. */
  method AlternationOverAnyRun(extendedDuration: nat, events: seq<Event>) returns (sent: seq<Note>)
    ensures Alternates(sent)
    ensures |sent| > 0 ==> sent[0] == ScenesPause
  {
    var m := new SmartScenes(extendedDuration);
    var i := 0;
    while i < |events|
      invariant 0 <= i <= |events|
      invariant m.Valid()
    {
      var e := events[i];
      if Enabled(m, e) {
        match e {
          case Notify(name) => m.NotificationReceived(name);
          case ExtensionExpires => m.FireExtensionTimer();
          case DelayedExtensionRuns => m.FireDelayedExtension();
          case SuspendModule => m.Suspend();
        }
      }
      i := i + 1;
    }
    sent := m.sent;
  }
}
