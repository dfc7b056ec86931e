/** MMM-ClownModeHelper front end: keeps the clown-mode flag, changed by
    commands arriving from its node helper, and forwards scene requests to the
    scenes module. `Respond` is the reaction to one socket notification; the
    `Helper` class applies it to its fields. */
module ClownModeHelper {
  import opened Util

  datatype Note =
    | ClownModeChanged(active: bool)
    | ScenesPause
    | ScenesResume
    /** `scene` is `payload.scene`, which may be undefined. */
    | ScenesPlay(scene: Option<string>)

  datatype Reaction = Reaction(active: bool, notes: seq<Note>)

  predicate IsClownCommand(notification: string) {
    notification == "CLOWN_MODE_TOGGLE" || notification == "CLOWN_MODE_ON" ||
    notification == "CLOWN_MODE_OFF"
  }

  /** The new flag and the notifications sent for one socket notification. */
  function Respond(active: bool, notification: string, scene: Option<string>): (r: Reaction)
    ensures |r.notes| <= 1
    ensures IsClownCommand(notification) <==> |r.notes| == 1 && r.notes[0] == ClownModeChanged(r.active)
    ensures !IsClownCommand(notification) ==> r.active == active
  {
    if notification == "CLOWN_MODE_TOGGLE" then Reaction(!active, [ClownModeChanged(!active)])
    else if notification == "CLOWN_MODE_ON" then Reaction(true, [ClownModeChanged(true)])
    else if notification == "CLOWN_MODE_OFF" then Reaction(false, [ClownModeChanged(false)])
    else if notification == "SCENES_PAUSE_REQUEST" then Reaction(active, [ScenesPause])
    else if notification == "SCENES_RESUME_REQUEST" then Reaction(active, [ScenesResume])
    else if notification == "SCENES_PLAY_REQUEST" then Reaction(active, [ScenesPlay(scene)])
    else Reaction(active, [])
  }

  /** Two toggles restore the flag, and each reports the flag it set. */
  lemma ToggleTwice(active: bool, scene: Option<string>)
    ensures Respond(Respond(active, "CLOWN_MODE_TOGGLE", scene).active, "CLOWN_MODE_TOGGLE", scene).active == active
    ensures Respond(active, "CLOWN_MODE_TOGGLE", scene).notes == [ClownModeChanged(!active)]
  {
  }

  /** ON and OFF set the flag whatever it was, so repeating them changes nothing. */
  lemma OnOffIdempotent(active: bool, scene: Option<string>)
    ensures Respond(active, "CLOWN_MODE_ON", scene).active
    ensures !Respond(active, "CLOWN_MODE_OFF", scene).active
    ensures Respond(Respond(active, "CLOWN_MODE_ON", scene).active, "CLOWN_MODE_ON", scene) ==
            Respond(active, "CLOWN_MODE_ON", scene).(active := true)
  {
  }

  /** Scene requests are forwarded one to one and leave the flag alone. */
  lemma Forwarding(active: bool, scene: Option<string>)
    ensures Respond(active, "SCENES_PAUSE_REQUEST", scene) == Reaction(active, [ScenesPause])
    ensures Respond(active, "SCENES_RESUME_REQUEST", scene) == Reaction(active, [ScenesResume])
    ensures Respond(active, "SCENES_PLAY_REQUEST", scene) == Reaction(active, [ScenesPlay(scene)])
  {
  }

  /** Any other notification changes nothing and sends nothing. */
  lemma UnknownIgnored(active: bool, notification: string, scene: Option<string>)
    requires !IsClownCommand(notification)
    requires notification != "SCENES_PAUSE_REQUEST" && notification != "SCENES_RESUME_REQUEST"
    requires notification != "SCENES_PLAY_REQUEST"
    ensures Respond(active, notification, scene) == Reaction(active, [])
  {
  }

  class Helper {
    var clownModeActive: bool
    var sent: seq<Note>

    /** `start`: clown mode is off. */
    constructor ()
      ensures !clownModeActive && sent == []
    {
      clownModeActive := false;
      sent := [];
    }

    /** `socketNotificationReceived` */
    method SocketNotificationReceived(notification: string, scene: Option<string>)
      modifies this
      ensures clownModeActive == Respond(old(clownModeActive), notification, scene).active
      ensures sent == old(sent) + Respond(old(clownModeActive), notification, scene).notes
    {
      if notification == "CLOWN_MODE_TOGGLE" {
        clownModeActive := !clownModeActive;
        sent := sent + [ClownModeChanged(clownModeActive)];
      } else if notification == "CLOWN_MODE_ON" {
        clownModeActive := true;
        sent := sent + [ClownModeChanged(true)];
      } else if notification == "CLOWN_MODE_OFF" {
        clownModeActive := false;
        sent := sent + [ClownModeChanged(false)];
      } else if notification == "SCENES_PAUSE_REQUEST" {
        sent := sent + [ScenesPause];
      } else if notification == "SCENES_RESUME_REQUEST" {
        sent := sent + [ScenesResume];
      } else if notification == "SCENES_PLAY_REQUEST" {
        sent := sent + [ScenesPlay(scene)];
      }
    }
  }
}
