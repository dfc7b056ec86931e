/** MMM-ScenesLinearBridge: on a linear "next" or "previous" request the
    bridge asks the scenes module for the current scene and then plays the
    neighbouring scene of a fixed, circular order. The bridge keeps no state:
    its behaviour is the notifications it sends. */
module ScenesLinearBridge {
  import opened Util

  /** The fixed circular order of the scenes. */
  const LinearOrder: seq<string> :=
    ["homepage_page", "jokes_and_facts_page", "fantasy_page", "football_page"]

  datatype Direction = Next | Prev

  /** What the bridge sends: the query for the current scene, and the scene to play. */
  datatype Note = ScenesCurrent | ScenesPlay(scene: string)

  /** The answer to a `SCENES_CURRENT` query, as seen by the callback:
      `Answer(None)` when `res?.currentScene?.name` is undefined, and
      `Throws` when evaluating the callback raises. */
  datatype Reply = Answer(currentName: Option<string>) | Throws

  /** The notifications that start a linear move. */
  function DirectionOf(notification: string): (r: Option<Direction>)
    ensures r == Some(Next) <==> notification == "SCENES_LINEAR_NEXT"
    ensures r == Some(Prev) <==> notification == "SCENES_LINEAR_PREV"
  {
    if notification == "SCENES_LINEAR_NEXT" then Some(Next)
    else if notification == "SCENES_LINEAR_PREV" then Some(Prev)
    else None
  }

  /** What the bridge sends at once on a notification: a query, or nothing. */
  function OnNotification(notification: string): (r: seq<Note>)
    ensures |r| <= 1
    ensures r == [ScenesCurrent] <==>
            notification == "SCENES_LINEAR_NEXT" || notification == "SCENES_LINEAR_PREV"
  {
    if DirectionOf(notification).Some? then [ScenesCurrent] else []
  }

  /** `order.indexOf(currentName)`; an undefined name is never in the order. */
  function CurrentIndex(name: Option<string>): (idx: int)
    ensures -1 <= idx < |LinearOrder|
    ensures idx >= 0 <==> name.Some? && name.value in LinearOrder
    ensures idx >= 0 ==> LinearOrder[idx] == name.value
  {
    if name.None? then -1 else Find(LinearOrder, name.value)
  }

  /** The scene at the neighbouring position, with JavaScript's `%`. */
  function Target(dir: Direction, idx: int): (scene: string)
    requires -1 <= idx < |LinearOrder|
    ensures scene in LinearOrder
  {
    var n := |LinearOrder|;
    match dir
    case Next => LinearOrder[JsRem(idx + 1, n)]
    case Prev => LinearOrder[JsRem(idx - 1 + n, n)]
  }

  /** The scene the callback plays for a reply. */
  function OnReply(dir: Direction, reply: Reply): (scene: string)
    ensures scene in LinearOrder
    ensures reply.Throws? ==> scene == LinearOrder[0]
  {
    match reply
    case Throws => LinearOrder[0]
    case Answer(name) => Target(dir, CurrentIndex(name))
  }

  /** One full exchange: the query, then exactly one `SCENES_PLAY` once answered. */
  function Exchange(notification: string, reply: Reply): (r: seq<Note>)
    ensures DirectionOf(notification).None? ==> r == []
    ensures DirectionOf(notification).Some? ==>
              |r| == 2 && r[0] == ScenesCurrent && r[1].ScenesPlay? && r[1].scene in LinearOrder
  {
    match DirectionOf(notification)
    case None => []
    case Some(dir) => [ScenesCurrent, ScenesPlay(OnReply(dir, reply))]
  }

  /** NEXT from position i plays position (i + 1) mod 4; PREV plays (i + 3) mod 4. */
  lemma NeighbourPositions(i: int)
    requires 0 <= i < |LinearOrder|
    ensures OnReply(Next, Answer(Some(LinearOrder[i]))) == LinearOrder[(i + 1) % 4]
    ensures OnReply(Prev, Answer(Some(LinearOrder[i]))) == LinearOrder[(i + 3) % 4]
  {
    assert CurrentIndex(Some(LinearOrder[i])) == i;
  }

  /** PREV from the first scene wraps round to the last. */
  lemma PrevWraps()
    ensures OnReply(Prev, Answer(Some("homepage_page"))) == "football_page"
  {
    NeighbourPositions(0);
  }

  /** A scene that is missing or not in the order counts as position -1. */
  lemma UnknownScene(name: Option<string>)
    requires name.None? || name.value !in LinearOrder
    ensures OnReply(Next, Answer(name)) == LinearOrder[0]
    ensures OnReply(Prev, Answer(name)) == LinearOrder[2]
  {
  }

  /** For every scene of the order, PREV after NEXT comes back to it, and so
      does NEXT after PREV. */
  lemma NextPrevRoundTrip(scene: string)
    requires scene in LinearOrder
    ensures OnReply(Prev, Answer(Some(OnReply(Next, Answer(Some(scene)))))) == scene
    ensures OnReply(Next, Answer(Some(OnReply(Prev, Answer(Some(scene)))))) == scene
  {
    NextThenPrev(scene);
    PrevThenNext(scene);
  }

  lemma NextThenPrev(scene: string)
    requires scene in LinearOrder
    ensures OnReply(Prev, Answer(Some(OnReply(Next, Answer(Some(scene)))))) == scene
  {
    var i := CurrentIndex(Some(scene));
    var j := (i + 1) % 4;
    assert (j + 3) % 4 == i;
    NeighbourPositions(i);
    NeighbourPositions(j);
  }

  lemma PrevThenNext(scene: string)
    requires scene in LinearOrder
    ensures OnReply(Next, Answer(Some(OnReply(Prev, Answer(Some(scene)))))) == scene
  {
    var i := CurrentIndex(Some(scene));
    var k := (i + 3) % 4;
    assert (k + 1) % 4 == i;
    NeighbourPositions(i);
    NeighbourPositions(k);
  }
}
