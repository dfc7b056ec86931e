/** MMM-WakeWordIndicator: shows the state of a Rhasspy/Hermes voice
    assistant from the MQTT messages its node helper relays, and while the
    assistant speaks, reveals the spoken text one word at a time.

    The status timeouts of the `timeouts` dictionary and the word timers are
    explicit: at most one status timeout exists at a time (each message
    clears the dictionary before setting at most one entry), and `liveWords`
    holds the word timers still scheduled, with their delays. The result of
    `JSON.parse` on a `tts/say` payload is a parameter. */
module WakeWordIndicator {
  import opened Util

  datatype Status = Idle | Wake | Listening | Processing | Speaking | Error

  /** What a status timeout does when it expires. */
  datatype Effect = ToIdle | ToListening | ToIdleClearText

  /** An entry of the `timeouts` dictionary: its key, delay and effect. */
  datatype StatusTimer = StatusTimer(key: string, delay: nat, effect: Effect)

  /** `JSON.parse(message)` and the `text` field: `Unparsable` when parsing
      throws or reading `.text` throws (a `null` document); `Parsed("")` when
      the field is absent or falsy. */
  datatype TtsPayload = Unparsable | Parsed(text: string)

  /** Socket notifications from the node helper. */
  datatype SocketNote =
    | MqttMessage(topic: string, message: string, payload: TtsPayload)
    | MqttError
    | MqttDisconnected
    | MqttOffline
    | OtherNote(name: string)

  const SessionStartedTopic := "hermes/dialogueManager/sessionStarted"
  const StartListeningTopic := "hermes/asr/startListening"
  const StopListeningTopic := "hermes/asr/stopListening"
  const SayTopic := "hermes/tts/say"
  const SayFinishedTopic := "hermes/tts/sayFinished"
  const SessionEndedTopic := "hermes/dialogueManager/sessionEnded"

  const WakeToListeningDelay: nat := 500
  const ProcessingDelay: nat := 2000
  const SpeakingFallbackDelay: nat := 30000

  function HotwordTopic(wakeWord: string): string {
    "hermes/hotword/" + wakeWord + "/detected"
  }

  /** Every topic `handleMQTTMessage` reacts to. */
  function HandledTopics(wakeWord: string): seq<string> {
    [HotwordTopic(wakeWord), SessionStartedTopic, StartListeningTopic, StopListeningTopic,
     SayTopic, SayFinishedTopic, SessionEndedTopic]
  }

  /** Configuration the status machine depends on. */
  datatype Config = Config(wakeWord: string, showDuration: nat, listeningDuration: nat,
                           showSpokenText: bool, msPerWord: nat, ellipsisPauseMs: nat)

  /** The status after an MQTT message and the status timeout it sets. */
  datatype Outcome = Outcome(status: Status, timer: Option<StatusTimer>)

  function OnTopic(status: Status, topic: string, cfg: Config): (r: Outcome)
    ensures topic == HotwordTopic(cfg.wakeWord) ==>
              r == Outcome(Wake, Some(StatusTimer("wake", cfg.showDuration, ToIdle)))
    ensures (r.timer.Some? && r.timer.value.effect == ToListening) <==>
            (status == Idle && topic == SessionStartedTopic && topic != HotwordTopic(cfg.wakeWord))
    ensures topic == SayTopic && topic != HotwordTopic(cfg.wakeWord) ==>
              r == Outcome(Speaking, Some(StatusTimer("speaking", SpeakingFallbackDelay, ToIdleClearText)))
    ensures topic == StartListeningTopic && topic != HotwordTopic(cfg.wakeWord) ==>
              r == Outcome(Listening, Some(StatusTimer("listening", cfg.listeningDuration, ToIdle)))
    ensures topic == StopListeningTopic && topic != HotwordTopic(cfg.wakeWord) ==>
              r == Outcome(Processing, Some(StatusTimer("processing", ProcessingDelay, ToIdle)))
    ensures (topic == SayFinishedTopic || topic == SessionEndedTopic) && topic != HotwordTopic(cfg.wakeWord) ==>
              r == Outcome(Idle, None)
    ensures topic !in HandledTopics(cfg.wakeWord) ==> r == Outcome(status, None)
  {
    if topic == HotwordTopic(cfg.wakeWord) then
      Outcome(Wake, Some(StatusTimer("wake", cfg.showDuration, ToIdle)))
    else if topic == SessionStartedTopic then
      if status == Idle then Outcome(Wake, Some(StatusTimer("wake", WakeToListeningDelay, ToListening)))
      else Outcome(status, None)
    else if topic == StartListeningTopic then
      Outcome(Listening, Some(StatusTimer("listening", cfg.listeningDuration, ToIdle)))
    else if topic == StopListeningTopic then
      Outcome(Processing, Some(StatusTimer("processing", ProcessingDelay, ToIdle)))
    else if topic == SayTopic then
      Outcome(Speaking, Some(StatusTimer("speaking", SpeakingFallbackDelay, ToIdleClearText)))
    else if topic == SayFinishedTopic || topic == SessionEndedTopic then
      Outcome(Idle, None)
    else
      Outcome(status, None)
  }

  /** `sessionStarted` acts only from `idle`; elsewhere it keeps the status
      and, since every message clears the timeouts, leaves none pending. */
  lemma SessionStartedOnlyFromIdle(status: Status, cfg: Config)
    requires SessionStartedTopic != HotwordTopic(cfg.wakeWord)
    ensures status == Idle ==>
              OnTopic(status, SessionStartedTopic, cfg) ==
              Outcome(Wake, Some(StatusTimer("wake", WakeToListeningDelay, ToListening)))
    ensures status != Idle ==> OnTopic(status, SessionStartedTopic, cfg) == Outcome(status, None)
  {
  }

  /** No wake word can make the hotword topic collide with another topic the
      module handles, because those topics do not end in "/detected". */
  lemma {:induction false} HotwordTopicDistinct(wakeWord: string, topic: string)
    requires topic in [SessionStartedTopic, StartListeningTopic, StopListeningTopic,
                       SayTopic, SayFinishedTopic, SessionEndedTopic]
    ensures topic != HotwordTopic(wakeWord)
  {
    var h := HotwordTopic(wakeWord);
    assert h[|h| - 9..] == "/detected";
  }

  /** The status a status timeout leaves behind when it expires. */
  function AfterTimeout(e: Effect): Status {
    if e == ToListening then Listening else Idle
  }

  /** A message sets a status timeout exactly for the hotword, a session
      started from `idle`, the two listening topics and `say`; every such
      timeout ends in `idle`, except the one that takes a fresh session from
      `wake` to `listening`. */
  lemma TimeoutsEndIdle(status: Status, topic: string, cfg: Config)
    ensures var r := OnTopic(status, topic, cfg);
            r.timer.Some? <==>
              (topic == HotwordTopic(cfg.wakeWord) || (topic == SessionStartedTopic && status == Idle) ||
               topic == StartListeningTopic || topic == StopListeningTopic || topic == SayTopic)
    ensures var r := OnTopic(status, topic, cfg);
            r.timer.Some? ==>
              (AfterTimeout(r.timer.value.effect) == Idle <==>
               !(topic == SessionStartedTopic && topic != HotwordTopic(cfg.wakeWord)))
  {
    if topic != HotwordTopic(cfg.wakeWord) && topic in HandledTopics(cfg.wakeWord) {
      assert topic in [SessionStartedTopic, StartListeningTopic, StopListeningTopic,
                       SayTopic, SayFinishedTopic, SessionEndedTopic];
    }
    if topic == HotwordTopic(cfg.wakeWord) {
      if topic in [SessionStartedTopic, StartListeningTopic, StopListeningTopic,
                   SayTopic, SayFinishedTopic, SessionEndedTopic] {
        HotwordTopicDistinct(cfg.wakeWord, topic);
      }
    }
  }

  // ---------------------------------------------------------------------------
  // Word-by-word display

  predicate NoSpace(words: seq<string>) {
    forall i :: 0 <= i < |words| ==> !Contains(words[i], " ")
  }

  /** The pieces that are not blank after trimming, in order. */
  function NonBlank(pieces: seq<string>): (r: seq<string>)
    ensures |r| <= |pieces|
    ensures forall i :: 0 <= i < |r| ==> Trim(r[i]) != []
    ensures forall w :: w in r <==> w in pieces && Trim(w) != []
  {
    if pieces == [] then []
    else (if Trim(pieces[0]) != [] then [pieces[0]] else []) + NonBlank(pieces[1..])
  }

  /** Filtering a single piece keeps it exactly when it is not blank. */
  lemma NonBlankSingle(x: string)
    ensures NonBlank([x]) == if Trim(x) != [] then [x] else []
  {
    assert [x][1..] == [];
  }

  lemma ConcatAssoc(x: seq<string>, y: seq<string>, z: seq<string>)
    ensures x + (y + z) == (x + y) + z
  {
  }

  lemma ConsSplit(a: seq<string>, b: seq<string>)
    requires a != []
    ensures a == [a[0]] + a[1..] && a + b == [a[0]] + (a[1..] + b)
  {
  }

  lemma NonBlankCons(x: string, rest: seq<string>)
    ensures NonBlank([x] + rest) == (if Trim(x) != [] then [x] else []) + NonBlank(rest)
  {
    assert ([x] + rest)[1..] == rest;
  }

  /** Filtering distributes over concatenation, so the pieces kept keep
      their order. */
  lemma {:induction false} NonBlankConcat(a: seq<string>, b: seq<string>)
    ensures NonBlank(a + b) == NonBlank(a) + NonBlank(b)
  {
    if a == [] {
      assert a + b == b;
    } else {
      ConsSplit(a, b);
      var head := if Trim(a[0]) != [] then [a[0]] else [];
      NonBlankCons(a[0], a[1..]);
      NonBlankCons(a[0], a[1..] + b);
      NonBlankConcat(a[1..], b);
      ConcatAssoc(head, NonBlank(a[1..]), NonBlank(b));
    }
  }

  /** Filtering keeps only pieces of the list, so pieces without a space
      stay without one. */
  lemma {:induction false} NonBlankNoSpace(pieces: seq<string>)
    requires NoSpace(pieces)
    ensures NoSpace(NonBlank(pieces))
  {
    if pieces != [] {
      var tail := pieces[1..];
      assert NoSpace(tail) by {
        forall i | 0 <= i < |tail| ensures !Contains(tail[i], " ") {
          assert tail[i] == pieces[i + 1];
        }
      }
      NonBlankNoSpace(tail);
      var head := if Trim(pieces[0]) != [] then [pieces[0]] else [];
      NoSpaceConcat(head, NonBlank(tail));
    }
  }

  lemma NoSpaceConcat(a: seq<string>, b: seq<string>)
    requires NoSpace(a) && NoSpace(b)
    ensures NoSpace(a + b)
  {
    forall i | 0 <= i < |a + b| ensures !Contains((a + b)[i], " ") {
      if i < |a| {
        assert (a + b)[i] == a[i];
      } else {
        assert (a + b)[i] == b[i - |a|];
      }
    }
  }

  /** Filtering keeps a list that has no blank piece as it is. */
  lemma {:induction false} NonBlankKeepsAll(pieces: seq<string>)
    requires forall i :: 0 <= i < |pieces| ==> Trim(pieces[i]) != []
    ensures NonBlank(pieces) == pieces
  {
    if pieces != [] {
      NonBlankKeepsAll(pieces[1..]);
    }
  }

  /** `text.split(' ').filter(word => word.trim() !== '')` */
  function Words(text: string): (r: seq<string>)
    ensures r == NonBlank(Split(text, " "))
    ensures forall w :: w in r <==> w in Split(text, " ") && Trim(w) != []
    ensures NoSpace(r)
  {
    var pieces := Split(text, " ");
    assert NoSpace(pieces);
    NonBlankNoSpace(pieces);
    NonBlank(pieces)
  }

  /** A text whose single spaces separate non-blank words is the words of the
      display joined by single spaces. */
  lemma WordsJoin(text: string)
    requires forall i :: 0 <= i < |Split(text, " ")| ==> Trim(Split(text, " ")[i]) != []
    ensures Join(Words(text), " ") == text
  {
    NonBlankKeepsAll(Split(text, " "));
    JoinSplit(text, " ");
  }

  /** The delay before the word after `word`: longer after an ellipsis. */
  function NextDelay(word: string, interval: nat, ellipsisPauseMs: nat): (d: nat)
    ensures d >= interval
    ensures d == interval + ellipsisPauseMs <==> Contains(word, "...") || ellipsisPauseMs == 0
    ensures !Contains(word, "...") ==> d == interval
  {
    if Contains(word, "...") then interval + ellipsisPauseMs else interval
  }

  /** One rendered word and whether it is the word being spoken. */
  datatype Span = Span(word: string, current: bool)

  /** The words shown for position `index`: the first `min(index + 1, |words|)`
      words, with only the word at `index` marked current. */
  function Shown(words: seq<string>, index: nat): (r: seq<Span>)
    ensures |r| == Min(index + 1, |words|)
    ensures forall i :: 0 <= i < |r| ==> r[i].word == words[i] && (r[i].current <==> i == index)
  {
    seq(Min(index + 1, |words|), i requires 0 <= i < Min(index + 1, |words|) => Span(words[i], i == index))
  }

  /** While the index is inside the list exactly one word is current; past the
      end all words are shown and none is current. */
  lemma {:induction false} OneCurrentWord(words: seq<string>, index: nat)
    ensures index < |words| ==> |Shown(words, index)| == index + 1 && Shown(words, index)[index].current
    ensures index >= |words| ==>
              |Shown(words, index)| == |words| &&
              forall i :: 0 <= i < |words| ==> !Shown(words, index)[i].current
  {
  }

  function SpanHtml(s: Span): string {
    "<span class=\"" + (if s.current then "word current-word" else "word spoken-word") + "\">" +
    s.word + "</span>"
  }

  /** The markup of a list of spans, each followed by a space. */
  function Html(spans: seq<Span>): string {
    if spans == [] then "" else Html(spans[..|spans| - 1]) + SpanHtml(spans[|spans| - 1]) + " "
  }

  /** One more span appends its markup and a space. */
  lemma HtmlStep(spans: seq<Span>, i: int)
    requires 0 <= i < |spans|
    ensures Html(spans[..i + 1]) == Html(spans[..i]) + SpanHtml(spans[i]) + " "
  {
    assert spans[..i + 1][..i] == spans[..i];
  }

  /** A message that hands the display a text to speak: `tts/say` (unless
      the hotword topic is the same string) with a payload that does not
      parse, or one whose `text` is non-empty. */
  predicate SaysText(cfg: Config, topic: string, payload: TtsPayload) {
    topic != HotwordTopic(cfg.wakeWord) && topic == SayTopic &&
    (payload.Unparsable? || payload.text != "")
  }

  class Indicator {
    const cfg: Config
    var status: Status
    var statusTimer: Option<(nat, StatusTimer)>
    var spokenText: string
    var currentWords: seq<string>
    var currentWordIndex: nat
    /** The `wordTimers` array: every word timer pushed since the last clear. */
    var wordTimers: seq<nat>
    /** The word timers still scheduled, with their delays. */
    var liveWords: map<nat, nat>
    var nextId: nat

    /** At most one word timer is scheduled, it is in `wordTimers`, and it is
        scheduled only while a word remains to be shown. */
    predicate Valid()
      reads this
    {
      |liveWords| <= 1 &&
      (forall id :: id in liveWords ==> id in wordTimers && id < nextId) &&
      (forall i :: 0 <= i < |wordTimers| ==> wordTimers[i] < nextId) &&
      (statusTimer.Some? ==> statusTimer.value.0 < nextId) &&
      (liveWords != map[] ==> currentWordIndex < |currentWords|) &&
      currentWordIndex <= |currentWords|
    }

    /** `start` */
    constructor (cfg: Config)
      ensures Valid() && this.cfg == cfg
      ensures status == Idle && statusTimer.None? && spokenText == ""
      ensures currentWords == [] && currentWordIndex == 0 && wordTimers == [] && liveWords == map[]
    {
      this.cfg := cfg;
      status := Idle;
      statusTimer := None;
      spokenText := "";
      currentWords := [];
      currentWordIndex := 0;
      wordTimers := [];
      liveWords := map[];
      nextId := 1;
    }

    /** `clearWordTimers` */
    method ClearWordTimers()
      requires Valid()
      modifies this`wordTimers, this`liveWords
      ensures Valid() && wordTimers == [] && liveWords == map[]
    {
      liveWords := map[];
      wordTimers := [];
    }

    /** `displayNextWord`: schedule the next word while one remains. */
    method DisplayNextWord()
      requires Valid() && liveWords == map[]
      modifies this`wordTimers, this`liveWords, this`nextId
      ensures Valid()
      ensures currentWordIndex < |currentWords| ==> old(nextId) in liveWords
      ensures currentWordIndex < |currentWords| ==>
                liveWords == map[old(nextId) := NextDelay(currentWords[currentWordIndex], cfg.msPerWord, cfg.ellipsisPauseMs)] &&
                wordTimers == old(wordTimers) + [old(nextId)]
      ensures currentWordIndex >= |currentWords| ==> liveWords == map[] && wordTimers == old(wordTimers)
      ensures nextId >= old(nextId)
    {
      if currentWordIndex < |currentWords| {
        var word := currentWords[currentWordIndex];
        var delay := NextDelay(word, cfg.msPerWord, cfg.ellipsisPauseMs);
        var id := nextId;
        nextId := nextId + 1;
        liveWords := map[id := delay];
        wordTimers := wordTimers + [id];
      }
    }

    /** The body of `startWordByWordDisplay` once there is text to show:
        restart the word list from the first word. */
    method RestartWords(words: seq<string>)
      requires Valid()
      modifies this`currentWords, this`currentWordIndex, this`wordTimers, this`liveWords, this`nextId
      ensures Valid() && nextId >= old(nextId)
      ensures currentWords == words && currentWordIndex == 0
      ensures currentWords == [] <==> liveWords == map[]
    {
      ClearWordTimers();
      currentWords := words;
      currentWordIndex := 0;
      DisplayNextWord();
    }

    /** `startWordByWordDisplay` */
    method StartWordByWordDisplay()
      requires Valid()
      modifies this`currentWords, this`currentWordIndex, this`wordTimers, this`liveWords, this`nextId
      ensures Valid() && nextId >= old(nextId)
      ensures !cfg.showSpokenText || spokenText == "" ==>
                currentWords == old(currentWords) && currentWordIndex == old(currentWordIndex) &&
                liveWords == old(liveWords) && wordTimers == old(wordTimers)
      ensures cfg.showSpokenText && spokenText != "" ==>
                currentWords == Words(spokenText) && currentWordIndex == 0 &&
                (currentWords == [] <==> liveWords == map[])
    {
      if !cfg.showSpokenText || spokenText == "" {
        return;
      }
      RestartWords(Words(spokenText));
    }

    /** A word timer expires: advance to the next word and schedule the one after. */
    method FireWordTimer(id: nat)
      requires Valid() && id in liveWords
      modifies this`currentWordIndex, this`wordTimers, this`liveWords, this`nextId
      ensures Valid()
      ensures currentWordIndex == old(currentWordIndex) + 1
      ensures currentWordIndex < |currentWords| ==>
                liveWords == map[old(nextId) := NextDelay(currentWords[currentWordIndex], cfg.msPerWord, cfg.ellipsisPauseMs)] &&
                wordTimers == old(wordTimers) + [old(nextId)]
      ensures currentWordIndex >= |currentWords| ==> liveWords == map[] && wordTimers == old(wordTimers)
    {
      liveWords := map[];
      currentWordIndex := currentWordIndex + 1;
      DisplayNextWord();
    }

    /** `handleMQTTMessage`: clear the status timeouts, then react to the topic. */
    method HandleMqttMessage(topic: string, message: string, payload: TtsPayload)
      requires Valid()
      modifies this
      ensures Valid()
      ensures status == OnTopic(old(status), topic, cfg).status
      ensures statusTimer.None? <==> OnTopic(old(status), topic, cfg).timer.None?
      ensures statusTimer.Some? ==> statusTimer.value.1 == OnTopic(old(status), topic, cfg).timer.value
      ensures statusTimer.Some? ==> old(statusTimer).None? || statusTimer.value.0 != old(statusTimer).value.0
      ensures topic != HotwordTopic(cfg.wakeWord) && (topic == SayFinishedTopic || topic == SessionEndedTopic) ==>
                spokenText == ""
      ensures topic != HotwordTopic(cfg.wakeWord) && topic == SayTopic ==>
                spokenText == (match payload
                               case Unparsable => message
                               case Parsed(text) => if text != "" then text else old(spokenText))
      ensures topic != SayTopic && topic != SayFinishedTopic && topic != SessionEndedTopic ==>
                spokenText == old(spokenText) && currentWords == old(currentWords) &&
                liveWords == old(liveWords)
      ensures SaysText(cfg, topic, payload) && cfg.showSpokenText && spokenText != "" ==>
                currentWords == Words(spokenText) && currentWordIndex == 0 &&
                (currentWords == [] <==> liveWords == map[])
      ensures !(SaysText(cfg, topic, payload) && cfg.showSpokenText && spokenText != "") ==>
                currentWords == old(currentWords) && currentWordIndex == old(currentWordIndex) &&
                liveWords == old(liveWords) && wordTimers == old(wordTimers)
    {
      statusTimer := None;
      var outcome := OnTopic(status, topic, cfg);
      UpdateSpokenText(topic, message, payload);
      SetStatus(outcome);
    }

    /** The text half of `handleMQTTMessage`: a spoken text starts the word
        display, the end of speech or of the session clears the text. */
    method UpdateSpokenText(topic: string, message: string, payload: TtsPayload)
      requires Valid()
      modifies this`spokenText, this`currentWords, this`currentWordIndex, this`wordTimers, this`liveWords, this`nextId
      ensures Valid() && nextId >= old(nextId)
      ensures topic != HotwordTopic(cfg.wakeWord) && (topic == SayFinishedTopic || topic == SessionEndedTopic) ==>
                spokenText == ""
      ensures topic != HotwordTopic(cfg.wakeWord) && topic == SayTopic ==>
                spokenText == (match payload
                               case Unparsable => message
                               case Parsed(text) => if text != "" then text else old(spokenText))
      ensures topic != SayTopic && topic != SayFinishedTopic && topic != SessionEndedTopic ==>
                spokenText == old(spokenText) && currentWords == old(currentWords) &&
                liveWords == old(liveWords)
      ensures SaysText(cfg, topic, payload) && cfg.showSpokenText && spokenText != "" ==>
                currentWords == Words(spokenText) && currentWordIndex == 0 &&
                (currentWords == [] <==> liveWords == map[])
      ensures !(SaysText(cfg, topic, payload) && cfg.showSpokenText && spokenText != "") ==>
                currentWords == old(currentWords) && currentWordIndex == old(currentWordIndex) &&
                liveWords == old(liveWords) && wordTimers == old(wordTimers)
    {
      if topic != HotwordTopic(cfg.wakeWord) && topic == SayTopic {
        match payload {
          case Unparsable =>
            spokenText := message;
            StartWordByWordDisplay();
          case Parsed(text) =>
            if text != "" {
              spokenText := text;
              StartWordByWordDisplay();
            }
        }
      } else if topic != HotwordTopic(cfg.wakeWord) && (topic == SayFinishedTopic || topic == SessionEndedTopic) {
        spokenText := "";
      }
    }

    /** The status half of `handleMQTTMessage`: the new status, and a fresh
        timeout when the topic asks for one. */
    method SetStatus(outcome: Outcome)
      requires Valid() && statusTimer.None?
      modifies this`status, this`statusTimer, this`nextId
      ensures Valid() && status == outcome.status
      ensures statusTimer.None? <==> outcome.timer.None?
      ensures statusTimer.Some? ==> statusTimer.value == (old(nextId), outcome.timer.value)
      ensures nextId >= old(nextId)
    {
      status := outcome.status;
      if outcome.timer.Some? {
        statusTimer := Some((nextId, outcome.timer.value));
        nextId := nextId + 1;
      }
    }

    /** The pending status timeout expires. */
    method FireStatusTimer()
      requires Valid() && statusTimer.Some?
      modifies this`status, this`statusTimer, this`spokenText
      ensures Valid() && statusTimer.None?
      ensures status == AfterTimeout(old(statusTimer).value.1.effect)
      ensures spokenText == (if old(statusTimer).value.1.effect == ToIdleClearText then "" else old(spokenText))
    {
      var effect := statusTimer.value.1.effect;
      statusTimer := None;
      match effect {
        case ToIdle => status := Idle;
        case ToListening => status := Listening;
        case ToIdleClearText =>
          status := Idle;
          spokenText := "";
      }
    }

    /** `socketNotificationReceived`: errors and disconnects set the status
        without touching the pending timeout. */
    method SocketNotificationReceived(note: SocketNote)
      requires Valid()
      modifies this
      ensures Valid()
      ensures note.MqttError? ==> status == Error && statusTimer == old(statusTimer)
      ensures note.MqttDisconnected? || note.MqttOffline? ==> status == Idle && statusTimer == old(statusTimer)
      ensures note.OtherNote? ==> status == old(status) && statusTimer == old(statusTimer)
      ensures note.MqttMessage? ==> status == OnTopic(old(status), note.topic, cfg).status
      ensures note.MqttMessage? ==> (statusTimer.None? <==> OnTopic(old(status), note.topic, cfg).timer.None?)
      ensures note.MqttMessage? && statusTimer.Some? ==> statusTimer.value.1 == OnTopic(old(status), note.topic, cfg).timer.value
      ensures note.MqttMessage? && note.topic != HotwordTopic(cfg.wakeWord) && note.topic == SayTopic ==>
                spokenText == (match note.payload
                               case Unparsable => note.message
                               case Parsed(text) => if text != "" then text else old(spokenText))
      ensures note.MqttMessage? && note.topic != HotwordTopic(cfg.wakeWord) &&
              (note.topic == SayFinishedTopic || note.topic == SessionEndedTopic) ==>
                spokenText == ""
      ensures note.MqttMessage? && note.topic != SayTopic && note.topic != SayFinishedTopic &&
              note.topic != SessionEndedTopic ==>
                spokenText == old(spokenText)
      ensures note.MqttMessage? && SaysText(cfg, note.topic, note.payload) && cfg.showSpokenText && spokenText != "" ==>
                currentWords == Words(spokenText) && currentWordIndex == 0 &&
                (currentWords == [] <==> liveWords == map[])
      ensures !(note.MqttMessage? && SaysText(cfg, note.topic, note.payload) && cfg.showSpokenText && spokenText != "") ==>
                currentWords == old(currentWords) && currentWordIndex == old(currentWordIndex) &&
                liveWords == old(liveWords) && wordTimers == old(wordTimers)
      ensures !note.MqttMessage? ==> spokenText == old(spokenText)
    {
      match note {
        case MqttMessage(topic, message, payload) => HandleMqttMessage(topic, message, payload);
        case MqttError => status := Error;
        case MqttDisconnected => status := Idle;
        case MqttOffline => status := Idle;
        case OtherNote(_) =>
      }
    }

    /** `renderSpokenText`: the markup of the words spoken so far, or the
        whole text while there are no words. */
    method RenderSpokenText() returns (html: string)
      requires Valid()
      ensures currentWords == [] ==> html == spokenText
      ensures currentWords != [] ==> html == Html(Shown(currentWords, currentWordIndex))
    {
      if |currentWords| == 0 {
        return spokenText;
      }
      html := "";
      var wordsToShow := Min(currentWordIndex + 1, |currentWords|);
      ghost var shown := Shown(currentWords, currentWordIndex);
      var i := 0;
      while i < wordsToShow
        invariant 0 <= i <= wordsToShow
        invariant html == Html(shown[..i])
      {
        var word := currentWords[i];
        var isCurrentWord := i == currentWordIndex;
        HtmlStep(shown, i);
        html := html + SpanHtml(Span(word, isCurrentWord)) + " ";
        i := i + 1;
      }
      assert shown[..wordsToShow] == shown;
    }
  }
}
