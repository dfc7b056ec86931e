/** MMM-UxPlayNowPlaying node helper: polls the UxPlay metadata file and,
    whenever it changes, parses its `Key: value` lines into a track record
    and sends it to the front end. The file is observed through `FileState`
    values; the cover art that the helper attaches before sending is not
    part of this model. */
module UxPlayNowPlayingHelper {
  import opened Util

  /** The parsed record; a field is `None` while no line set it. */
  datatype Track = Track(album: Option<string>, artist: Option<string>, title: Option<string>)

  const NoFields := Track(None, None, None)

  /** JavaScript truthiness of an optional string. */
  predicate Truthy(s: Option<string>) {
    s.Some? && s.value != ""
  }

  /** A line's key and value: the key runs up to the first ": ", the value
      is the trimmed rest; a line without ": " is all key. */
  function SplitLine(line: string): (r: (string, string))
    ensures !Contains(r.0, ": ")
    ensures IndexOf(line, ": ") < 0 ==> r == (line, "")
    ensures IndexOf(line, ": ") >= 0 ==>
              |r.0| == IndexOf(line, ": ") && |r.0| + 2 <= |line| && line[..|r.0| + 2] == r.0 + ": "
  {
    var k := IndexOf(line, ": ");
    if k < 0 then (line, "")
    else
      PrefixBeforeMatch(line, ": ", k);
      assert line[..k + 2] == line[..k] + line[k..][..2];
      (line[..k], Trim(line[k + 2..]))
  }

  /** The key and value are what `line.split(': ')` gives as first piece
      and as the other pieces re-joined with ": " and trimmed. */
  lemma SplitLineIsSplitJoin(line: string)
    ensures var parts := Split(line, ": ");
            SplitLine(line) == (parts[0], Trim(Join(parts[1..], ": ")))
  {
    var k := IndexOf(line, ": ");
    var parts := Split(line, ": ");
    if k < 0 {
      assert parts == [line];
      assert parts[1..] == [];
    } else {
      var rest := Split(line[k + 2..], ": ");
      assert parts == [line[..k]] + rest;
      assert parts[1..] == rest;
      JoinSplit(line[k + 2..], ": ");
    }
  }

  /** What one line contributes: Album, Artist and Title set their field. */
  function ApplyLine(t: Track, line: string): (r: Track)
    ensures SplitLine(line).0 == "Album" ==> r == t.(album := Some(SplitLine(line).1))
    ensures SplitLine(line).0 == "Artist" ==> r == t.(artist := Some(SplitLine(line).1))
    ensures SplitLine(line).0 == "Title" ==> r == t.(title := Some(SplitLine(line).1))
    ensures SplitLine(line).0 !in {"Album", "Artist", "Title"} ==> r == t
  {
    var (key, value) := SplitLine(line);
    if key == "Album" then t.(album := Some(value))
    else if key == "Artist" then t.(artist := Some(value))
    else if key == "Title" then t.(title := Some(value))
    else t
  }

  /** The record after the lines, applied in order. */
  function Fold(lines: seq<string>): Track {
    if lines == [] then NoFields else ApplyLine(Fold(lines[..|lines| - 1]), lines[|lines| - 1])
  }

  predicate HasKey(line: string, key: string) {
    SplitLine(line).0 == key
  }

  /** A line whose key is not Title leaves the title alone. */
  lemma ApplyLineKeepsTitle(t: Track, line: string)
    requires !HasKey(line, "Title")
    ensures ApplyLine(t, line).title == t.title
  {
  }

  /** The title is the value of the last Title line. */
  lemma {:induction false} LastTitleWins(lines: seq<string>, i: int)
    requires 0 <= i < |lines| && HasKey(lines[i], "Title")
    requires forall j :: i < j < |lines| ==> !HasKey(lines[j], "Title")
    ensures Fold(lines).title == Some(SplitLine(lines[i]).1)
  {
    var init := lines[..|lines| - 1];
    if i < |lines| - 1 {
      assert init[i] == lines[i];
      assert forall j :: i < j < |init| ==> init[j] == lines[j];
      LastTitleWins(init, i);
      ApplyLineKeepsTitle(Fold(init), lines[|lines| - 1]);
    }
  }

  /** Without a Title line there is no title. */
  lemma {:induction false} NoTitleLine(lines: seq<string>)
    requires forall j :: 0 <= j < |lines| ==> !HasKey(lines[j], "Title")
    ensures Fold(lines).title.None?
  {
    if lines != [] {
      var init := lines[..|lines| - 1];
      assert forall j :: 0 <= j < |init| ==> init[j] == lines[j];
      NoTitleLine(init);
      ApplyLineKeepsTitle(Fold(init), lines[|lines| - 1]);
    }
  }

  /** A file of lines with none of the three keys yields an empty record. */
  lemma {:induction false} OtherKeysIgnored(lines: seq<string>)
    requires forall i :: 0 <= i < |lines| ==> SplitLine(lines[i]).0 !in {"Album", "Artist", "Title"}
    ensures Fold(lines) == NoFields
  {
    if lines != [] {
      OtherKeysIgnored(lines[..|lines| - 1]);
    }
  }

  /** The `forEach` over the lines of `parseMetadata`. */
  method CollectTrack(lines: seq<string>) returns (t: Track)
    ensures t == Fold(lines)
  {
    t := NoFields;
    var i := 0;
    while i < |lines|
      invariant 0 <= i <= |lines|
      invariant t == Fold(lines[..i])
    {
      assert lines[..i + 1][..i] == lines[..i];
      t := ApplyLine(t, lines[i]);
      i := i + 1;
    }
    assert lines[..|lines|] == lines;
  }

  /** The record the content of the file yields. */
  function Parse(content: string): Track {
    Fold(Split(Trim(content), "\n"))
  }

  /** One look at the file: `Missing` when stat fails; `content` is `None`
      when the later read fails. */
  datatype FileState = Missing | Present(mtime: int, content: Option<string>)

  /** The track a read of the file shows: the parsed record when it has a
      title or an artist, `None` when the read failed or the record has
      neither. */
  function Reading(content: Option<string>): (r: Option<Track>)
    ensures r.Some? <==> content.Some? && (Truthy(Parse(content.value).title) || Truthy(Parse(content.value).artist))
    ensures r.Some? ==> r.value == Parse(content.value)
  {
    if content.Some? && (Truthy(Parse(content.value).title) || Truthy(Parse(content.value).artist))
    then Some(Parse(content.value)) else None
  }

  /** What one poll leaves: the modification time, the current track, and
      the updates it sends. */
  datatype Poll = Poll(lastModified: int, track: Option<Track>, sends: seq<Option<Track>>)

  /** One poll of the file from the modification time and track kept so far. */
  function PollFile(file: FileState, lastModified: int, track: Option<Track>): (p: Poll)
    ensures p.lastModified >= lastModified && |p.sends| <= 1
    ensures file.Missing? ==> p == Poll(lastModified, None, if track.Some? then [None] else [])
    ensures file.Present? && file.mtime <= lastModified ==> p == Poll(lastModified, track, [])
    ensures file.Present? && file.mtime > lastModified && Reading(file.content).Some? ==>
              p == Poll(file.mtime, Reading(file.content), [Reading(file.content)])
    ensures file.Present? && file.mtime > lastModified && Reading(file.content).None? ==>
              p == Poll(file.mtime, track, [])
  {
    match file
    case Missing => Poll(lastModified, None, if track.Some? then [None] else [])
    case Present(mtime, content) =>
      if mtime <= lastModified then Poll(lastModified, track, [])
      else
        var t := Reading(content);
        if t.Some? then Poll(mtime, t, [t]) else Poll(mtime, track, [])
  }

  /** Polling again an unchanged file changes nothing and sends nothing. */
  lemma PollTwice(file: FileState, lastModified: int, track: Option<Track>)
    ensures var p := PollFile(file, lastModified, track);
            PollFile(file, p.lastModified, p.track) == Poll(p.lastModified, p.track, [])
  {
  }

  class Helper {
    var monitoring: bool
    var lastModified: int
    var currentTrack: Option<Track>
    var checkInterval: nat
    var checkTimer: Option<nat>
    /** `TRACK_UPDATED` payloads sent, in order; `None` is `null`. */
    var sent: seq<Option<Track>>

    /** `start` */
    constructor ()
      ensures !monitoring && lastModified == 0 && currentTrack.None? && checkTimer.None? && sent == []
    {
      monitoring := false;
      lastModified := 0;
      currentTrack := None;
      checkInterval := 0;
      checkTimer := None;
      sent := [];
    }

    /** `parseMetadata`: a record with a title or an artist becomes the
        current track and is sent; anything else changes nothing. */
    method ParseMetadata(content: Option<string>)
      modifies this`currentTrack, this`sent
      ensures content.None? ==> currentTrack == old(currentTrack) && sent == old(sent)
      ensures content.Some? && (Truthy(Parse(content.value).title) || Truthy(Parse(content.value).artist)) ==>
                currentTrack == Some(Parse(content.value)) && sent == old(sent) + [currentTrack]
      ensures content.Some? && !(Truthy(Parse(content.value).title) || Truthy(Parse(content.value).artist)) ==>
                currentTrack == old(currentTrack) && sent == old(sent)
      ensures Reading(content).Some? ==> currentTrack == Reading(content) && sent == old(sent) + [Reading(content)]
    {
      if content.None? {
        return;
      }
      var lines := Split(Trim(content.value), "\n");
      var trackData := CollectTrack(lines);
      if Truthy(trackData.title) || Truthy(trackData.artist) {
        currentTrack := Some(trackData);
        sent := sent + [Some(trackData)];
      }
    }

    /** `checkFiles`: parse only when the file is newer than the last parse;
        a missing file clears the track and sends `null`, once. */
    method CheckFiles(file: FileState)
      modifies this`lastModified, this`currentTrack, this`sent
      ensures lastModified >= old(lastModified)
      ensures file.Missing? ==>
                lastModified == old(lastModified) && currentTrack.None? &&
                sent == old(sent) + (if old(currentTrack).Some? then [None] else [])
      ensures file.Present? && file.mtime <= old(lastModified) ==>
                lastModified == old(lastModified) && currentTrack == old(currentTrack) && sent == old(sent)
      ensures file.Present? && file.mtime > old(lastModified) ==> lastModified == file.mtime
      ensures file.Present? ==> |sent| <= |old(sent)| + 1
      ensures var p := PollFile(file, old(lastModified), old(currentTrack));
              lastModified == p.lastModified && currentTrack == p.track && sent == old(sent) + p.sends
    {
      match file {
        case Missing =>
          if currentTrack.Some? {
            currentTrack := None;
            sent := sent + [None];
          }
        case Present(modified, content) =>
          if modified > lastModified {
            lastModified := modified;
            ParseMetadata(content);
          }
      }
    }

    /** `startMonitoring`: only the first call acts. */
    method StartMonitoring(interval: nat, file: FileState, timerId: nat)
      modifies this
      ensures old(monitoring) ==>
                monitoring && lastModified == old(lastModified) && currentTrack == old(currentTrack) &&
                sent == old(sent) && checkTimer == old(checkTimer)
      ensures !old(monitoring) ==> monitoring && checkInterval == interval && checkTimer == Some(timerId)
      ensures !old(monitoring) ==>
                var p := PollFile(file, old(lastModified), old(currentTrack));
                lastModified == p.lastModified && currentTrack == p.track && sent == old(sent) + p.sends
    {
      if monitoring {
        return;
      }
      monitoring := true;
      checkInterval := interval;
      CheckFiles(file);
      checkTimer := Some(timerId);
    }

    /** `stop`: the polling interval is cancelled and monitoring ends. */
    method Stop()
      modifies this`checkTimer, this`monitoring
      ensures !monitoring && checkTimer.None?
    {
      checkTimer := None;
      monitoring := false;
    }
  }
}
