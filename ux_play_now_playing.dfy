/** MMM-UxPlayNowPlaying front end: keeps the track the helper last sent and
    redraws, with an animation when the track changed. Redraws are recorded
    as `Redraw` values; whether the module's wrapper is in the document is a
    parameter. */
module UxPlayNowPlaying {
  import opened Util
  import opened UxPlayNowPlayingHelper

  datatype Transition = Fade | Slide | FadeSlide | Scale

  /** A plain `updateDom`, or one of the track-change animations. */
  datatype Redraw = Plain | Animated(transition: Transition)

  /** The animation a `trackChangeTransition` setting names, if any. */
  function TransitionNamed(name: string): (r: Option<Transition>)
    ensures r.None? <==> name !in {"fade", "slide", "fadeSlide", "scale"}
  {
    if name == "fade" then Some(Fade)
    else if name == "slide" then Some(Slide)
    else if name == "fadeSlide" then Some(FadeSlide)
    else if name == "scale" then Some(Scale)
    else None
  }

  /** An update is a track change when no track was shown or its title or
      artist differ; the album does not count. */
  function IsTrackChange(current: Option<Track>, next: Track): (r: bool)
    ensures current.None? ==> r
    ensures current.Some? && current.value.title == next.title && current.value.artist == next.artist ==> !r
    ensures current.Some? && (current.value.title != next.title || current.value.artist != next.artist) ==> r
  {
    current.None? || current.value.title != next.title || current.value.artist != next.artist
  }

  /** A new album alone is not a track change. */
  lemma AlbumIgnored(t: Track, album: Option<string>)
    ensures !IsTrackChange(Some(t), t.(album := album))
  {
  }

  /** `animateTrackChange`: without the wrapper, or for an unknown name, a plain redraw. */
  function AnimationFor(wrapperPresent: bool, transitionName: string): (r: Redraw)
    ensures !wrapperPresent ==> r == Plain
    ensures r == Plain <==> !wrapperPresent || TransitionNamed(transitionName).None?
  {
    if !wrapperPresent then Plain
    else match TransitionNamed(transitionName)
      case None => Plain
      case Some(t) => Animated(t)
  }

  /** The rows `getDom` shows for a track. */
  datatype Rows = Rows(title: string, artist: string, album: Option<string>)

  function RowsFor(t: Track): (r: Rows)
    ensures r.title == (if Truthy(t.title) then t.title.value else "Unknown Title")
    ensures r.artist == (if Truthy(t.artist) then t.artist.value else "Unknown Artist")
    ensures r.album.Some? <==> Truthy(t.album)
    ensures r.album.Some? ==> r.album == t.album
  {
    Rows(if Truthy(t.title) then t.title.value else "Unknown Title",
         if Truthy(t.artist) then t.artist.value else "Unknown Artist",
         if Truthy(t.album) then t.album else None)
  }

  /** The `START_MONITORING` request to the helper, with its settings. */
  datatype MonitorRequest = StartMonitoring(metadataFile: string, checkInterval: int)

  class NowPlaying {
    const enableTransitions: bool
    const trackChangeTransition: string
    var currentTrack: Option<Track>
    var redraws: seq<Redraw>
    /** Every request sent to the helper, in order. */
    var requests: seq<MonitorRequest>

    /** `start`: no track yet, and the helper is asked to monitor the
        configured file at the configured interval. */
    constructor (enableTransitions: bool, trackChangeTransition: string, metadataFile: string, checkInterval: int)
      ensures this.enableTransitions == enableTransitions
      ensures this.trackChangeTransition == trackChangeTransition
      ensures currentTrack.None? && redraws == []
      ensures requests == [StartMonitoring(metadataFile, checkInterval)]
    {
      this.enableTransitions := enableTransitions;
      this.trackChangeTransition := trackChangeTransition;
      currentTrack := None;
      redraws := [];
      requests := [StartMonitoring(metadataFile, checkInterval)];
    }

    /** `handleTrackUpdate`: `null` clears the track; any record becomes the
        track, animated only when transitions are on and the track changed. */
    method HandleTrackUpdate(trackData: Option<Track>, wrapperPresent: bool)
      modifies this`currentTrack, this`redraws
      ensures currentTrack == trackData
      ensures trackData.None? ==> redraws == old(redraws) + [Plain]
      ensures trackData.Some? ==>
                redraws == old(redraws) +
                  [if enableTransitions && IsTrackChange(old(currentTrack), trackData.value)
                   then AnimationFor(wrapperPresent, trackChangeTransition) else Plain]
    {
      if trackData.None? {
        currentTrack := None;
        redraws := redraws + [Plain];
        return;
      }
      var isTrackChange := IsTrackChange(currentTrack, trackData.value);
      currentTrack := trackData;
      if enableTransitions && isTrackChange {
        redraws := redraws + [AnimationFor(wrapperPresent, trackChangeTransition)];
      } else {
        redraws := redraws + [Plain];
      }
    }
  }
}
