/** The playback session of the music player: its state record and the handlers that update it. */
module Player {
  import opened Optional
  import opened Catalog
  import opened Transport
  import Search
  import Shuffle

  /** What the session tells the audio element, in the order it tells it. */
  datatype AudioCommand = SetSource(url: string) | Play | Pause | SeekTo(seconds: nat) | SetVolume(level: real)

  /** Every field of the session at one instant, plus the commands sent to the audio element so far. */
  datatype SessionState = SessionState(
    playlists: seq<Playlist>,
    currentPlaylist: Option<Playlist>,
    filteredTracks: seq<Track>,
    currentTrack: Option<Track>,
    isPlaying: bool,
    currentTime: nat,
    searchQuery: string,
    isShuffled: bool,
    repeatMode: RepeatMode,
    volume: real,
    audio: seq<AudioCommand>)

  /** The state after `playTrack(t)`: `t` is current and playing, its source loaded and started. */
  function Played(s: SessionState, t: Track): (r: SessionState)
    ensures r.currentTrack == Some(t) && r.isPlaying
    ensures |r.audio| == |s.audio| + 2
    ensures r.audio[..|s.audio|] == s.audio && r.audio[|s.audio|..] == [SetSource(t.url), Play]
    ensures r.(currentTrack := s.currentTrack, isPlaying := s.isPlaying, audio := s.audio) == s
  {
    s.(currentTrack := Some(t), isPlaying := true, audio := s.audio + [SetSource(t.url), Play])
  }

  /** The state after `playNext`. */
  function PlayedNext(s: SessionState): (r: SessionState)
    ensures s.currentTrack.None? || |s.filteredTracks| == 0 ==> r == s
    ensures s.currentTrack.Some? && |s.filteredTracks| > 0 ==>
      r.isPlaying && r.currentTrack.Some? &&
      (s.repeatMode == One ==> r.currentTrack == s.currentTrack) &&
      (s.repeatMode != One ==> r.currentTrack.value in s.filteredTracks)
    ensures s.currentTrack.Some? && |s.filteredTracks| > 0 ==>
      r.audio == s.audio + [SetSource(r.currentTrack.value.url), Play]
    ensures r.(currentTrack := s.currentTrack, isPlaying := s.isPlaying, audio := s.audio) == s
  {
    var c := NextChoice(s.filteredTracks, s.currentTrack, s.repeatMode);
    if c.None? then s else Played(s, c.value)
  }

  /** The state after `playPrevious`. */
  function PlayedPrevious(s: SessionState): (r: SessionState)
    ensures s.currentTrack.None? || |s.filteredTracks| == 0 ==> r == s
    ensures s.currentTrack.Some? && |s.filteredTracks| > 0 ==>
      r.isPlaying && r.currentTrack.Some? &&
      (s.repeatMode == One ==> r.currentTrack == s.currentTrack) &&
      (s.repeatMode != One ==> r.currentTrack.value in s.filteredTracks)
    ensures s.currentTrack.Some? && |s.filteredTracks| > 0 ==>
      r.audio == s.audio + [SetSource(r.currentTrack.value.url), Play]
    ensures r.(currentTrack := s.currentTrack, isPlaying := s.isPlaying, audio := s.audio) == s
  {
    var c := PreviousChoice(s.filteredTracks, s.currentTrack, s.repeatMode);
    if c.None? then s else Played(s, c.value)
  }

  /** The current track after `PlayedNext` is the one `AfterNext` gives, so the laws of repeated
      navigation carry over to the class. */
  lemma PlayedNextIsAfterNext(s: SessionState)
    ensures PlayedNext(s).currentTrack == AfterNext(s.filteredTracks, s.currentTrack, s.repeatMode)
  {
  }

  class MusicPlayer {
    var playlists: seq<Playlist>
    var currentPlaylist: Option<Playlist>
    /** The active queue: what the track list shows and next/previous walk through. */
    var filteredTracks: seq<Track>
    var currentTrack: Option<Track>
    var isPlaying: bool
    var currentTime: nat
    var searchQuery: string
    var isShuffled: bool
    var repeatMode: RepeatMode
    var volume: real
    /** The commands sent to the audio element, oldest first. */
    var audio: seq<AudioCommand>

    function Snapshot(): SessionState
      reads this
    {
      SessionState(playlists, currentPlaylist, filteredTracks, currentTrack, isPlaying,
        currentTime, searchQuery, isShuffled, repeatMode, volume, audio)
    }

    /** Track ids are unique in every playlist and in the queue; the queue holds only tracks of
        the current playlist; the volume lies in the slider's range. */
    ghost predicate Valid()
      reads this
    {
      (forall p :: p in playlists ==> UniqueIds(p.tracks)) &&
      (currentPlaylist.Some? ==> UniqueIds(currentPlaylist.value.tracks)) &&
      UniqueIds(filteredTracks) &&
      (forall t :: t in filteredTracks ==> currentPlaylist.Some? && t in currentPlaylist.value.tracks) &&
      0.0 <= volume <= 1.0
    }

    /** The initial values of the session's state variables. */
    constructor ()
      ensures Valid()
      ensures Snapshot() == SessionState([], None, [], None, false, 0, "", false, Off, 1.0, [])
    {
      playlists, currentPlaylist, filteredTracks := [], None, [];
      currentTrack, isPlaying, currentTime := None, false, 0;
      searchQuery, isShuffled, repeatMode, volume := "", false, Off, 1.0;
      audio := [];
    }

    /** The search-filter effect: re-derives the queue from the current playlist and the query. */
    method ApplySearchFilter()
      requires Valid()
      modifies this`filteredTracks
      ensures Valid()
      ensures filteredTracks ==
        if currentPlaylist.Some? then Search.Filter(currentPlaylist.value.tracks, searchQuery)
        else old(filteredTracks)
    {
      if currentPlaylist.Some? {
        Search.FilterUniqueIds(currentPlaylist.value.tracks, searchQuery);
        filteredTracks := Search.Filter(currentPlaylist.value.tracks, searchQuery);
      }
    }

    /** A catalog arrives: keep it and select its first playlist, which re-runs the filter effect. */
    method LoadCatalog(data: seq<Playlist>)
      requires Valid()
      requires forall p :: p in data ==> UniqueIds(p.tracks)
      modifies this
      ensures Valid()
      ensures |data| == 0 ==> Snapshot() == old(Snapshot()).(playlists := data)
      ensures |data| > 0 ==> Snapshot() == old(Snapshot()).(
        playlists := data,
        currentPlaylist := Some(data[0]),
        filteredTracks := Search.Filter(data[0].tracks, old(searchQuery)))
    {
      playlists := data;
      if |data| > 0 {
        currentPlaylist := Some(data[0]);
        filteredTracks := data[0].tracks;
        // The parsed catalog is a new object, so the filter effect always sees a changed playlist.
        ApplySearchFilter();
      }
    }

    /** The search box changes; the filter effect runs only when the query differs. */
    method SetSearchQuery(query: string)
      requires Valid()
      modifies this
      ensures Valid()
      ensures Snapshot() == old(Snapshot()).(
        searchQuery := query,
        filteredTracks :=
          if query != old(searchQuery) && old(currentPlaylist).Some?
          then Search.Filter(old(currentPlaylist).value.tracks, query)
          else old(filteredTracks))
    {
      var changed := query != searchQuery;
      searchQuery := query;
      if changed {
        ApplySearchFilter();
      }
    }

    /** Shuffle on: the queue is Fisher-Yates-shuffled with the supplied draws. Shuffle off: the
        queue becomes the whole current playlist, whatever the query. Turning shuffle off with no
        playlist fails after the flag has flipped: reading `tracks` of the missing playlist throws
        a TypeError, since `!` is only a compile-time assertion. */
    method ToggleShuffle(choices: seq<nat>) returns (failed: bool)
      requires Valid()
      requires !isShuffled ==> Shuffle.ValidChoices(|filteredTracks|, choices)
      modifies this
      ensures Valid()
      ensures isShuffled == !old(isShuffled)
      ensures failed <==> old(isShuffled) && old(currentPlaylist).None?
      ensures !old(isShuffled) ==> Snapshot() == old(Snapshot()).(
        isShuffled := true, filteredTracks := Shuffle.FisherYates(old(filteredTracks), choices))
      ensures !old(isShuffled) ==> multiset(filteredTracks) == multiset(old(filteredTracks))
      ensures old(isShuffled) && !failed ==> Snapshot() == old(Snapshot()).(
        isShuffled := false, filteredTracks := old(currentPlaylist).value.tracks)
      ensures failed ==> Snapshot() == old(Snapshot()).(isShuffled := false)
    {
      var wasShuffled := isShuffled;
      isShuffled := !isShuffled;
      if !wasShuffled {
        ghost var before := filteredTracks;
        filteredTracks := Shuffle.ShuffleArray(filteredTracks, choices);
        forall t | t in filteredTracks ensures t in before {
          assert t in multiset(filteredTracks);
        }
        failed := false;
      } else if currentPlaylist.None? {
        failed := true;
      } else {
        filteredTracks := currentPlaylist.value.tracks;
        failed := false;
      }
    }

    /** Repeat cycles off -> all -> one -> off. */
    method ToggleRepeat()
      requires Valid()
      modifies this
      ensures Valid()
      ensures Snapshot() == old(Snapshot()).(repeatMode := NextRepeatMode(old(repeatMode)))
    {
      repeatMode := NextRepeatMode(repeatMode);
    }

    /** Makes `track` current and playing, and has the audio element load and play it. */
    method PlayTrack(track: Track)
      requires Valid()
      modifies this
      ensures Valid()
      ensures Snapshot() == Played(old(Snapshot()), track)
    {
      currentTrack := Some(track);
      isPlaying := true;
      audio := audio + [SetSource(track.url), Play];
    }

    /** Pauses or resumes; does nothing without a current track. */
    method TogglePlay()
      requires Valid()
      modifies this
      ensures Valid()
      ensures old(currentTrack).None? ==> Snapshot() == old(Snapshot())
      ensures old(currentTrack).Some? ==> Snapshot() == old(Snapshot()).(
        isPlaying := !old(isPlaying),
        audio := old(audio) + [if old(isPlaying) then Pause else Play])
    {
      if currentTrack.None? {
        return;
      }
      audio := audio + [if isPlaying then Pause else Play];
      isPlaying := !isPlaying;
    }

    /** Skips forward: the same track under repeat one, else the next queue position, wrapping. */
    method PlayNext()
      requires Valid()
      modifies this
      ensures Valid()
      ensures Snapshot() == PlayedNext(old(Snapshot()))
      ensures old(currentTrack).Some? && |old(filteredTracks)| > 0 && old(repeatMode) != One ==>
        currentTrack.Some? && currentTrack.value in filteredTracks
    {
      if currentTrack.None? || |filteredTracks| == 0 {
        return;
      }
      var currentIndex := FindIndex(filteredTracks, currentTrack.value.id);
      var nextTrack: Track;
      if repeatMode == One {
        nextTrack := currentTrack.value;
      } else {
        nextTrack := filteredTracks[NextIndex(currentIndex, |filteredTracks|)];
      }
      PlayTrack(nextTrack);
    }

    /** Skips back: the same track under repeat one, else the previous queue position, wrapping. */
    method PlayPrevious()
      requires Valid()
      modifies this
      ensures Valid()
      ensures Snapshot() == PlayedPrevious(old(Snapshot()))
      ensures old(currentTrack).Some? && |old(filteredTracks)| > 0 && old(repeatMode) != One ==>
        currentTrack.Some? && currentTrack.value in filteredTracks
    {
      if currentTrack.None? || |filteredTracks| == 0 {
        return;
      }
      var currentIndex := FindIndex(filteredTracks, currentTrack.value.id);
      var previousTrack: Track;
      if repeatMode == One {
        previousTrack := currentTrack.value;
      } else {
        previousTrack := filteredTracks[PreviousIndex(currentIndex, |filteredTracks|)];
      }
      PlayTrack(previousTrack);
    }

    /** The audio element reports the end of the track. */
    method HandleTrackEnd()
      requires Valid()
      modifies this
      ensures Valid()
      ensures var action := EndOfTrack(old(filteredTracks), old(currentTrack), old(repeatMode), old(isShuffled));
        Snapshot() ==
          match action
          case Restart => old(Snapshot()).(audio := old(audio) + [SeekTo(0), Play])
          case Advance => PlayedNext(old(Snapshot()))
          case Stop => old(Snapshot()).(isPlaying := false, currentTime := 0)
    {
      if repeatMode == One {
        audio := audio + [SeekTo(0), Play];
      } else if repeatMode == All || isShuffled {
        PlayNext();
      } else {
        var currentIndex := Position(filteredTracks, currentTrack);
        if currentIndex < |filteredTracks| - 1 {
          PlayNext();
        } else {
          isPlaying := false;
          currentTime := 0;
        }
      }
    }

    /** The volume slider moves to `level`; the volume effect forwards a change to the audio element. */
    method ChangeVolume(level: real)
      requires Valid()
      requires 0.0 <= level <= 1.0
      modifies this
      ensures Valid()
      ensures Snapshot() == old(Snapshot()).(
        volume := level,
        audio := if level != old(volume) then old(audio) + [SetVolume(level)] else old(audio))
    {
      var changed := level != volume;
      volume := level;
      if changed {
        audio := audio + [SetVolume(level)];
      }
    }

    /** Mute toggles between volume 0 and full volume 1; the new volume reaches the audio element. */
    method ToggleMute()
      requires Valid()
      modifies this
      ensures Valid()
      ensures volume == if old(volume) == 0.0 then 1.0 else 0.0
      ensures Snapshot() == old(Snapshot()).(volume := volume, audio := old(audio) + [SetVolume(volume)])
    {
      volume := if volume == 0.0 then 1.0 else 0.0;
      audio := audio + [SetVolume(volume)];
    }

    /** A playlist is picked in the sidebar: it becomes current, its tracks the queue, the query is
        cleared; the current track, play state and shuffle flag are left as they were. */
    method SelectPlaylist(playlist: Playlist)
      requires Valid()
      requires playlist in playlists
      modifies this
      ensures Valid()
      ensures Snapshot() == old(Snapshot()).(
        currentPlaylist := Some(playlist), filteredTracks := playlist.tracks, searchQuery := "")
    {
      Search.FilterEmptyQuery(playlist.tracks);
      assert UniqueIds(playlist.tracks);
      var changed := currentPlaylist != Some(playlist) || searchQuery != "";
      currentPlaylist, filteredTracks, searchQuery := Some(playlist), playlist.tracks, "";
      assert Valid();
      ghost var selected := Snapshot();
      if changed {
        ApplySearchFilter();
        assert filteredTracks == playlist.tracks;
        assert Snapshot() == selected;
      }
    }

    /** The audio element reports its playback position. */
    method OnTimeUpdate(seconds: nat)
      requires Valid()
      modifies this
      ensures Valid()
      ensures Snapshot() == old(Snapshot()).(currentTime := seconds)
    {
      currentTime := seconds;
    }

    /** The audio element reports that it started playing. */
    method OnPlay()
      requires Valid()
      modifies this
      ensures Valid()
      ensures Snapshot() == old(Snapshot()).(isPlaying := true)
    {
      isPlaying := true;
    }

    /** The audio element reports that it paused. */
    method OnPause()
      requires Valid()
      modifies this
      ensures Valid()
      ensures Snapshot() == old(Snapshot()).(isPlaying := false)
    {
      isPlaying := false;
    }
  }
}
