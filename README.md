# Playback session of the music player

This project models the playback session of `MusicPlayer`, the single React component of a local
music player. The session is a record of state variables:

- the catalog of playlists and the selected playlist;
- the active queue (`filteredTracks`) and the current track;
- the play flag (`isPlaying`) and the position (`currentTime`);
- the search query, the shuffle flag, the repeat mode and the volume.

The component's handlers are transitions on this record. The model has these modules:

- `Optional` and `Catalog`: the `Track` and `Playlist` records and the predicate that ids are
  unique within a track list. The track listing assigns each track its position plus one as id.
- `Text`: lower-casing and `includes`.
- `Search`: the filter predicate and the filter itself, with lemmas stating its meaning.
- `Shuffle`: `shuffleArray` as a method that copies the queue into an array and runs Fisher–Yates
  in place, specified by a function on sequences. The random draws are a parameter.
- `Transport`: repeat modes and `findIndex`. It defines JavaScript's `%`, the index arithmetic of
  next and previous, and the track each of them chooses. It also has the dispatch of the
  end-of-track event and the laws of navigation.
- `TimeFormat`: `formatTime`, with a parser that inverts it.
- `Player`: the class `MusicPlayer`. Its fields mirror the state variables, and it has one method
  per handler, effect and audio-element callback. Each handler and callback states its whole new
  state as an update of `Snapshot()`, the record of all fields, so every field it does not name
  is stated to be unchanged. The constructor states the whole initial record. The filter effect
  `ApplySearchFilter` states only the new queue; its `modifies` clause allows no other field
  to change. The audio element is modelled as `audio`, the log of commands sent
  to it.

React semantics are followed where they matter:

- Each handler reads the state as it was before the event.
- The search-filter effect re-runs only when the query or the selected playlist changes. React
  compares these by identity. The query is a string, so it is compared by value: typing a new query
  drops a shuffled order, while setting the query to the value it already has does not. A freshly
  loaded catalog is a new object, so loading always re-runs the filter with the current query.
  Selecting a playlist always ends with its whole track list as the queue, whether the effect
  re-runs or not, because the query is cleared and the empty query keeps every track.
- The volume effect forwards the volume to the audio element whenever the volume changes. It also
  runs once at mount and sets the volume to 1. The audio log starts empty and leaves this out;
  nothing can observe it, since 1 is the element's default volume.

In these places the model follows the code, which behaves differently from what a reader might
expect:

- Turning shuffle off restores the whole playlist in catalog order. It ignores the search query,
  so non-matching tracks come back into the queue while the query is still set.
- Shuffle forces next-track behaviour at the end of a track, even under repeat off.
- `playTrack` does not reset `currentTime`. The position comes back later from the audio element.
- At the end of a track under repeat one, only the audio element is sought to 0 and restarted.
  No state variable changes.
- Next and previous do nothing when there is no current track, whatever the queue holds.
- A current track whose id is not in the queue counts as position -1. Next then plays the first
  track, but previous plays the second-to-last, because `(-1 - 1 + n) % n` is `n - 2` (for a
  single track, JavaScript's `-1 % 1` is `-0`, which indexes the first track).
- Positions are found by id, and ids are unique only within one playlist. So after a playlist
  switch, a current track from the old playlist can be "found" at the position of a different
  track that has the same id.
- Turning shuffle off with no playlist selected throws a TypeError: reading `tracks` of the
  missing playlist fails, since the `!` is only a compile-time assertion. Before the throw, the
  flag update has already been queued. `ToggleShuffle` reports this as `failed`,
  with only the flag flipped.

## Model

| member | source | states |
|---|---|---|
| `Text.Lower` | app/components/music-player.tsx:57-58 | lower-casing keeps the length |
| `Text.LowerSpec` | app/components/music-player.tsx:57-58 | lower-casing maps each ASCII capital to the corresponding small letter, leaves no capital, and changes no other character |
| `Text.Includes` | app/components/music-player.tsx:57-58 | a string includes only queries no longer than itself, and always includes itself |
| `Text.IncludesIffOccurs` | app/components/music-player.tsx:57-58 | `includes` holds exactly when the query occurs at some position of the lower-cased field |
| `Text.IncludesEmpty` | app/components/music-player.tsx:57-58 | every string includes the empty query |
| `Search.Matches` | app/components/music-player.tsx:56-59 | every track matches the empty query |
| `Search.Filter` | app/components/music-player.tsx:54-62 | the queue is no longer than the playlist, and every track in it is a playlist track that matches the query |
| `Search.FilterMembers` | app/components/music-player.tsx:56-59 | a track is in the filtered queue if and only if it is in the playlist and its lower-cased title or artist contains the lower-cased query |
| `Search.FilterCounts` | app/components/music-player.tsx:56-59 | each matching track occurs as often as in the playlist, and each non-matching track never occurs |
| `Search.FilterIsSubsequence` | app/components/music-player.tsx:56-59 | the filtered queue keeps the catalog order: it is the playlist with some tracks deleted |
| `Search.FilterConcat` | app/components/music-player.tsx:56-59 | filtering a concatenation is the concatenation of the filtered parts, so kept tracks keep their relative order |
| `Search.FilterAllMatch` | app/components/music-player.tsx:56-59 | when every track matches, the queue is the playlist unchanged |
| `Search.FilterEmptyQuery` | app/components/music-player.tsx:56-59 | the empty query returns the track list unchanged |
| `Search.FilterIdempotent` | app/components/music-player.tsx:54-62 | filtering twice with the same query equals filtering once |
| `Search.FilterUniqueIds` | app/components/music-player.tsx:56-60 | filtering a track list whose ids are unique gives a queue whose ids are unique |
| `Shuffle.Swap` | app/components/music-player.tsx:80 | the destructuring swap exchanges the elements at `i` and `j`, keeps the length and leaves every other position unchanged |
| `Shuffle.SwapPermutes` | app/components/music-player.tsx:80 | exchanging two elements keeps the length and the multiset of tracks |
| `Shuffle.SwapKeepsUniqueIds` | app/components/music-player.tsx:80 | exchanging two elements keeps ids unique |
| `Shuffle.FisherYatesFrom` | app/components/music-player.tsx:78-81 | the loop from position `i` down to 1 keeps the length |
| `Shuffle.FisherYatesFromFrame` | app/components/music-player.tsx:78-81 | the loop from position `i` down to 1 never touches a position above `i` |
| `Shuffle.FisherYates` | app/components/music-player.tsx:76-83 | the shuffle keeps the length, and a list of at most one track comes back unchanged |
| `Shuffle.FisherYatesFromPermutes` | app/components/music-player.tsx:78-81 | the swaps for positions `i` down to 1 give a permutation of the input, with unique ids kept |
| `Shuffle.FisherYatesPermutes` | app/components/music-player.tsx:76-83 | for any draws with `0 <= j <= i`, the shuffle is a permutation of its input: same length and same multiset |
| `Shuffle.ShuffleArray` | app/components/music-player.tsx:76-83 | the in-place loop over a copy computes the Fisher–Yates function of the input, a permutation of it, and does not touch the input |
| `Transport.NextRepeatMode` | app/components/music-player.tsx:95-99 | the repeat toggle always changes the mode |
| `Transport.RepeatModeCycle` | app/components/music-player.tsx:94-100 | the repeat toggle cycles off, all, one: one or two toggles change the mode, three restore it |
| `Transport.FindIndexFrom` | app/components/music-player.tsx:123 | the result is the first position at or after `from` holding the id, or -1 exactly when none from there on has it |
| `Transport.FindIndex` | app/components/music-player.tsx:123 | the result is the first position holding the id, or -1 exactly when no track has that id |
| `Transport.Position` | app/components/music-player.tsx:123 | the current track's position is -1 or the first queue index holding its id; it is -1 exactly when there is no current track or no queue track has its id |
| `Transport.FindIndexOfMember` | app/components/music-player.tsx:123 | in a queue with unique ids, a track is found at its own position |
| `Transport.JsRem` | app/components/music-player.tsx:129 | JavaScript's `%` for a positive divisor: the result has the sign of the dividend, is below the divisor in magnitude, and a dividend already below the divisor in magnitude is returned unchanged |
| `Transport.JsDivision` | app/components/music-player.tsx:129 | the dividend is the truncated quotient times the divisor plus `JsRem`; with `JsRem`'s sign and bound this fixes the value of `%` for every dividend |
| `Transport.NextIndex` | app/components/music-player.tsx:129 | the next index is `i + 1`, or 0 past the last position; -1 gives 0 |
| `Transport.PreviousIndex` | app/components/music-player.tsx:144 | the previous index is `i - 1`; it wraps from 0 to the last position, and from -1 it gives `n - 2` (or 0 for one track) |
| `Transport.NextChoice` | app/components/music-player.tsx:121-131 | playing next does nothing exactly when there is no current track or the queue is empty; under repeat one it replays the current track; otherwise the chosen track is a queue member |
| `Transport.PreviousChoice` | app/components/music-player.tsx:136-146 | the same three facts for playing previous |
| `Transport.NextFromMember` | app/components/music-player.tsx:121-131 | in a queue with unique ids and repeat not one, next from a current track whose id is held at position `i` (a member, or a track of another playlist sharing the id) plays the track at `(i + 1) % n` |
| `Transport.PreviousFromMember` | app/components/music-player.tsx:136-146 | in the same situation, previous plays the track at `(i - 1 + n) % n` |
| `Transport.IterateAlongQueue` | app/components/music-player.tsx:129-130 | a step that moves each member to the next index reaches, from position `i` in `k <= n` steps, position `i + k`, wrapped past the end |
| `Transport.NextTimesWraps` | app/components/music-player.tsx:121-134 | in a queue with unique ids and repeat not one, `n` calls of next from the member at any position return to that member |
| `Transport.PreviousUndoesNext` | app/components/music-player.tsx:121-149 | from a queue member, previous after next returns to it |
| `Transport.NextUndoesPrevious` | app/components/music-player.tsx:121-149 | from a queue member, next after previous returns to it |
| `Transport.NavigationFromAbsent` | app/components/music-player.tsx:123-145 | with a current track whose id is not in the queue, next plays the first track and previous plays the second-to-last |
| `Transport.EndOfTrack` | app/components/music-player.tsx:164-181 | the end of a track restarts it exactly under repeat one, and stops only under repeat off with shuffle off |
| `Transport.EndOfTrackStops` | app/components/music-player.tsx:164-181 | at the end of a track playback stops if and only if repeat is off, shuffle is off, and the queue is empty or the current track has the last track's id |
| `Transport.EndOfTrackOnLast` | app/components/music-player.tsx:164-181 | on the last track, repeat off stops and repeat all advances, wrapping to the first track |
| `TimeFormat.NatToString` | app/components/music-player.tsx:73 | a number renders as at least one decimal digit, as exactly one digit when it is below 10, and with a leading zero only for 0 itself |
| `TimeFormat.NatToStringRoundTrip` | app/components/music-player.tsx:73 | reading the decimal rendering back gives the number |
| `TimeFormat.PadStart2` | app/components/music-player.tsx:73 | padding gives at least two characters and leaves a string of two or more unchanged |
| `TimeFormat.PadStart2Value` | app/components/music-player.tsx:73 | zero padding keeps a string of digits all digits and keeps its decimal value |
| `TimeFormat.FormatTime` | app/components/music-player.tsx:70-74 | the rendering has at least four characters, with the colon third from the end |
| `TimeFormat.FormatTimeShape` | app/components/music-player.tsx:70-74 | the rendering is the minutes, a colon and exactly two zero-padded digits of the leftover seconds, with `m * 60 + ss == s` and `ss < 60` |
| `TimeFormat.ParseTimeSplit` | app/components/music-player.tsx:70-74 | a run of minute digits, a colon and two digits below 60 read back as minutes times 60 plus the two-digit value |
| `TimeFormat.ParseFormatTime` | app/components/music-player.tsx:70-74 | parsing `m:ss` back gives the original number of seconds |
| `TimeFormat.FormatTimeSmall` | app/components/music-player.tsx:70-74 | below ten minutes and ten leftover seconds, the rendering is one digit, a colon, a zero and one digit |
| `TimeFormat.FormatTimeExamples` | app/components/music-player.tsx:70-74 | 65 renders as "1:05", 5 as "0:05", 125 as "2:05" and 0 as "0:00" |
| `Player.Played` | app/components/music-player.tsx:102-109 | playing a track makes it current and playing, appends loading its url and playing it to the audio log, and changes nothing else |
| `Player.PlayedNext` | app/components/music-player.tsx:121-134 | without a current track or with an empty queue the state is unchanged; otherwise playback runs, on the current track under repeat one and on a queue track otherwise; only the current track, the play flag and the audio log can change |
| `Player.PlayedPrevious` | app/components/music-player.tsx:136-149 | the same, for playing previous |
| `Player.PlayedNextIsAfterNext` | app/components/music-player.tsx:121-134 | the track that is current after play-next is `AfterNext` of the queue, the current track and the repeat mode, so the navigation laws about `AfterNext` hold for `PlayNext` |
| `Player.MusicPlayer.constructor` | app/components/music-player.tsx:26-35 | the initial session: no catalog or playlist, empty queue and query, no track, stopped at 0, shuffle off, repeat off, volume 1 |
| `Player.MusicPlayer.ApplySearchFilter` | app/components/music-player.tsx:54-62 | with a playlist selected, the queue becomes the filter of its tracks by the query; without one, the queue is unchanged |
| `Player.MusicPlayer.LoadCatalog` | app/components/music-player.tsx:42-49 | the catalog is stored; if it is non-empty its first playlist is selected and, because the parsed playlist is a new object, the filter effect always re-runs, so the queue becomes that playlist filtered by the current query; nothing else changes |
| `Player.MusicPlayer.SetSearchQuery` | app/components/music-player.tsx:54-62 | the search box's `onChange` (line 221) sets the query; the query is set; the queue is re-filtered only when the query changed and a playlist is selected; nothing else changes |
| `Player.MusicPlayer.ToggleShuffle` | app/components/music-player.tsx:85-92 | the flag flips. Turning shuffle on makes the queue the Fisher–Yates shuffle of the old queue, a permutation of it. Turning it off makes the queue the whole playlist, ignoring the query. Turning it off with no playlist fails, with only the flag flipped |
| `Player.MusicPlayer.ToggleRepeat` | app/components/music-player.tsx:94-100 | only the repeat mode changes, to its successor in the cycle |
| `Player.MusicPlayer.PlayTrack` | app/components/music-player.tsx:102-109 | the track becomes current and playing, and the audio element is told to load its url and play; nothing else changes |
| `Player.MusicPlayer.TogglePlay` | app/components/music-player.tsx:111-119 | without a current track nothing changes; otherwise the play flag flips and the audio element is told to pause or to play |
| `Player.MusicPlayer.PlayNext` | app/components/music-player.tsx:121-134 | the new state is that of playing the track `NextChoice` picks, or the old state when it picks none; when it picks one under repeat off or all, the new current track is in the queue |
| `Player.MusicPlayer.PlayPrevious` | app/components/music-player.tsx:136-149 | the same, with `PreviousChoice` |
| `Player.MusicPlayer.HandleTrackEnd` | app/components/music-player.tsx:164-181 | repeat one only seeks the audio element to 0 and replays it; repeat all or shuffle act as play-next; otherwise play-next unless at the last position, where playback stops at time 0 on the same track |
| `Player.MusicPlayer.ChangeVolume` | app/components/music-player.tsx:183-186 | the volume is set, and a changed volume is forwarded to the audio element; nothing else changes |
| `Player.MusicPlayer.ToggleMute` | app/components/music-player.tsx:188-190 | volume 0 becomes 1, any other volume becomes 0, and the new volume is forwarded to the audio element |
| `Player.MusicPlayer.SelectPlaylist` | app/components/music-player.tsx:192-196 | the playlist becomes current, its tracks become the queue and the query is cleared; the current track, play state, shuffle flag and everything else are unchanged |
| `Player.MusicPlayer.OnTimeUpdate` | app/components/music-player.tsx:376 | only the position changes, to the reported time |
| `Player.MusicPlayer.OnPlay` | app/components/music-player.tsx:378 | only the play flag changes, to true |
| `Player.MusicPlayer.OnPause` | app/components/music-player.tsx:379 | only the play flag changes, to false |

## Left out

- The request for the catalog (app/components/music-player.tsx:39-52) is network I/O. `LoadCatalog` models only the branch that receives an array. A failed request or a non-array answer leaves the session as it was, so it is simply not called.
- `LoadCatalog` requires that ids are unique within each playlist. The track listing gives this by numbering tracks by position (app/api/tracks/route.ts:41). That route itself (file system, metadata parsing, base64, HTTP responses) is not part of this model, and neither is the fact that it answers with a flat track list.
- `handleProgressClick` (app/components/music-player.tsx:151-162) depends on the geometry of the page and on floating-point percentages.
- `ChangeVolume` takes the slider's value already parsed. The `parseFloat` of `handleVolumeChange` is not modelled, and its `requires` is the slider's range 0 to 1.
- `ShuffleArray`: `Math.random` is replaced by caller-supplied draws `0 <= j <= i`. The model proves a permutation for every choice of draws, but not that the permutations are equally likely.
- Asynchrony of the audio element is not modelled. Each callback is one atomic transition, applied in arrival order. The code has no guard against callbacks from a track that has since been replaced.
- The audio element is assumed to be mounted, so `audioRef.current` is never null once the session runs. A rejected `play()` promise is not modelled.
- Times are whole seconds (`nat`). The fractional `currentTime` reported by the audio element, and `formatTime`'s `Math.floor` of a fractional remainder, are not modelled.
- `TimeFormat.NatToString` renders every natural number in plain decimal. JavaScript's `toString` switches to exponent notation for numbers of 10^21 and more; `formatTime` prints minutes, so this would start at 6·10^22 seconds, and it is not modelled.
- `TimeFormat.FormatTime`: the model's seconds are exact natural numbers. The source's are doubles, so `Math.floor(seconds / 60)` and `seconds % 60` are exact only below 2^53; the model assumes seconds below 2^53.
- `Text.IncludesIffOccurs`: lower-casing maps only the ASCII letters A–Z. The Unicode case mapping of `toLowerCase` is not modelled.
- The rendering of the page (app/components/music-player.tsx:198-408), the sidebar (app/components/playlist-sidebar.tsx), fonts and layout are presentation only.
