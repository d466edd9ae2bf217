/** Navigation in the queue: repeat modes, id-based position, next/previous and end-of-track dispatch. */
module Transport {
  import opened Optional
  import opened Catalog

  datatype RepeatMode = Off | All | One

  /** `toggleRepeat`'s update: off -> all -> one -> off. */
  function NextRepeatMode(m: RepeatMode): (r: RepeatMode)
    ensures r != m
  {
    match m
    case Off => All
    case All => One
    case One => Off
  }

  /** The toggle is a cycle of length exactly three. */
  lemma RepeatModeCycle(m: RepeatMode)
    ensures NextRepeatMode(m) != m && NextRepeatMode(NextRepeatMode(m)) != m
    ensures NextRepeatMode(NextRepeatMode(NextRepeatMode(m))) == m
  {
  }

  /** The first position at or after `from` holding `id`, or -1. */
  function FindIndexFrom(queue: seq<Track>, id: int, from: nat): (r: int)
    requires from <= |queue|
    ensures r == -1 || from <= r < |queue|
    ensures r >= 0 ==> queue[r].id == id && forall k :: from <= k < r ==> queue[k].id != id
    ensures r == -1 ==> forall k :: from <= k < |queue| ==> queue[k].id != id
    decreases |queue| - from
  {
    if from == |queue| then -1
    else if queue[from].id == id then from
    else FindIndexFrom(queue, id, from + 1)
  }

  /** `queue.findIndex(t => t.id === id)`: the first position holding `id`, or -1. */
  function FindIndex(queue: seq<Track>, id: int): (r: int)
    ensures -1 <= r < |queue|
    ensures r >= 0 ==> queue[r].id == id && forall k :: 0 <= k < r ==> queue[k].id != id
    ensures r == -1 <==> forall k :: 0 <= k < |queue| ==> queue[k].id != id
  {
    FindIndexFrom(queue, id, 0)
  }

  /** The position of the current track, -1 when there is none (`currentTrack?.id` is undefined). */
  function Position(queue: seq<Track>, current: Option<Track>): (r: int)
    ensures -1 <= r < |queue|
    ensures r >= 0 ==> current.Some? && queue[r].id == current.value.id
    ensures r >= 0 ==> forall k :: 0 <= k < r ==> queue[k].id != current.value.id
    ensures r == -1 <==> current.None? || forall k :: 0 <= k < |queue| ==> queue[k].id != current.value.id
  {
    if current.None? then -1 else FindIndex(queue, current.value.id)
  }

  /** In a queue with unique ids, a member is found at its own index. */
  lemma FindIndexOfMember(queue: seq<Track>, k: nat)
    requires UniqueIds(queue) && k < |queue|
    ensures FindIndex(queue, queue[k].id) == k
  {
  }

  /** JavaScript's `%`, whose result takes the sign of the dividend. */
  function JsRem(a: int, n: int): (r: int)
    requires n > 0
    ensures a >= 0 ==> 0 <= r < n
    ensures a < 0 ==> -n < r <= 0
    ensures -n < a < n ==> r == a
  {
    if a >= 0 then
      if a < n then ModSmall(a, n); a % n else a % n
    else
      if -a < n then ModSmall(-a, n); -((-a) % n) else -((-a) % n)
  }

  /** JavaScript's integer quotient, truncated toward zero (`Math.trunc(a / n)`). */
  function JsQuot(a: int, n: int): int
    requires n > 0
  {
    if a >= 0 then a / n else -((-a) / n)
  }

  /** `%` is the remainder of truncating division: with the sign and bound of `JsRem`, this
      fixes its value for every dividend. */
  lemma JsDivision(a: int, n: int)
    requires n > 0
    ensures a == JsQuot(a, n) * n + JsRem(a, n)
  {
    if a >= 0 {
      assert a == (a / n) * n + a % n;
    } else {
      assert -a == ((-a) / n) * n + (-a) % n;
    }
  }

  lemma ModSmall(a: int, n: int)
    requires 0 <= a < n
    ensures a % n == a
  {
  }

  lemma ModWrapOnce(a: int, n: int)
    requires 0 < n <= a < 2 * n
    ensures a % n == a - n
  {
    ModSmall(a - n, n);
    assert (a - n) % n == a - n;
  }

  /** `(i + 1) % n` for a position `i` in `[-1, n)`. */
  function NextIndex(i: int, n: nat): (r: nat)
    requires 0 < n && -1 <= i < n
    ensures r < n
    ensures r == if i + 1 < n then i + 1 else 0
  {
    if i + 1 < n then ModSmall(i + 1, n); JsRem(i + 1, n)
    else ModWrapOnce(n, n); JsRem(i + 1, n)
  }

  /** `(i - 1 + n) % n` for a position `i` in `[-1, n)`; from -1 it lands one before the last. */
  function PreviousIndex(i: int, n: nat): (r: nat)
    requires 0 < n && -1 <= i < n
    ensures r < n
    ensures 1 <= i ==> r == i - 1
    ensures i == 0 ==> r == n - 1
    ensures i == -1 ==> r == if n >= 2 then n - 2 else 0
  {
    if i == -1 && n == 1 then ModWrapOnce(1, 1); JsRem(i - 1 + n, n)
    else if i >= 1 then ModWrapOnce(i - 1 + n, n); JsRem(i - 1 + n, n)
    else ModSmall(i - 1 + n, n); JsRem(i - 1 + n, n)
  }

  /** The track `playNext` plays, or None when it does nothing (no current track or empty queue). */
  function NextChoice(queue: seq<Track>, current: Option<Track>, mode: RepeatMode): (r: Option<Track>)
    ensures r.None? <==> current.None? || |queue| == 0
    ensures r.Some? && mode == One ==> r == current
    ensures r.Some? && mode != One ==> r.value in queue
  {
    if current.None? || |queue| == 0 then None
    else if mode == One then current
    else Some(queue[NextIndex(FindIndex(queue, current.value.id), |queue|)])
  }

  /** The track `playPrevious` plays, or None when it does nothing. */
  function PreviousChoice(queue: seq<Track>, current: Option<Track>, mode: RepeatMode): (r: Option<Track>)
    ensures r.None? <==> current.None? || |queue| == 0
    ensures r.Some? && mode == One ==> r == current
    ensures r.Some? && mode != One ==> r.value in queue
  {
    if current.None? || |queue| == 0 then None
    else if mode == One then current
    else Some(queue[PreviousIndex(FindIndex(queue, current.value.id), |queue|)])
  }

  /** The current track after one `playNext`. */
  function AfterNext(queue: seq<Track>, current: Option<Track>, mode: RepeatMode): Option<Track> {
    var c := NextChoice(queue, current, mode);
    if c.Some? then c else current
  }

  /** `k` applications of `step`. */
  function Iterate<T>(step: T -> T, x: T, k: nat): T
    decreases k
  {
    if k == 0 then x else step(Iterate(step, x, k - 1))
  }

  /** The current track after `k` calls of `playNext`. */
  function NextTimes(queue: seq<Track>, current: Option<Track>, mode: RepeatMode, k: nat): Option<Track> {
    Iterate(c => AfterNext(queue, c, mode), current, k)
  }

  /** From a current track whose id is held at position `i`, `playNext` plays the next index.
      The current track need not be the queue's own: after a playlist switch it may only share
      the id. */
  lemma NextFromMember(queue: seq<Track>, mode: RepeatMode, t: Track, i: nat)
    requires UniqueIds(queue) && i < |queue| && queue[i].id == t.id && mode != One
    ensures NextChoice(queue, Some(t), mode) == Some(queue[NextIndex(i, |queue|)])
  {
    FindIndexOfMember(queue, i);
  }

  /** From a current track whose id is held at position `i`, `playPrevious` plays the previous
      index, wrapping from the first position to the last. */
  lemma PreviousFromMember(queue: seq<Track>, mode: RepeatMode, t: Track, i: nat)
    requires UniqueIds(queue) && i < |queue| && queue[i].id == t.id && mode != One
    ensures PreviousChoice(queue, Some(t), mode) == Some(queue[PreviousIndex(i, |queue|)])
  {
    FindIndexOfMember(queue, i);
  }

  /** A step that moves every member of the queue to the next index reaches, from position `i`
      in `k <= n` steps, position `i + k` wrapped once past the end. */
  lemma {:induction false} IterateAlongQueue(queue: seq<Track>, step: Option<Track> -> Option<Track>, i: nat, k: nat)
    requires i < |queue| && k <= |queue|
    requires forall j :: 0 <= j < |queue| ==> step(Some(queue[j])) == Some(queue[NextIndex(j, |queue|)])
    ensures Iterate(step, Some(queue[i]), k) == Some(queue[if i + k < |queue| then i + k else i + k - |queue|])
    decreases k
  {
    if k > 0 {
      IterateAlongQueue(queue, step, i, k - 1);
    }
  }

  /** Wrap-around: `n` calls of `playNext` on a queue of length `n` return to the starting track. */
  lemma NextTimesWraps(queue: seq<Track>, mode: RepeatMode, i: nat)
    requires UniqueIds(queue) && i < |queue| && mode != One
    ensures NextTimes(queue, Some(queue[i]), mode, |queue|) == Some(queue[i])
  {
    var step := c => AfterNext(queue, c, mode);
    forall j | 0 <= j < |queue| ensures step(Some(queue[j])) == Some(queue[NextIndex(j, |queue|)]) {
      NextFromMember(queue, mode, queue[j], j);
    }
    IterateAlongQueue(queue, step, i, |queue|);
  }

  /** `playPrevious` undoes `playNext` from a member of the queue. */
  lemma PreviousUndoesNext(queue: seq<Track>, mode: RepeatMode, t: Track)
    requires UniqueIds(queue) && t in queue
    ensures PreviousChoice(queue, NextChoice(queue, Some(t), mode), mode) == Some(t)
  {
    if mode != One {
      var i :| 0 <= i < |queue| && queue[i] == t;
      FindIndexOfMember(queue, i);
      var j := NextIndex(i, |queue|);
      FindIndexOfMember(queue, j);
    }
  }

  /** `playNext` undoes `playPrevious` from a member of the queue. */
  lemma NextUndoesPrevious(queue: seq<Track>, mode: RepeatMode, t: Track)
    requires UniqueIds(queue) && t in queue
    ensures NextChoice(queue, PreviousChoice(queue, Some(t), mode), mode) == Some(t)
  {
    if mode != One {
      var i :| 0 <= i < |queue| && queue[i] == t;
      FindIndexOfMember(queue, i);
      var j := PreviousIndex(i, |queue|);
      FindIndexOfMember(queue, j);
    }
  }

  /** A current track whose id is not in the queue counts as position -1. */
  lemma NavigationFromAbsent(queue: seq<Track>, mode: RepeatMode, t: Track)
    requires |queue| > 0 && mode != One
    requires forall k :: 0 <= k < |queue| ==> queue[k].id != t.id
    ensures NextChoice(queue, Some(t), mode) == Some(queue[0])
    ensures PreviousChoice(queue, Some(t), mode) == Some(queue[if |queue| >= 2 then |queue| - 2 else 0])
  {
  }

  /** What `handleTrackEnd` does. */
  datatype EndAction = Restart | Advance | Stop

  /** `handleTrackEnd`'s dispatch: repeat one restarts; repeat all or shuffle advance;
      otherwise advance unless the current track is at the last position. */
  function EndOfTrack(queue: seq<Track>, current: Option<Track>, mode: RepeatMode, shuffled: bool): (r: EndAction)
    ensures r == Restart <==> mode == One
    ensures r == Stop ==> mode.Off? && !shuffled
  {
    if mode == One then Restart
    else if mode == All || shuffled then Advance
    else if Position(queue, current) < |queue| - 1 then Advance
    else Stop
  }

  /** Playback stops at the end of a track exactly when repeat is off, shuffle is off and the
      queue is empty or the current track's id is the last track's id. */
  lemma EndOfTrackStops(queue: seq<Track>, current: Option<Track>, mode: RepeatMode, shuffled: bool)
    requires UniqueIds(queue)
    ensures EndOfTrack(queue, current, mode, shuffled) == Stop <==>
      mode == Off && !shuffled &&
      (|queue| == 0 || (current.Some? && current.value.id == queue[|queue| - 1].id))
  {
    if |queue| > 0 && current.Some? && current.value.id == queue[|queue| - 1].id {
      FindIndexOfMember(queue, |queue| - 1);
    }
  }

  /** On the last track of the queue: repeat off with shuffle off stops, while repeat all wraps
      around to the first track. */
  lemma EndOfTrackOnLast(queue: seq<Track>)
    requires UniqueIds(queue) && |queue| > 0
    ensures var last := Some(queue[|queue| - 1]);
      EndOfTrack(queue, last, Off, false) == Stop &&
      EndOfTrack(queue, last, All, false) == Advance &&
      NextChoice(queue, last, All) == Some(queue[0])
  {
    FindIndexOfMember(queue, |queue| - 1);
  }
}
