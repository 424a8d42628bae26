/**
 * The player's module-level state (static/js/script.js lines 24-32) and the
 * handlers that change it: the song-list callback of `loadAlbum`, `loadSong`,
 * the lyric-text callback, the previous button, `playNextSong`, the shuffle and
 * repeat buttons, the `ended` event and `updateCurrentLyric`.
 *
 * The DOM, the audio element and the network are not modelled: a callback that
 * runs when a fetch completes is a method taking the fetched data, and the draws
 * of `Math.random` are passed in as `choices`.
 */
module PlayerController {
  import opened Lrc
  import opened Shuffle
  import opened Navigation

  datatype Song = Song(name: string, file: string, album: string, hasLyrics: bool)

  class Player {
    var songs: seq<Song>
    var currentSongIndex: int
    var isShuffling: bool
    var isRepeating: bool
    var shuffledIndices: seq<int>
    var lyrics: seq<Lyric>
    var currentLyricIndex: int

    /**
     * The song index is a valid index (0 while there are no songs), the shuffled
     * order is empty or a permutation of the song indices, the lyrics are sorted
     * by time, and the lyric index is -1 or more.
     */
    ghost predicate Valid()
      reads this
    {
      && (if |songs| == 0 then currentSongIndex == 0 else 0 <= currentSongIndex < |songs|)
      && EmptyOrPermutation(shuffledIndices, |songs|)
      && SortedByTime(lyrics)
      && currentLyricIndex >= -1
    }

    /** The initial values of lines 24-32. */
    constructor ()
      ensures Valid()
      ensures songs == [] && currentSongIndex == 0 && !isShuffling && !isRepeating
      ensures shuffledIndices == [] && lyrics == [] && currentLyricIndex == -1
    {
      songs := [];
      currentSongIndex := 0;
      isShuffling := false;
      isRepeating := false;
      shuffledIndices := [];
      lyrics := [];
      currentLyricIndex := -1;
    }

    /** `loadSong(index)`: ignored out of range; otherwise selects the song and clears its lyrics. */
    method LoadSong(index: int)
      requires Valid()
      modifies this
      ensures Valid()
      ensures index < 0 || index >= |old(songs)| ==> unchanged(this)
      ensures 0 <= index < |old(songs)| ==>
        && currentSongIndex == index && lyrics == [] && currentLyricIndex == -1
        && songs == old(songs) && shuffledIndices == old(shuffledIndices)
        && isShuffling == old(isShuffling) && isRepeating == old(isRepeating)
    {
      if index < 0 || index >= |songs| {
        return;
      }
      currentSongIndex := index;
      lyrics := [];
      currentLyricIndex := -1;
    }

    /**
     * The song list of an album has arrived (`loadAlbum`, lines 129-137): it replaces
     * the songs, the first song is selected and the shuffled order is dropped. An
     * empty album leaves the lyrics as they were.
     */
    method AlbumLoaded(data: seq<Song>)
      requires Valid()
      modifies this
      ensures Valid()
      ensures songs == data && currentSongIndex == 0 && shuffledIndices == []
      ensures isShuffling == old(isShuffling) && isRepeating == old(isRepeating)
      ensures |data| > 0 ==> lyrics == [] && currentLyricIndex == -1
      ensures |data| == 0 ==> lyrics == old(lyrics) && currentLyricIndex == old(currentLyricIndex)
    {
      songs := data;
      currentSongIndex := 0;
      shuffledIndices := [];
      if |songs| > 0 {
        LoadSong(0);
      }
    }

    /**
     * The lyric text of a song has arrived (line 199). The lyric index is not reset
     * here; `loadSong` reset it when the request was made.
     */
    method LyricsLoaded(text: string)
      requires Valid()
      modifies this
      ensures Valid()
      ensures lyrics == ParseLRC(text)
      ensures songs == old(songs) && currentSongIndex == old(currentSongIndex)
      ensures shuffledIndices == old(shuffledIndices) && currentLyricIndex == old(currentLyricIndex)
      ensures isShuffling == old(isShuffling) && isRepeating == old(isRepeating)
    {
      var parsed := ParseLRC(text);
      assert SortedByTime(parsed);
      lyrics := parsed;
      assert EmptyOrPermutation(shuffledIndices, |songs|);
    }

    /**
     * The previous button (lines 325-336): the predecessor in the shuffled order when
     * shuffling with an order built, otherwise the previous index, wrapping to the
     * last song. With no songs nothing changes.
     */
    method Previous()
      requires Valid()
      modifies this
      ensures Valid()
      ensures |songs| == 0 ==> unchanged(this)
      ensures songs == old(songs) && shuffledIndices == old(shuffledIndices)
      ensures isShuffling == old(isShuffling) && isRepeating == old(isRepeating)
      ensures |songs| > 0 ==> lyrics == [] && currentLyricIndex == -1
      ensures |songs| > 0 && isShuffling && shuffledIndices != [] ==>
        && currentSongIndex == ShufflePrev(shuffledIndices, old(currentSongIndex))
        && forall p :: 0 <= p < |shuffledIndices| && shuffledIndices[p] == old(currentSongIndex) ==>
             currentSongIndex == if p > 0 then shuffledIndices[p - 1] else shuffledIndices[|shuffledIndices| - 1]
      ensures |songs| > 0 && !(isShuffling && shuffledIndices != []) ==>
        currentSongIndex == if old(currentSongIndex) > 0 then old(currentSongIndex) - 1 else |songs| - 1
    {
      if isShuffling && |shuffledIndices| > 0 {
        PermutationFacts(shuffledIndices, |songs|);
        ShufflePrevPositions(shuffledIndices, currentSongIndex);
        LoadSong(ShufflePrev(shuffledIndices, currentSongIndex));
      } else {
        LoadSong(SequentialPrev(currentSongIndex, |songs|));
      }
    }

    /**
     * The state after `playNextSong`: nothing changes without songs; otherwise the
     * lyrics are cleared and the song is the next one in playlist order, or, when
     * shuffling, the successor in the shuffled order, which is built first from the
     * draws if it is empty.
     */
    twostate predicate AdvancedToNext(choices: seq<nat>)
      requires ValidChoices(choices, |old(songs)|)
      reads this
    {
      && songs == old(songs) && isShuffling == old(isShuffling) && isRepeating == old(isRepeating)
      && if |songs| == 0 then
           && currentSongIndex == old(currentSongIndex) && shuffledIndices == old(shuffledIndices)
           && lyrics == old(lyrics) && currentLyricIndex == old(currentLyricIndex)
         else
           && lyrics == [] && currentLyricIndex == -1
           && if isShuffling then
                && |shuffledIndices| == |songs|
                && shuffledIndices == (if old(shuffledIndices) == [] then Shuffled(Range(|songs|), choices)
                                       else old(shuffledIndices))
                && currentSongIndex == ShuffleNext(shuffledIndices, old(currentSongIndex))
                && forall p :: 0 <= p < |shuffledIndices| && shuffledIndices[p] == old(currentSongIndex) ==>
                     currentSongIndex == if p + 1 < |shuffledIndices| then shuffledIndices[p + 1] else shuffledIndices[0]
              else
                && shuffledIndices == old(shuffledIndices)
                && currentSongIndex == if old(currentSongIndex) + 1 < |songs| then old(currentSongIndex) + 1 else 0
    }

    /** `playNextSong` (lines 344-363). */
    method PlayNext(choices: seq<nat>)
      requires Valid()
      requires ValidChoices(choices, |songs|)
      modifies this
      ensures Valid()
      ensures AdvancedToNext(choices)
    {
      if |songs| == 0 {
        return;
      }
      if isShuffling {
        if |shuffledIndices| == 0 {
          shuffledIndices := NewShuffledOrder(|songs|, choices);
        }
        PermutationFacts(shuffledIndices, |songs|);
        ShuffleNextPositions(shuffledIndices, currentSongIndex);
        LoadSong(ShuffleNext(shuffledIndices, currentSongIndex));
      } else {
        SequentialNextWraps(currentSongIndex, |songs|);
        LoadSong(SequentialNext(currentSongIndex, |songs|));
      }
    }

    /**
     * The shuffle button (lines 366-375): flips shuffling; switching it on builds a
     * fresh shuffled order of all song indices from the draws.
     */
    method ToggleShuffle(choices: seq<nat>)
      requires Valid()
      requires ValidChoices(choices, |songs|)
      modifies this
      ensures Valid()
      ensures songs == old(songs) && currentSongIndex == old(currentSongIndex) && isRepeating == old(isRepeating)
      ensures isShuffling == !old(isShuffling)
      ensures isShuffling ==> shuffledIndices == Shuffled(Range(|songs|), choices)
      ensures isShuffling ==> IsPermutation(shuffledIndices, |songs|)
      ensures !isShuffling ==> shuffledIndices == old(shuffledIndices)
      ensures lyrics == old(lyrics) && currentLyricIndex == old(currentLyricIndex)
    {
      isShuffling := !isShuffling;
      if isShuffling {
        shuffledIndices := NewShuffledOrder(|songs|, choices);
      }
    }

    /** The repeat button (lines 378-382); the audio element's `loop` flag is not modelled. */
    method ToggleRepeat()
      requires Valid()
      modifies this
      ensures Valid()
      ensures isRepeating == !old(isRepeating)
      ensures songs == old(songs) && currentSongIndex == old(currentSongIndex) && isShuffling == old(isShuffling)
      ensures shuffledIndices == old(shuffledIndices)
      ensures lyrics == old(lyrics) && currentLyricIndex == old(currentLyricIndex)
    {
      isRepeating := !isRepeating;
    }

    /**
     * The `ended` event (lines 464-472): when repeating, the audio restarts at 0 and
     * the player state stays as it is; otherwise exactly what `playNextSong` does.
     */
    method Ended(choices: seq<nat>)
      requires Valid()
      requires ValidChoices(choices, |songs|)
      modifies this
      ensures Valid()
      ensures old(isRepeating) ==> unchanged(this)
      ensures !old(isRepeating) ==> AdvancedToNext(choices)
    {
      if !isRepeating {
        PlayNext(choices);
      }
    }

    /**
     * `updateCurrentLyric` at playback time `t` (lines 400-422). Returns whether the
     * index changed, which is when the lyric display is redrawn.
     */
    method UpdateCurrentLyric(t: real) returns (redrawn: bool)
      requires Valid()
      modifies this
      ensures Valid()
      ensures |lyrics| == 0 ==> unchanged(this) && !redrawn
      ensures songs == old(songs) && currentSongIndex == old(currentSongIndex) && lyrics == old(lyrics)
      ensures shuffledIndices == old(shuffledIndices)
      ensures isShuffling == old(isShuffling) && isRepeating == old(isRepeating)
      ensures |lyrics| > 0 ==> currentLyricIndex == ActiveIndex(lyrics, t)
      ensures |lyrics| > 0 ==> -1 <= currentLyricIndex < |lyrics|
      ensures |lyrics| > 0 ==> forall j :: 0 <= j < |lyrics| ==> (lyrics[j].time <= t <==> j <= currentLyricIndex)
      ensures redrawn <==> currentLyricIndex != old(currentLyricIndex)
    {
      redrawn := false;
      if |lyrics| == 0 {
        return;
      }
      ActiveIndexGreatest(lyrics, t);
      var i := 0;
      while i < |lyrics|
        invariant 0 <= i <= |lyrics|
        invariant forall k :: 0 <= k < i ==> lyrics[k].time <= t
        invariant unchanged(this)
      {
        if lyrics[i].time > t {
          var newIndex := i - 1;
          if newIndex != currentLyricIndex {
            currentLyricIndex := newIndex;
            redrawn := true;
          }
          return;
        }
        i := i + 1;
      }
      if currentLyricIndex != |lyrics| - 1 {
        currentLyricIndex := |lyrics| - 1;
        redrawn := true;
      }
    }
  }

  /**
   * With shuffling on and an order built, pressing Next and then Previous comes back
   * to the song playing before.
   */
  method NextThenPrevious(player: Player, choices: seq<nat>)
    requires player.Valid() && player.isShuffling && player.shuffledIndices != []
    requires ValidChoices(choices, |player.songs|)
    modifies player
    ensures player.Valid()
    ensures player.currentSongIndex == old(player.currentSongIndex)
  {
    PermutationFacts(player.shuffledIndices, |player.songs|);
    ghost var start := player.currentSongIndex;
    player.PlayNext(choices);
    player.Previous();
    ShufflePrevUndoesNext(player.shuffledIndices, start);
  }
}
