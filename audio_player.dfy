/**
 * The global audio player: the play/pause flag and how the player's events
 * change it, and the `m:ss` clock it shows for the elapsed time and the
 * duration.
 */
module AudioPlayer {
  import opened Base
  import opened Decimal

  /** A time reading of the media element, in whole seconds, or NaN. */
  datatype Time = NotANumber | Seconds(value: nat)

  /** `padStart(2, "0")`. */
  function PadTwo(s: string): (r: string)
    ensures |s| >= 2 ==> r == s
    ensures |s| < 2 ==> |r| == 2 && r[2 - |s|..] == s && forall k :: 0 <= k < 2 - |s| ==> r[k] == '0'
    decreases 2 - |s|
  {
    if |s| >= 2 then s else PadTwo("0" + s)
  }

  /** `formatTime`: "0:00" for NaN, else whole minutes, a colon and two-digit seconds. */
  function FormatTime(t: Time): (r: string)
    ensures t.NotANumber? ==> r == "0:00"
  {
    match t
    case NotANumber => "0:00"
    case Seconds(n) => NatToString(n / 60) + ":" + PadTwo(NatToString(n % 60))
  }

  /** The seconds field always has exactly two digits. */
  lemma SecondsField(n: nat)
    ensures |PadTwo(NatToString(n % 60))| == 2
    ensures AllDigits(PadTwo(NatToString(n % 60)))
    ensures DigitsValue(PadTwo(NatToString(n % 60))) == n % 60
  {
    var secs := n % 60;
    DigitsOfNat(secs);
    if secs < 10 {
      assert NatToString(secs) == [DigitChar(secs)];
      assert PadTwo(NatToString(secs)) == ['0', DigitChar(secs)];
    } else {
      assert NatToString(secs) == NatToString(secs / 10) + [DigitChar(secs % 10)];
      assert NatToString(secs / 10) == [DigitChar(secs / 10)];
    }
  }

  /**
   * The shape of a formatted clock: the minutes `floor(n / 60)` before the
   * colon, and two digits after it that read as `n mod 60`, below 60.
   */
  lemma FormatTimeParts(n: nat)
    ensures var r := FormatTime(Seconds(n));
      && |r| >= 4
      && r[|r| - 3] == ':'
      && AllDigits(r[..|r| - 3]) && DigitsValue(r[..|r| - 3]) == n / 60
      && AllDigits(r[|r| - 2..]) && DigitsValue(r[|r| - 2..]) == n % 60 < 60
  {
    var mins := NatToString(n / 60);
    var secs := PadTwo(NatToString(n % 60));
    SecondsField(n);
    DigitsOfNat(n / 60);
    var r := FormatTime(Seconds(n));
    assert r == mins + ":" + secs;
    assert r[..|r| - 3] == mins;
    assert r[|r| - 2..] == secs;
  }

  /** Reads an `m:ss` clock back to a number of seconds. */
  function ReadClock(s: string): Option<nat>
  {
    if |s| >= 4 && s[|s| - 3] == ':' && AllDigits(s[..|s| - 3]) && AllDigits(s[|s| - 2..])
       && DigitsValue(s[|s| - 2..]) < 60
    then Some(60 * DigitsValue(s[..|s| - 3]) + DigitsValue(s[|s| - 2..]))
    else None
  }

  lemma ReadClockOfParts(r: string, minutes: nat, seconds: nat)
    requires |r| >= 4 && r[|r| - 3] == ':'
    requires AllDigits(r[..|r| - 3]) && DigitsValue(r[..|r| - 3]) == minutes
    requires AllDigits(r[|r| - 2..]) && DigitsValue(r[|r| - 2..]) == seconds < 60
    ensures ReadClock(r) == Some(60 * minutes + seconds)
  {
  }

  /** A formatted clock reads back as the whole seconds it was made from. */
  lemma FormatTimeReadsBack(n: nat)
    ensures ReadClock(FormatTime(Seconds(n))) == Some(n)
  {
    FormatTimeParts(n);
    ReadClockOfParts(FormatTime(Seconds(n)), n / 60, n % 60);
  }

  /** The episode the shared store says is current; only what the player shows of it. */
  datatype NowPlaying = NowPlaying(title: string, showTitle: string, image: string, file: string)

  /** What the player renders, when there is a current episode. */
  datatype PlayerView = PlayerView(title: string, showTitle: string, buttonLabel: string, elapsed: string, total: string)

  /**
   * The player's state. `audioMounted` stands for `audioRef.current`: the
   * audio element exists exactly while a current episode is rendered.
   */
  class Player {
    var currentEpisode: Option<NowPlaying>
    var audioMounted: bool
    var isPlaying: bool
    var currentTime: Time
    var duration: Time

    ghost predicate Valid()
      reads this
    {
      audioMounted == currentEpisode.Some?
    }

    constructor ()
      ensures Valid() && currentEpisode.None? && !isPlaying
      ensures currentTime == Seconds(0) && duration == Seconds(0)
    {
      currentEpisode := None;
      audioMounted := false;
      isPlaying := false;
      currentTime := Seconds(0);
      duration := Seconds(0);
    }

    /** `togglePlayPause`: flips the flag, or does nothing while there is no audio element. */
    method TogglePlayPause()
      requires Valid()
      modifies this`isPlaying
      ensures Valid()
      ensures isPlaying == if currentEpisode.Some? then !old(isPlaying) else old(isPlaying)
    {
      if !audioMounted {
        return;
      }
      isPlaying := !isPlaying;
    }

    /**
     * The store's current episode changes: the player re-renders (mounting or
     * unmounting the audio element), then the auto-play effect starts a new
     * episode. Clearing the episode leaves the flag as it was.
     */
    method EpisodeChanged(episode: Option<NowPlaying>)
      requires Valid()
      modifies this`currentEpisode, this`audioMounted, this`isPlaying
      ensures Valid() && currentEpisode == episode
      ensures isPlaying == if episode.Some? then true else old(isPlaying)
    {
      currentEpisode := episode;
      audioMounted := episode.Some?;
      if currentEpisode.Some? && audioMounted {
        isPlaying := true;
      }
    }

    /** The audio element's `ended` event. */
    method Ended()
      requires Valid()
      modifies this`isPlaying
      ensures Valid()
      ensures !isPlaying
    {
      isPlaying := false;
    }

    /** The `timeupdate` event: the element's current time. */
    method TimeUpdate(t: Time)
      requires Valid()
      modifies this`currentTime
      ensures Valid()
      ensures currentTime == t
    {
      currentTime := t;
    }

    /** The `loadedmetadata` event: the element's duration. */
    method LoadedMetadata(d: Time)
      requires Valid()
      modifies this`duration
      ensures Valid()
      ensures duration == d
    {
      duration := d;
    }

    /** The rendered player: nothing without a current episode. */
    function View(): (v: Option<PlayerView>)
      reads this
      ensures v.None? <==> currentEpisode.None?
      ensures v.Some? ==>
        && v.value.buttonLabel == (if isPlaying then "Pause" else "Play")
        && v.value.elapsed == FormatTime(currentTime)
        && v.value.total == FormatTime(duration)
    {
      match currentEpisode
      case None => None
      case Some(ep) =>
        Some(PlayerView(ep.title, ep.showTitle, if isPlaying then "Pause" else "Play",
          FormatTime(currentTime), FormatTime(duration)))
    }
  }
}
