/** The music player: a cursor over a fixed list of five tracks that wraps both ways, and a
    play/pause flag. The embedded video and the volume slider are not modelled. */
module MusicPlayer {

  const TrackTitles: seq<string> :=
    ["Lofi Hip Hop Study", "Calm Study Beats", "Focus Lofi Mix", "Study Vibes", "Peaceful Study"]

  function TrackCount(): (n: nat)
    ensures n == 5
  {
    |TrackTitles|
  }

  /** nextTrack: `(prev + 1) % length`, a valid index again. */
  function NextIndex(i: nat): (r: nat)
    requires i < TrackCount()
    ensures r < TrackCount()
    ensures r == 0 <==> i == TrackCount() - 1
  {
    (i + 1) % TrackCount()
  }

  /** prevTrack: `(prev - 1 + length) % length`, a valid index again. */
  function PrevIndex(i: nat): (r: nat)
    requires i < TrackCount()
    ensures r < TrackCount()
    ensures r == TrackCount() - 1 <==> i == 0
  {
    (i - 1 + TrackCount()) % TrackCount()
  }

  /** Next and previous undo each other. */
  lemma NextPrevInverse(i: nat)
    requires i < TrackCount()
    ensures PrevIndex(NextIndex(i)) == i
    ensures NextIndex(PrevIndex(i)) == i
  {
  }

  /** `k` presses of next. */
  function NextTimes(i: nat, k: nat): (r: nat)
    requires i < TrackCount()
    ensures r < TrackCount()
  {
    if k == 0 then i else NextIndex(NextTimes(i, k - 1))
  }

  lemma {:induction false} NextTimesAdds(i: nat, k: nat)
    requires i < TrackCount()
    ensures NextTimes(i, k) == (i + k) % TrackCount()
  {
    if k > 0 {
      NextTimesAdds(i, k - 1);
    }
  }

  /** Five presses of next come back to the starting track. */
  lemma FiveNextsReturn(i: nat)
    requires i < TrackCount()
    ensures NextTimes(i, 5) == i
  {
    NextTimesAdds(i, 5);
    assert (i + 5) % 5 == i;
  }

  datatype Button = Prev | PlayPause | Next

  /** The track after a sequence of button presses. */
  function TrackAfter(i: nat, presses: seq<Button>): (r: nat)
    requires i < TrackCount()
    ensures r < TrackCount()
    decreases |presses|
  {
    if presses == [] then i
    else
      var j := match presses[0]
        case Next => NextIndex(i)
        case Prev => PrevIndex(i)
        case PlayPause => i;
      TrackAfter(j, presses[1..])
  }

  /** "Track n of 5": n is 1..5. */
  function TrackLabel(i: nat): (n: nat)
    requires i < TrackCount()
    ensures 1 <= n <= TrackCount()
  {
    i + 1
  }

  class Player {
    var currentTrack: nat
    var isPlaying: bool

    ghost predicate Valid()
      reads this
    {
      currentTrack < TrackCount()
    }

    constructor ()
      ensures Valid() && currentTrack == 0 && !isPlaying
    {
      currentTrack := 0;
      isPlaying := false;
    }

    method NextTrack()
      requires Valid()
      modifies this
      ensures Valid() && currentTrack == NextIndex(old(currentTrack)) && isPlaying == old(isPlaying)
    {
      currentTrack := (currentTrack + 1) % TrackCount();
    }

    method PrevTrack()
      requires Valid()
      modifies this
      ensures Valid() && currentTrack == PrevIndex(old(currentTrack)) && isPlaying == old(isPlaying)
    {
      currentTrack := (currentTrack - 1 + TrackCount()) % TrackCount();
    }

    method TogglePlay()
      requires Valid()
      modifies this
      ensures Valid() && isPlaying == !old(isPlaying) && currentTrack == old(currentTrack)
    {
      isPlaying := !isPlaying;
    }

    /** The title on display. */
    function Title(): (t: string)
      reads this
      requires Valid()
      ensures t in TrackTitles
    {
      TrackTitles[currentTrack]
    }
  }
}
