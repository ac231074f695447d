/** The session dots of the Ultradian and Desktime pages: one dot per session up to a cap
    (six and eight), the current session's dot pulsing, and a `+n` label for the sessions
    beyond the cap. */
module SessionDots {

  datatype DotStyle = Done | Current | Upcoming

  /** `Math.min(session, shown)` dots are drawn. */
  function DotCount(shown: nat, session: nat): (r: nat)
    ensures r <= shown && r <= session
    ensures r == session <==> session <= shown
    ensures session > shown ==> r == shown
  {
    if session < shown then session else shown
  }

  /** Dot `i` is a finished session, the current (pulsing) one, or a dim one. */
  function StyleOf(session: nat, i: nat): (r: DotStyle)
    ensures r == Done <==> i + 1 < session
    ensures r == Current <==> i + 1 == session
  {
    if i < session - 1 then Done else if i == session - 1 then Current else Upcoming
  }

  /** The `+n` label, shown only beyond the cap. */
  function Overflow(shown: nat, session: nat): (r: nat)
    ensures r > 0 <==> session > shown
    ensures session > shown ==> r == session - shown
    ensures DotCount(shown, session) + r == session
  {
    if session > shown then session - shown else 0
  }

  /** From session 1 on, at least one dot is drawn and none is dim; the pulsing dot is drawn
      exactly while the session count has not passed the cap. */
  lemma Display(shown: nat, session: nat)
    requires shown >= 1 && session >= 1
    ensures 1 <= DotCount(shown, session) <= shown
    ensures forall i :: 0 <= i < DotCount(shown, session) ==> StyleOf(session, i) != Upcoming
    ensures (exists i :: 0 <= i < DotCount(shown, session) && StyleOf(session, i) == Current)
            <==> session <= shown
  {
    if session <= shown {
      assert StyleOf(session, session - 1) == Current;
    }
  }
}
