/** The frame buffer policy of the per-tick update: a pull overwrites the last
    good frame only when it produced a non-empty frame; a null, empty or
    throwing pull keeps the stale frame rather than a blank one. */
module Frames {
  import opened Sources

  /** lastMatFromSource after one pull from the active source. */
  function AfterPull(last: Mat, pulled: Pull): (m: Mat)
    ensures IsFresh(pulled) ==> m == pulled.mat
    ensures !IsFresh(pulled) ==> m == last
    ensures !last.Empty() ==> !m.Empty()
  {
    if IsFresh(pulled) then pulled.mat else last
  }

  /** lastMatFromSource after one tick per element of pulls, oldest first. */
  function AfterPulls(init: Mat, pulls: seq<Pull>): Mat
    decreases |pulls|
  {
    if pulls == [] then init
    else AfterPull(AfterPulls(init, pulls[..|pulls| - 1]), pulls[|pulls| - 1])
  }

  /** After any run of ticks the buffer holds the most recent fresh frame,
      or its initial contents when no tick produced one. */
  lemma {:induction false} AfterPullsIsLatestFresh(init: Mat, pulls: seq<Pull>)
    ensures (forall i :: 0 <= i < |pulls| ==> !IsFresh(pulls[i])) ==> AfterPulls(init, pulls) == init
    ensures forall i :: 0 <= i < |pulls| && IsFresh(pulls[i]) &&
                        (forall j :: i < j < |pulls| ==> !IsFresh(pulls[j])) ==>
                          AfterPulls(init, pulls) == pulls[i].mat
    decreases |pulls|
  {
    if pulls != [] {
      var n := |pulls| - 1;
      var front := pulls[..n];
      AfterPullsIsLatestFresh(init, front);
      assert forall i :: 0 <= i < n ==> front[i] == pulls[i];
    }
  }

  /** Once the buffer holds a non-empty frame it never turns blank again. */
  lemma {:induction false} NeverBlanked(init: Mat, pulls: seq<Pull>)
    requires !init.Empty()
    ensures !AfterPulls(init, pulls).Empty()
    decreases |pulls|
  {
    if pulls != [] {
      NeverBlanked(init, pulls[..|pulls| - 1]);
    }
  }
}
