/** The phases of an install operation and the histories they may have. */
module Phases {

  datatype Phase =
    | Queued | Preflighting | Resolving | Downloading | Verifying | Installing | Registering | Reloading
    | Succeeded | Cancelled | Failed

  predicate Terminal(p: Phase) {
    p.Succeeded? || p.Cancelled? || p.Failed?
  }

  const HAPPY_PATH :=
    [Queued, Preflighting, Resolving, Downloading, Verifying, Installing, Registering, Reloading, Succeeded]

  /** Position on the happy path, if the phase is on it. */
  function Rank(p: Phase): (r: int)
    ensures r >= 0 ==> r < |HAPPY_PATH| && HAPPY_PATH[r] == p
    ensures r < 0 <==> p.Cancelled? || p.Failed?
  {
    match p
    case Queued => 0
    case Preflighting => 1
    case Resolving => 2
    case Downloading => 3
    case Verifying => 4
    case Installing => 5
    case Registering => 6
    case Reloading => 7
    case Succeeded => 8
    case Cancelled => -1
    case Failed => -1
  }

  predicate CanTransition(from: Phase, to: Phase) {
    !Terminal(from) && (to.Cancelled? || to.Failed? || (Rank(from) >= 0 && Rank(to) == Rank(from) + 1))
  }

  /** An operation may fail or be cancelled in any phase that does not end it, goes on
      only to the next phase of the happy path, and nowhere from its end. */
  lemma AllowedSteps(from: Phase, to: Phase)
    ensures !Terminal(from) && (to == Cancelled || to == Failed) ==> CanTransition(from, to)
    ensures Terminal(from) ==> !CanTransition(from, to)
    ensures CanTransition(from, to) && to != Cancelled && to != Failed <==>
              exists k :: 0 <= k < |HAPPY_PATH| - 1 && HAPPY_PATH[k] == from && HAPPY_PATH[k + 1] == to
  {
    if CanTransition(from, to) && to != Cancelled && to != Failed {
      assert HAPPY_PATH[Rank(from)] == from && HAPPY_PATH[Rank(from) + 1] == to;
    }
    if k :| 0 <= k < |HAPPY_PATH| - 1 && HAPPY_PATH[k] == from && HAPPY_PATH[k + 1] == to {
      assert Rank(HAPPY_PATH[k]) == k && Rank(HAPPY_PATH[k + 1]) == k + 1;
    }
  }

  // ----- Histories of the stored phase -----

  /** Each phase stored is the one before it or an allowed step from it. */
  ghost predicate Legal(h: seq<Phase>) {
    forall i :: 0 <= i < |h| - 1 ==> h[i + 1] == h[i] || CanTransition(h[i], h[i + 1])
  }

  /** Once terminal, always the same. */
  ghost predicate Final(h: seq<Phase>) {
    forall i, j :: 0 <= i < j < |h| && Terminal(h[i]) ==> h[j] == h[i]
  }

  /** A history of allowed steps never leaves a terminal phase. */
  lemma {:induction false} LegalIsFinal(h: seq<Phase>)
    requires Legal(h)
    ensures Final(h)
  {
    if |h| >= 2 {
      var front := h[..|h| - 1];
      assert Legal(front) by {
        forall i | 0 <= i < |front| - 1 ensures front[i + 1] == front[i] || CanTransition(front[i], front[i + 1]) {
          assert h[i + 1] == h[i] || CanTransition(h[i], h[i + 1]);
        }
      }
      LegalIsFinal(front);
      assert h[|h| - 2 + 1] == h[|h| - 2] || CanTransition(h[|h| - 2], h[|h| - 1]);
      assert front + [h[|h| - 1]] == h;
    }
  }

  /** A history that starts queued reaches a phase of the happy path only after
      storing every earlier one in turn. */
  lemma {:induction false} NothingSkipped(h: seq<Phase>, j: nat, p: Phase)
    requires Legal(h) && h != [] && h[0] == Queued && j < |h|
    requires 0 <= Rank(p) <= Rank(h[j])
    ensures p in h[..j + 1]
    decreases j
  {
    if h[j] == p {
      assert h[..j + 1][j] == p;
    } else {
      assert HAPPY_PATH[Rank(p)] == p && HAPPY_PATH[Rank(h[j])] == h[j];
      assert j > 0;
      assert h[j - 1 + 1] == h[j - 1] || CanTransition(h[j - 1], h[j]);
      assert Rank(h[j - 1]) >= 0 by {
        if h[j] != h[j - 1] {
          assert CanTransition(h[j - 1], h[j]);
        }
      }
      NothingSkipped(h, j - 1, p);
      assert h[..j + 1] == h[..j] + [h[j]];
    }
  }
}
