/** The shared client-side types: the game's screens, the result a player submits,
    and the constant table of rank bands keyed by timing difference. */
module GameTypes {

  /** The five screens a round moves through. */
  datatype GameState = NameEntry | TargetDisplay | TimerVisible | TimerHidden | Results

  const AllGameStates: seq<GameState> := [NameEntry, TargetDisplay, TimerVisible, TimerHidden, Results]

  /** One finished attempt, as the client holds it and sends it to the server. */
  datatype PlayerResult = PlayerResult(name: string, difference: real, accuracy: real, target: real, actual: real)

  /** An upper bound of a band: a finite number, or none at all (`Infinity`). */
  datatype Bound = Finite(value: real) | Unbounded

  /** One rank band: differences from `minDiff` up to `maxDiff` earn `title`. */
  datatype RankInfo = RankInfo(title: string, color: string, minDiff: real, maxDiff: Bound)

  const RANKS: seq<RankInfo> := [
    RankInfo("TIME LORD", "#ff00ff", 0.0, Finite(0.1)),
    RankInfo("MASTER", "#00ffff", 0.1, Finite(0.5)),
    RankInfo("EXPERT", "#ffff00", 0.5, Finite(1.0)),
    RankInfo("SKILLED", "#00ff00", 1.0, Finite(1.5)),
    RankInfo("NOVICE", "#ff9900", 1.5, Finite(2.0)),
    RankInfo("BEGINNER", "#ff0000", 2.0, Unbounded)
  ]

  /** `d` lies strictly below the bound `b`. */
  predicate Below(d: real, b: Bound) {
    b.Unbounded? || d < b.value
  }

  /** `d` falls in the band read as the half-open interval [minDiff, maxDiff). */
  predicate InBand(band: RankInfo, d: real) {
    band.minDiff <= d && Below(d, band.maxDiff)
  }

  /** Each band ends exactly where the next one starts. */
  predicate Contiguous(t: seq<RankInfo>) {
    forall i :: 0 <= i < |t| - 1 ==> t[i].maxDiff == Finite(t[i + 1].minDiff)
  }

  /** Every band holds at least one value: its lower end lies below its upper end. */
  predicate NonEmptyBands(t: seq<RankInfo>) {
    forall i :: 0 <= i < |t| ==> Below(t[i].minDiff, t[i].maxDiff)
  }

  /** The last band has no upper bound. */
  predicate OpenTop(t: seq<RankInfo>) {
    |t| > 0 && t[|t| - 1].maxDiff.Unbounded?
  }

  /** The game state type has exactly the five listed values, each once. */
  lemma GameStatesAreFive()
    ensures |AllGameStates| == 5
    ensures forall g: GameState :: g in AllGameStates
    ensures forall i, j :: 0 <= i < j < |AllGameStates| ==> AllGameStates[i] != AllGameStates[j]
  {
    forall g: GameState ensures g in AllGameStates {
      match g
      case NameEntry => assert AllGameStates[0] == g;
      case TargetDisplay => assert AllGameStates[1] == g;
      case TimerVisible => assert AllGameStates[2] == g;
      case TimerHidden => assert AllGameStates[3] == g;
      case Results => assert AllGameStates[4] == g;
    }
  }

  /** The table holds six bands in a fixed order, with distinct titles. */
  lemma RankTitlesInOrder()
    ensures |RANKS| == 6
    ensures RANKS[0].title == "TIME LORD" && RANKS[1].title == "MASTER" && RANKS[2].title == "EXPERT"
    ensures RANKS[3].title == "SKILLED" && RANKS[4].title == "NOVICE" && RANKS[5].title == "BEGINNER"
    ensures forall i, j :: 0 <= i < j < |RANKS| ==> RANKS[i].title != RANKS[j].title
  {
  }

  /** The shape of the table: it starts at 0, has no gaps, no empty band and an open top. */
  lemma RanksWellFormed()
    ensures RANKS[0].minDiff == 0.0
    ensures Contiguous(RANKS)
    ensures NonEmptyBands(RANKS)
    ensures OpenTop(RANKS)
  {
  }

  /** In a contiguous table of non-empty bands, a band ends no later than any later band starts. */
  lemma {:induction false} EndNotAfterLaterStart(t: seq<RankInfo>, i: nat, j: nat)
    requires Contiguous(t) && NonEmptyBands(t)
    requires i < j < |t|
    ensures t[i].maxDiff.Finite? && t[i].maxDiff.value <= t[j].minDiff
    decreases j - i
  {
    assert t[i].maxDiff == Finite(t[i + 1].minDiff);
    if i + 1 < j {
      EndNotAfterLaterStart(t, i + 1, j);
      assert Below(t[i + 1].minDiff, t[i + 1].maxDiff);
    }
  }

  /** In such a table the lower bounds strictly increase. */
  lemma {:induction false} LowerBoundsIncrease(t: seq<RankInfo>, i: nat, j: nat)
    requires Contiguous(t) && NonEmptyBands(t)
    requires i < j < |t|
    ensures t[i].minDiff < t[j].minDiff
  {
    EndNotAfterLaterStart(t, i, j);
  }

  /** A contiguous table with an open top covers every value from its first lower bound up. */
  lemma {:induction false} Covers(t: seq<RankInfo>, d: real)
    requires Contiguous(t) && OpenTop(t)
    requires t[0].minDiff <= d
    ensures exists i :: 0 <= i < |t| && InBand(t[i], d)
    decreases |t|
  {
    if !InBand(t[0], d) {
      assert |t| > 1;
      var rest := t[1..];
      assert Contiguous(rest) by {
        forall k | 0 <= k < |rest| - 1
          ensures rest[k].maxDiff == Finite(rest[k + 1].minDiff)
        {
          assert rest[k] == t[k + 1] && rest[k + 1] == t[k + 2];
        }
      }
      Covers(rest, d);
      var k :| 0 <= k < |rest| && InBand(rest[k], d);
      assert InBand(t[k + 1], d);
    }
  }

  /** In a contiguous table of non-empty bands, no value lies in two bands. */
  lemma BandsDisjoint(t: seq<RankInfo>, d: real, i: nat, j: nat)
    requires Contiguous(t) && NonEmptyBands(t)
    requires i < |t| && j < |t|
    requires InBand(t[i], d) && InBand(t[j], d)
    ensures i == j
  {
    if i < j {
      EndNotAfterLaterStart(t, i, j);
    } else if j < i {
      EndNotAfterLaterStart(t, j, i);
    }
  }

  /** Every non-negative difference lies in exactly one band of RANKS. */
  lemma EveryDifferenceHasOneBand(d: real)
    requires d >= 0.0
    ensures exists i :: 0 <= i < |RANKS| && InBand(RANKS[i], d)
    ensures forall i, j :: 0 <= i < |RANKS| && 0 <= j < |RANKS| && InBand(RANKS[i], d) && InBand(RANKS[j], d) ==> i == j
  {
    RanksWellFormed();
    Covers(RANKS, d);
    forall i, j | 0 <= i < |RANKS| && 0 <= j < |RANKS| && InBand(RANKS[i], d) && InBand(RANKS[j], d)
      ensures i == j
    {
      BandsDisjoint(RANKS, d, i, j);
    }
  }
}
