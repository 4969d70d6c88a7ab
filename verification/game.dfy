/**
 * The fishing screen's state and its three events: starting an attempt,
 * resolving it with the three random draws, and dismissing the catch display.
 * Timers and phase messages are not modelled; resolution is one discrete event.
 */
module Game {
  import opened Options
  import opened Reward
  import opened Progression

  /** The gold values of a history, in order. */
  function Values(history: seq<Catch>): (values: seq<nat>)
    requires forall i :: 0 <= i < |history| ==> history[i].value >= 0
    ensures |values| == |history|
    ensures forall i :: 0 <= i < |history| ==> values[i] == history[i].value
  {
    seq(|history|, i requires 0 <= i < |history| => history[i].value as nat)
  }

  /** Appending a catch appends its value. */
  lemma ValuesAppend(history: seq<Catch>, c: Catch)
    requires forall i :: 0 <= i < |history| ==> history[i].value >= 0
    requires c.value >= 0
    ensures Values(history + [c]) == Values(history) + [c.value as nat]
  {
    assert forall i :: 0 <= i < |history| ==> (history + [c])[i] == history[i];
  }

  /** Appending a catch to a history applies it to the replayed ledger. */
  lemma ReplayAppend(history: seq<Catch>, c: Catch)
    requires forall i :: 0 <= i < |history| ==> history[i].value >= 0
    requires c.value >= 0
    ensures Replay(Values(history + [c])) == ApplyCatch(Replay(Values(history)), c.value as nat)
  {
    ValuesAppend(history, c);
    var vs := Values(history + [c]);
    assert vs[..|vs| - 1] == Values(history);
  }

  class FishingGame {
    var isFishing: bool
    var showCatch: bool
    var currentFish: Option<Catch>
    var player: Player
    var caughtFish: seq<Catch>

    /**
     * The state invariant: every recorded catch is one the engine can produce,
     * the ledger is the replay of the history from a new player, the displayed
     * catch is the latest one, and a catch is never displayed mid-attempt.
     */
    ghost predicate Valid()
      reads this
    {
      (forall i :: 0 <= i < |caughtFish| ==> WellFormedCatch(caughtFish[i])) &&
      player == Replay(Values(caughtFish)) &&
      currentFish == (if caughtFish == [] then None else Some(caughtFish[|caughtFish| - 1])) &&
      (showCatch ==> currentFish.Some?) &&
      !(isFishing && showCatch)
    }

    /** A new game: idle, nothing displayed, a new player, an empty history. */
    constructor ()
      ensures Valid()
      ensures !isFishing && !showCatch && currentFish == None
      ensures player == InitialPlayer && caughtFish == []
    {
      isFishing := false;
      showCatch := false;
      currentFish := None;
      player := InitialPlayer;
      caughtFish := [];
    }

    /**
     * The start intent. While an attempt is in flight it changes nothing;
     * otherwise it starts one and hides the previous catch.
     */
    method StartFishing()
      requires Valid()
      modifies this
      ensures Valid()
      ensures old(isFishing) ==> isFishing == old(isFishing) && showCatch == old(showCatch)
      ensures !old(isFishing) ==> isFishing && !showCatch
      ensures player == old(player) && caughtFish == old(caughtFish) && currentFish == old(currentFish)
    {
      if isFishing {
        return;
      }
      isFishing := true;
      showCatch := false;
    }

    /**
     * The end of an attempt, with draws r1 (rarity), r2 (species) and r3 (size).
     * Exactly one catch is appended to the history and displayed, the ledger
     * takes its value with any level-up bonus, and the attempt is over.
     * `levelUp` is the level-up event (the new level) when one was raised.
     */
    method Resolve(r1: real, r2: real, r3: real) returns (caught: Catch, levelUp: Option<int>)
      requires Valid() && isFishing
      requires 0.0 <= r2 < 1.0 && 0.0 <= r3 < 1.0
      modifies this
      ensures Valid()
      ensures caught == CatchFor(r1, r2, r3)
      ensures caughtFish == old(caughtFish) + [caught]
      ensures currentFish == Some(caught) && showCatch && !isFishing
      ensures player == ApplyCatch(old(player), caught.value)
      ensures levelUp == LevelUpEvent(old(player), caught.value)
      ensures levelUp.Some? <==> player.level > old(player.level)
      ensures player.experience >= old(player.experience) && player.level >= old(player.level)
      ensures player.level == player.experience / 100 + 1
    {
      caught := ResolveCatch(r1, r2, r3);
      levelUp := Record(caught);
    }

    /** Records a resolved catch: display it, end the attempt, credit the ledger, append it. */
    method Record(caught: Catch) returns (levelUp: Option<int>)
      requires Valid() && isFishing
      requires WellFormedCatch(caught)
      modifies this
      ensures Valid()
      ensures caughtFish == old(caughtFish) + [caught]
      ensures currentFish == Some(caught) && showCatch && !isFishing
      ensures player == ApplyCatch(old(player), caught.value)
      ensures levelUp == LevelUpEvent(old(player), caught.value)
      ensures levelUp.Some? <==> player.level > old(player.level)
      ensures player.experience >= old(player.experience) && player.level >= old(player.level)
      ensures player.level == player.experience / 100 + 1
    {
      ReplayAppend(caughtFish, caught);
      LevelUpPaysOnce(player, caught.value);

      currentFish := Some(caught);
      showCatch := true;
      isFishing := false;
      levelUp := Credit(caught.value);
      caughtFish := caughtFish + [caught];
    }

    /**
     * The ledger update for a catch worth `value`: gold and experience grow, the
     * level is recomputed from the experience, and a level-up pays its bonus.
     */
    method Credit(value: nat) returns (levelUp: Option<int>)
      modifies this
      ensures player == ApplyCatch(old(player), value)
      ensures levelUp == LevelUpEvent(old(player), value)
      ensures isFishing == old(isFishing) && showCatch == old(showCatch)
      ensures currentFish == old(currentFish) && caughtFish == old(caughtFish)
    {
      var oldLevel := player.level;
      var newExp := player.experience + value / 5;
      var newLevel := newExp / 100 + 1;
      player := player.(gold := player.gold + value, experience := newExp, level := newLevel);
      levelUp := None;
      if newLevel > oldLevel {
        levelUp := Some(newLevel);
        player := player.(gold := player.gold + newLevel * 10);
      }
    }

    /** Dismissing the catch display hides it and changes nothing else. */
    method DismissCatch()
      requires Valid()
      modifies this
      ensures Valid()
      ensures !showCatch
      ensures isFishing == old(isFishing) && currentFish == old(currentFish)
      ensures player == old(player) && caughtFish == old(caughtFish)
    {
      showCatch := false;
    }

    /** The experience progress bar of the main screen, always in [0, 100). */
    function Progress(): (progress: int)
      reads this
      ensures 0 <= progress < 100
    {
      ExperienceProgress(player)
    }
  }
}
