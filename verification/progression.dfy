/**
 * The progression ledger: experience, level and gold, and how one resolved
 * catch of a given gold value updates them.
 */
module Progression {
  import opened Options

  /** The player's record. Diamonds are never changed, so they are not kept here. */
  datatype Player = Player(level: int, experience: nat, gold: int)

  /** A new player: level 1, no experience, 100 gold. */
  const InitialPlayer: Player := Player(1, 0, 100)

  /** Experience earned for a catch: `floor(value / 5)`. */
  function ExperienceGain(value: int): (gain: int)
    ensures 5 * gain <= value < 5 * gain + 5
  {
    value / 5
  }

  /** The level that total experience `experience` stands for: `floor(experience / 100) + 1`. */
  function LevelFor(experience: int): (level: int)
    ensures (level - 1) * 100 <= experience < level * 100
  {
    experience / 100 + 1
  }

  /** The level is the one the experience stands for. */
  predicate LevelConsistent(p: Player) {
    p.level == LevelFor(p.experience)
  }

  /** The level-up event a catch of `value` raises: the new level, if it is above the old one. */
  function LevelUpEvent(p: Player, value: nat): Option<int> {
    var newLevel := LevelFor(p.experience + ExperienceGain(value));
    if newLevel > p.level then Some(newLevel) else None
  }

  /** The gold bonus a level-up event carries: ten gold per level of the new level. */
  function Bonus(event: Option<int>): int {
    match event
    case Some(level) => level * 10
    case None => 0
  }

  /**
   * The ledger after a catch of `value`, with any level-up bonus paid at once.
   * The level is recomputed from the experience, and neither experience nor
   * (from a consistent record) the level goes down.
   */
  function ApplyCatch(p: Player, value: nat): (q: Player)
    ensures LevelConsistent(q)
    ensures q.experience >= p.experience
    ensures LevelConsistent(p) ==> q.level >= p.level
    ensures q.gold >= p.gold + value
  {
    var experience := p.experience + ExperienceGain(value);
    var level := LevelFor(experience);
    Player(level, experience, p.gold + value + Bonus(LevelUpEvent(p, value)))
  }

  /**
   * A level-up happens exactly when the recomputed level is above the old one,
   * and it pays one bonus of ten gold per new level, however many levels were gained.
   */
  lemma LevelUpPaysOnce(p: Player, value: nat)
    ensures LevelUpEvent(p, value).Some? <==> ApplyCatch(p, value).level > p.level
    ensures LevelUpEvent(p, value).Some? ==> LevelUpEvent(p, value).value == ApplyCatch(p, value).level
    ensures ApplyCatch(p, value).gold ==
      p.gold + value + (if ApplyCatch(p, value).level > p.level then ApplyCatch(p, value).level * 10 else 0)
  {
  }

  /** A first catch worth 20 from a new player: 4 experience, still level 1, 120 gold. */
  lemma FirstCatchExample()
    ensures ApplyCatch(InitialPlayer, 20) == Player(1, 4, 120)
    ensures LevelUpEvent(InitialPlayer, 20) == None
  {
  }

  /** From 96 experience, a catch worth 30 gives 102 experience, level 2 and a bonus of 20. */
  lemma LevelUpExample()
    ensures ApplyCatch(Player(1, 96, 0), 30) == Player(2, 102, 50)
    ensures LevelUpEvent(Player(1, 96, 0), 30) == Some(2)
  {
  }

  /** A catch worth 1000 from a new player jumps two levels and pays only the level-3 bonus (30). */
  lemma MultiLevelExample()
    ensures ApplyCatch(InitialPlayer, 1000) == Player(3, 200, 1130)
  {
  }

  /** The progress shown towards the next level: `experience % 100`. */
  function ExperienceProgress(p: Player): (progress: int)
    ensures 0 <= progress < 100
  {
    p.experience % 100
  }

  /** With a consistent record the shown progress is the experience earned within the current level. */
  lemma ProgressWithinLevel(p: Player)
    requires LevelConsistent(p)
    ensures p.experience == (p.level - 1) * 100 + ExperienceProgress(p)
  {
  }

  /** The ledger reached from a new player by applying catches of the given values in order. */
  function Replay(values: seq<nat>): Player {
    if values == [] then InitialPlayer
    else ApplyCatch(Replay(values[..|values| - 1]), values[|values| - 1])
  }

  /** Total experience earned for the given catch values. */
  function TotalGain(values: seq<nat>): int {
    if values == [] then 0
    else TotalGain(values[..|values| - 1]) + ExperienceGain(values[|values| - 1])
  }

  /** Total gold value of the given catches. */
  function TotalValue(values: seq<nat>): int {
    if values == [] then 0
    else TotalValue(values[..|values| - 1]) + values[|values| - 1]
  }

  /**
   * Replaying a history from a new player gives exactly the total experience
   * earned, the level that experience stands for, and at least the starting
   * gold plus the value of every catch.
   */
  lemma {:induction false} ReplayLedger(values: seq<nat>)
    ensures Replay(values).experience == TotalGain(values)
    ensures Replay(values).level == TotalGain(values) / 100 + 1
    ensures Replay(values).gold >= InitialPlayer.gold + TotalValue(values)
  {
    if values != [] {
      ReplayLedger(values[..|values| - 1]);
    }
  }
}
