/**
 * The three strengths the computer opponent can play at, the search settings
 * each one stands for, and the start menu that picks one.
 */
module Difficulty {
  import opened Wrappers
  import opened Geometry

  datatype Level = Easy | Normal | Hard

  /** Engine skill level, search depth ceiling and the advertised playing strength. */
  datatype Settings = Settings(skillLevel: nat, depth: nat, elo: string)

  function SettingsOf(level: Level): Settings
  {
    match level
    case Easy => Settings(1, 3, "~500")
    case Normal => Settings(5, 5, "~1000")
    case Hard => Settings(10, 7, "~1500")
  }

  /** Position of a level in the menu, from weakest to strongest. */
  function Rank(level: Level): nat
  {
    match level
    case Easy => 0
    case Normal => 1
    case Hard => 2
  }

  /** A stronger level searches with a strictly higher skill level and a strictly deeper ceiling. */
  lemma StrongerLevelSearchesHarder(a: Level, b: Level)
    ensures Rank(a) < Rank(b) <==>
              SettingsOf(a).skillLevel < SettingsOf(b).skillLevel && SettingsOf(a).depth < SettingsOf(b).depth
  {
  }

  /** The menu button of each level, stacked under one another. */
  function ButtonOf(level: Level): Rect
  {
    match level
    case Easy => Rect(WindowWidth / 2 - 100, 200, 200, 60)
    case Normal => Rect(WindowWidth / 2 - 100, 280, 200, 60)
    case Hard => Rect(WindowWidth / 2 - 100, 360, 200, 60)
  }

  /** No point lies on two menu buttons. */
  lemma MenuButtonsDisjoint(a: Level, b: Level, x: int, y: int)
    requires Collides(ButtonOf(a), x, y) && Collides(ButtonOf(b), x, y)
    ensures a == b
  {
  }

  /** The level whose button a click on the start menu hits, if any. */
  function MenuChoice(x: int, y: int): (choice: Option<Level>)
    ensures choice.Some? ==> Collides(ButtonOf(choice.value), x, y)
    ensures choice.None? <==> forall level: Level :: !Collides(ButtonOf(level), x, y)
  {
    if Collides(ButtonOf(Easy), x, y) then Some(Easy)
    else if Collides(ButtonOf(Normal), x, y) then Some(Normal)
    else if Collides(ButtonOf(Hard), x, y) then Some(Hard)
    else None
  }
}
