# Tunnels & Trolls combat simulator, modelled in Dafny

This project models the combat engine of the Tunnels & Trolls combat simulator
and its XP-edition driver, and proves properties of the model.

- **`combat.dfy`, module `Combat`.** This is the engine from `combat.py`.
  - Weapons and armour are values. A weapon rolls its damage dice plus its adds, and counts "spite", the sixes on a fresh throw of its dice.
  - A character is a class. It has fixed statistics, combat adds derived from strength, dexterity, speed and luck, and two mutable fields: constitution (`con`) and XP.
  - A character can be written to a flat record and read back. Reading a record can fail, and the failure is modelled.
  - One combat round: both sides roll, the lower total takes the difference as damage shared among its living members (armour subtracted), then each side's spite hits every living member of the other side.
  - The battle repeats rounds until a side has nobody alive.
  - Everything is stated twice. A value-level specification works on sequences of constitutions: `AfterDamage`, `AfterSpite`, `TeamRoll`, `Round`, `BattleRun`. Imperative methods (`DistributeDamage`, `ApplySpite`, `CombatRound`, `Battle`) update the characters in place and are proved equal to that specification.
- **`simulator.dfy`, module `Simulator`.** This is the driver from `tnt_simulator_xp_commented.py`.
  - `award_xp`.
  - `team_builder`, over a script of answers.
  - One encounter: rounds with a continue / disengage / quit answer after each round, then 100 XP to the side left standing alone.

Dice are not random here. A `DiceStream` (`nat -> Die`) gives the face drawn
at every position, and every roll names the position of its first draw. Each
weapon roll draws `max(0, dice)` faces, because Python's `range` of a negative
count is empty. A round's spite is drawn from fresh positions after the damage
dice, as the source rolls again for it. A round is thus a function of the
stream and a cursor, and the methods return the cursor after their draws.

## Model

| member | source | states |
|---|---|---|
| `Combat.SumDice` | combat.py:14 | the sum of n dice lies between n and 6n |
| `Combat.CountSixes` | combat.py:18 | at most one six per die thrown |
| `Combat.Weapon.RollDamage` | combat.py:13-14 | a weapon's damage lies between dice+adds and 6·dice+adds (dice counted as max(0, dice)) |
| `Combat.Weapon.CountSpite` | combat.py:17-18 | spite is at most the number of dice thrown |
| `Combat.SwordDamageRange` | test_combat.py:29-34 | the test suite's sword (3 dice, +2) always does 5 to 20 |
| `Combat.Weapon.ToDict` | combat.py:21-22 | exports name, dice and adds; `WeaponRoundTrip` proves `WeaponFromDict` reads them back unchanged |
| `Combat.WeaponFromDict` | combat.py:25-27 | reads name, dice and adds in that order, refusing a missing key; `WeaponRoundTrip` proves it inverts `Weapon.ToDict` |
| `Combat.Armor.ToDict` | combat.py:37-38 | exports name and protection; `ArmorRoundTrip` proves `ArmorFromDict` reads them back unchanged |
| `Combat.ArmorFromDict` | combat.py:41-43 | reads name and protection, refusing a missing key; `ArmorRoundTrip` proves it inverts `Armor.ToDict` |
| `Combat.Field` | combat.py:27 | indexing a record succeeds exactly when it is a record holding the key, and then yields that entry |
| `Combat.WeaponRoundTrip` | combat.py:21-27 | `Weapon.from_dict(w.to_dict())` gives back `w` |
| `Combat.ArmorRoundTrip` | combat.py:37-43 | `Armor.from_dict(a.to_dict())` gives back `a` |
| `Combat.CalculateAdds` | combat.py:62-69 | the loop's result is the sum over the four attributes of (attr − 12 above 12, −(9 − attr) below 9, 0 otherwise) |
| `Combat.ContributionBands` | combat.py:64-68 | attributes 9..12 add nothing; each point above 12 adds one, each point below 9 takes one away |
| `Combat.ContributionMonotone` | combat.py:64-68 | raising an attribute never lowers the adds |
| `Combat.HeroAdds` | test_combat.py:16-21 | the test suite's hero (14, 13, 12, 10) has adds 3 |
| `Combat.SheetToDict` | combat.py:86-97 | writes every sheet value under its key, weapon and armour as nested records; `SheetRoundTrip` proves `SheetFromDict` inverts it |
| `Combat.SheetFromDict` | combat.py:100-112 | reads the weapon, the armour, then the scalar fields, refusing the first missing key; `SheetRoundTrip` and `MissingWeaponRefused` state its result |
| `Combat.Character.constructor` | combat.py:48-59 | a new character holds the given values, has full constitution, adds computed from the attributes, and XP 0 |
| `Combat.Character.IsAlive` | combat.py:72-73 | alive means constitution above 0; `Healths` and `CountAlive` count exactly these members (`LivingMembers`) |
| `Combat.Character.RollAttack` | combat.py:76-79 | the total exceeds the weapon roll by exactly the character's adds; the weapon roll is within the weapon's range |
| `Combat.Character.RollSpite` | combat.py:82-83 | spite is at most the weapon's dice count |
| `Combat.Character.ToDict` | combat.py:86-97 | exports the sheet with the current constitution; `SaveAndRestore` proves loading it back keeps every exported value |
| `Combat.SheetRoundTrip` | combat.py:86-112 | reading back an exported record gives every exported value |
| `Combat.MissingWeaponRefused` | combat.py:101 | a record without a weapon is refused with a missing-key error for "weapon" |
| `Combat.Character.FromDict` | combat.py:99-112 | a malformed record gives the error the reading order meets first; a complete one gives a fresh character built from its values with XP 0 |
| `Combat.SaveAndRestore` | test_combat.py:48-54 | saving and loading keeps name, attributes, current constitution, weapon, armour and adds; max constitution becomes the saved current one; XP restarts at 0 |
| `Combat.CountAlive` | combat.py:154 | the number of living members is at most the roster size |
| `Combat.NoneAlive` | combat.py:154-156 | nobody counted alive exactly when no constitution is above 0 |
| `Combat.AnyAlive` | combat.py:177-184 | somebody on the side has constitution above 0; `NoneAlive` proves it false exactly when the alive count is 0 |
| `Combat.AfterDamage` | combat.py:153-161 | keeps the roster's length; `DamageShare` states each member's new constitution and `DamageNeverHeals` that nobody heals |
| `Combat.AfterSpite` | combat.py:165-171 | keeps the roster's length; `SpiteEffect` states that each living member loses exactly the spite and the dead are untouched |
| `Combat.DamageShare` | combat.py:153-161 | with nobody alive nothing changes; a living member loses max(0, damage // alive − protection) |
| `Combat.DamageNeverHeals` | combat.py:159-161 | distribution never raises a constitution and never touches a dead member |
| `Combat.SpiteEffect` | combat.py:165-171 | spite takes its amount off every living member, ignoring armour, and leaves the dead alone |
| `Combat.HeroTakesDamage` | test_combat.py:42-46 | the hero (30 con, armour 4) alone takes 10 damage and ends at 24 |
| `Combat.HeroSuffersSpite` | test_combat.py:36-40 | the hero alone suffers 2 spite and ends at 28 |
| `Combat.DefeatIsFinal` | combat.py:153-171 | a side with nobody alive stays so through damage and spite |
| `Combat.Turn` | combat.py:125-128 | a living member's turn uses 2·dice stream positions and yields 0..dice spite |
| `Combat.TeamRoll` | combat.py:124-134 | one side's totals, living members in roster order; `TeamRollDraws`, `DeadSideRollsNothing` and `RollsDependOnLivenessOnly` state its draws, its bounds and what it depends on |
| `Combat.TeamRollDraws` | combat.py:124-134 | a side's rolls use two positions per weapon die of each living member; its spite is between 0 and that dice total |
| `Combat.DeadSideRollsNothing` | combat.py:124-128 | a side with nobody alive attacks for 0, has no spite and draws nothing |
| `Combat.RollsDependOnLivenessOnly` | combat.py:124-134 | a side's rolls depend only on who is alive, not on how much constitution they have |
| `Combat.Resolve` | combat.py:139-149 | resolving an exchange keeps both rosters' shapes |
| `Combat.Round` | combat.py:116-149 | a round keeps both rosters' shapes |
| `Combat.RoundDraws` | combat.py:124-134 | a round advances the cursor by two positions per weapon die of every living member of either side |
| `Combat.WinnerTakesOnlySpite` | combat.py:139-149 | the side with the higher total (either side on a tie) takes only the other side's spite |
| `Combat.SideNeverHeals` | combat.py:139-149 | a side's damage-then-spite never heals and leaves the dead alone |
| `Combat.ResolveNeverHeals` | combat.py:139-149 | an exchange with non-negative spite never heals either side |
| `Combat.RoundNeverHeals` | combat.py:116-149 | a round never heals and leaves the dead untouched |
| `Combat.SpiteAfterDistribution` | combat.py:140-148 | when team 2 loses, spite comes after the distribution: a member whose share takes it to 0 or below gets no spite that round, a survivor loses the full spite |
| `Combat.SpiteAfterDistributionOnTeam1` | combat.py:142-149 | the same order when team 1 loses: a member of team 1 taken to 0 or below by its share gets no spite, a survivor loses team 2's full spite |
| `Combat.RunStep` | combat.py:177-179 | while both sides stand, one more round continues the battle |
| `Combat.RunSettled` | combat.py:177 | once a side is wiped out, further rounds change nothing |
| `Combat.RunNeverHeals` | combat.py:177-179 | if no round heals, no sequence of rounds does |
| `Combat.Run` | combat.py:177-180 | rounds are taken while both sides stand; `RunStep`, `RunSettled` and `RunNeverHeals` state how it continues, settles and never heals |
| `Combat.BattleRun` | combat.py:175-180 | the battle on values; `Battle` is proved to end in this state and `BattleNeverHeals` states that nobody heals over it |
| `Combat.BattleNeverHeals` | combat.py:175-180 | over a whole battle nobody heals and the fallen are never touched |
| `Combat.Classify` | combat.py:183-189 | "No one" exactly when both sides are down, otherwise the side still alive |
| `Combat.RollTeam` | combat.py:124-134 | the rolling loop computes exactly `TeamRoll` of the side's current constitutions |
| `Combat.LivingMembers` | combat.py:154 | the alive list holds exactly the living members, each once, and its length is the alive count |
| `Combat.ShareOut` | combat.py:159-161 | each listed member loses its share less armour; everybody else keeps their constitution |
| `Combat.DistributeDamage` | combat.py:153-161 | the roster's constitutions become `AfterDamage` of the old ones |
| `Combat.ApplySpite` | combat.py:165-171 | the roster's constitutions become `AfterSpite` of the old ones |
| `Combat.Distribution` | combat.py:140-145 | only the lower side takes the difference of the totals; a tie damages nobody |
| `Combat.Spites` | combat.py:148-149 | team 1's spite lands on team 2 and team 2's on team 1 |
| `Combat.Exchange` | combat.py:139-149 | the second half of the round makes both rosters `Resolve` of the tallies rolled |
| `Combat.CombatRound` | combat.py:116-149 | both rosters' constitutions and the cursor become exactly `Round` of the old state |
| `Combat.Battle` | combat.py:175-191 | the rosters end as `BattleRun` of the start; the outcome is out-of-rounds exactly when both still stand, otherwise `Classify` of who is alive |
| `Simulator.CreditedPerPlace` | tnt_simulator_xp_commented.py:68-70 | crediting once per roster place is amount × places held |
| `Simulator.AwardXp` | tnt_simulator_xp_commented.py:67-71 | every member gains amount × the places it holds; constitution is untouched |
| `Simulator.DistinctOnce` | tnt_simulator_xp_commented.py:68 | in a roster without repeats each member holds exactly one place |
| `Simulator.AwardFor` | tnt_simulator_xp_commented.py:111-117 | team 1 is rewarded iff it has somebody alive and team 2 nobody, symmetrically for team 2, and nobody when both or neither stand |
| `Simulator.AwardSymmetric` | tnt_simulator_xp_commented.py:112-115 | swapping the sides swaps the reward |
| `Simulator.AwardFollowsWinner` | tnt_simulator_xp_commented.py:112-117 | once a side is down, the reward goes to the side the battle's winner rule names |
| `Simulator.Enlisted` | tnt_simulator_xp_commented.py:47-63 | one answer adds at most one character |
| `Simulator.Admitted` | tnt_simulator_xp_commented.py:41-64 | a script admits at most one character per answer |
| `Simulator.AdmittedConcat` | tnt_simulator_xp_commented.py:43-64 | before any N, building from a script in two pieces is building from each piece in turn |
| `Simulator.BadFileAddsNobody` | tnt_simulator_xp_commented.py:47-55 | a file without a complete record adds nobody |
| `Simulator.Enlist` | tnt_simulator_xp_commented.py:47-59 | one pass of the loop appends the character the answer admits, new and with XP 0, and keeps the rest of the team |
| `Simulator.TeamBuilder` | tnt_simulator_xp_commented.py:41-64 | the team is the script's admitted characters, fresh, distinct, XP 0; it finishes iff an N is answered |
| `Simulator.Fight` | tnt_simulator_xp_commented.py:87-100 | the fighting keeps both rosters' shapes |
| `Simulator.FightEnds` | tnt_simulator_xp_commented.py:87 | fighting stops for a wiped-out side only when a side is down |
| `Simulator.FightNeverHeals` | tnt_simulator_xp_commented.py:87-100 | nobody heals during an encounter |
| `Simulator.ContinuingIsBattle` | tnt_simulator_xp_commented.py:87-91 | answering continue n times fights the battle bounded by n + 1 rounds |
| `Simulator.DisengageAwardsNothing` | tnt_simulator_xp_commented.py:94-97 | disengaging while both sides stand stops the fighting with no XP for anybody |
| `Simulator.ActionAfterLastRound` | tnt_simulator_xp_commented.py:87-100 | the answer is read even after the round that wipes a side out, and Q then quits |
| `Simulator.Fighting` | tnt_simulator_xp_commented.py:86-100 | the rounds loop leaves rosters, cursor and stop reason exactly as `Fight` says |
| `Simulator.Reward` | tnt_simulator_xp_commented.py:111-117 | members of the rewarded side gain 100 XP each, nobody else gains any, constitutions are untouched |
| `Simulator.Encounter` | tnt_simulator_xp_commented.py:81-117 | an empty team restarts and changes nothing; otherwise the rosters end as `Fight` says; quitting or running out of input awards nothing; an encounter that is over gives 100 XP to each member of the side the end-of-encounter rule names |

## Left out

- Randomness. `random.randint` is replaced by the injected `DiceStream`. Probabilities, such as the test suite's expectation that the hero beats the goblin, are not modelled.
- Console output. The `print` calls, including the battle's winner announcement, are left out. `Battle` returns the winner instead.
- Console input. Answers are given as scripts (`BuildChoice` and `Action` sequences).
  - An answer is already parsed: `.strip().upper()` and any answer other than D or Q meaning "continue" are folded into the `Action` type.
  - A script that runs out stands for `input()` raising `EOFError`, reported as `finished == false` or `InputEnded`.
  - `create_character_from_input`'s integer parsing, and its `ValueError`, are not modelled. A created character arrives as a `Sheet`.
- File I/O. `load_character`, `save_character` and the JSON syntax are left out.
  - A loaded file arrives as a parsed `Json` value, or `Unreadable` for any open or parse failure, which the source catches with `except Exception`.
  - The "save this character?" answer has no effect on the team and is not modelled.
- The outer `while True` of `encounter_loop` and its "start another encounter?" prompt are not modelled. `Encounter` models one pass of its body after both teams are built.
- The `hasattr(char, 'xp')` check is not modelled. Every `Character` has an `xp` field in Dafny.
- Battle: runs at most `maxRounds` rounds. The source loops until a side falls. `Battle` reports `OutOfRounds` when the bound is reached with both sides standing.
- Character.FromDict: record values of the wrong kind (for example a string where a number is expected) are refused with `WrongKind`.
  - For strength, dexterity, speed and luck this matches the source. The constructor computes the adds at once (combat.py:58), and `attr > 12` (combat.py:65) raises `TypeError` for a string inside `from_dict`. `team_builder` catches that error (tnt_simulator_xp_commented.py:54) and adds nobody.
  - The source stores the other fields without checking them: name, constitution, the weapon's name, dice and adds, and the armour's name and protection. A wrong-kind value there fails later, for example `range("3")` in a roll or `con > 0` on a string, or never, for example a number used as a name.
- `Json` has integers, strings and records only. `json.load` also produces floats, booleans, `null` and lists. Python computes with some of these, for example `"strength": 13.5` or `"dice": true`, since `bool` is an `int`. Such records cannot be expressed in the model, so their behaviour is not modelled.
- Combat.DistributeDamage, Combat.ApplySpite, Combat.CombatRound, Combat.Battle: these require each roster to list a character at most once, and the two sides to share no one.
  - The source never builds rosters that break this.
  - With aliasing, the same object would be hit twice.
  - `award_xp` is modelled without this requirement; its result counts repeats.
- Integers are unbounded, as in Python.
