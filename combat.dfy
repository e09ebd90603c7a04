/** The combat-resolution engine of the Tunnels & Trolls combat simulator:
    weapons and armour, characters with their combat adds, one simultaneous
    combat round between two rosters, and the battle loop that repeats rounds
    until a side has nobody left standing.

    The random source is injected: a `DiceStream` gives the d6 value drawn at
    every position, and every roll names the position of its first draw, so a
    round is a deterministic function of the stream and a cursor. */
module Combat {

  // ----------------------------------------------------------------------
  // Dice
  // ----------------------------------------------------------------------

  /** The face of one six-sided die. */
  type Die = x: int | 1 <= x <= 6 witness 1

  /** The injected random source: the die drawn at each position of an endless stream. */
  type DiceStream = nat -> Die

  /** Sum of the n dice drawn from position `at` onward. */
  function SumDice(d6: DiceStream, at: nat, n: nat): (r: int)
    ensures n <= r <= 6 * n
    decreases n
  {
    if n == 0 then 0 else SumDice(d6, at, n - 1) + d6(at + n - 1)
  }

  /** How many of the n dice drawn from position `at` onward show a six. */
  function CountSixes(d6: DiceStream, at: nat, n: nat): (r: nat)
    ensures r <= n
    decreases n
  {
    if n == 0 then 0 else CountSixes(d6, at, n - 1) + (if d6(at + n - 1) == 6 then 1 else 0)
  }

  // ----------------------------------------------------------------------
  // Flat records (the dictionaries that to_dict produces and from_dict reads)
  // ----------------------------------------------------------------------

  /** A value of a flat record: an integer, a string or a nested record. */
  datatype Json = JInt(i: int) | JStr(s: string) | JObj(fields: map<string, Json>)

  /** Why a record could not be read back. */
  datatype RecordError =
    | NotAnObject          // indexing something that is not a record
    | MissingKey(key: string)
    | WrongKind(key: string)

  datatype Result<T> = Ok(value: T) | Err(error: RecordError) {
    predicate IsFailure() { Err? }
    function PropagateFailure<U>(): Result<U> requires Err? { Err(error) }
    function Extract(): T requires Ok? { value }
  }

  /** `data[key]`: the entry stored under `key`. */
  function Field(data: Json, key: string): (r: Result<Json>)
    ensures r.Ok? <==> data.JObj? && key in data.fields
    ensures r.Ok? ==> r.value == data.fields[key]
  {
    if !data.JObj? then Err(NotAnObject)
    else if key !in data.fields then Err(MissingKey(key))
    else Ok(data.fields[key])
  }

  function IntField(data: Json, key: string): Result<int> {
    var v :- Field(data, key);
    if v.JInt? then Ok(v.i) else Err(WrongKind(key))
  }

  function StrField(data: Json, key: string): Result<string> {
    var v :- Field(data, key);
    if v.JStr? then Ok(v.s) else Err(WrongKind(key))
  }

  // ----------------------------------------------------------------------
  // Weapon and Armor
  // ----------------------------------------------------------------------

  /** A weapon: its number of damage dice and its flat adds. */
  datatype Weapon = Weapon(name: string, dice: int, adds: int) {

    /** Number of dice actually thrown; a range over a negative count is empty. */
    function DiceCount(): nat { if dice > 0 then dice else 0 }

    /** roll_damage: the weapon's dice drawn from position `at`, plus its adds. */
    function RollDamage(d6: DiceStream, at: nat): (r: int)
      ensures DiceCount() + adds <= r <= 6 * DiceCount() + adds
    {
      SumDice(d6, at, DiceCount()) + adds
    }

    /** count_spite: the sixes among DiceCount() dice drawn from position `at`
        (callers pass fresh positions, not those of the damage roll). */
    function CountSpite(d6: DiceStream, at: nat): (r: nat)
      ensures r <= DiceCount()
    {
      CountSixes(d6, at, DiceCount())
    }

    function ToDict(): Json {
      JObj(map["name" := JStr(name), "dice" := JInt(dice), "adds" := JInt(adds)])
    }
  }

  /** The test suite's sword (3 dice, +2) does 5 to 20 damage. */
  lemma SwordDamageRange(d6: DiceStream, at: nat)
    ensures 5 <= Weapon("Sword", 3, 2).RollDamage(d6, at) <= 20
  {
  }

  function WeaponFromDict(data: Json): Result<Weapon> {
    var name :- StrField(data, "name");
    var dice :- IntField(data, "dice");
    var adds :- IntField(data, "adds");
    Ok(Weapon(name, dice, adds))
  }

  /** A piece of armour: the damage it takes off each distributed share. */
  datatype Armor = Armor(name: string, protection: int) {
    function ToDict(): Json {
      JObj(map["name" := JStr(name), "protection" := JInt(protection)])
    }
  }

  function ArmorFromDict(data: Json): Result<Armor> {
    var name :- StrField(data, "name");
    var protection :- IntField(data, "protection");
    Ok(Armor(name, protection))
  }

  lemma WeaponRoundTrip(w: Weapon)
    ensures WeaponFromDict(w.ToDict()) == Ok(w)
  {
    var fields := w.ToDict().fields;
    assert fields["name"] == JStr(w.name);
    assert fields["dice"] == JInt(w.dice);
    assert fields["adds"] == JInt(w.adds);
  }

  lemma ArmorRoundTrip(a: Armor)
    ensures ArmorFromDict(a.ToDict()) == Ok(a)
  {
    var fields := a.ToDict().fields;
    assert fields["name"] == JStr(a.name);
    assert fields["protection"] == JInt(a.protection);
  }

  // ----------------------------------------------------------------------
  // Combat adds
  // ----------------------------------------------------------------------

  /** What one attribute adds to a character's combat adds: the excess over 12,
      minus the shortfall under 9, nothing in 9..12. */
  function Contribution(attr: int): int {
    if attr > 12 then attr - 12
    else if attr < 9 then -(9 - attr)
    else 0
  }

  /** The combat adds of a list of attributes: the sum of their contributions. */
  function AddsOf(attrs: seq<int>): int
    decreases |attrs|
  {
    if attrs == [] then 0 else AddsOf(attrs[..|attrs| - 1]) + Contribution(attrs[|attrs| - 1])
  }

  /** calculate_adds: accumulates the contribution of strength, dexterity, speed and luck. */
  method CalculateAdds(strength: int, dexterity: int, speed: int, luck: int) returns (adds: int)
    ensures adds == Contribution(strength) + Contribution(dexterity) + Contribution(speed) + Contribution(luck)
  {
    var attrs := [strength, dexterity, speed, luck];
    adds := 0;
    for i := 0 to |attrs|
      invariant adds == AddsOf(attrs[..i])
    {
      assert attrs[..i + 1][..i] == attrs[..i];
      var attr := attrs[i];
      if attr > 12 {
        adds := adds + (attr - 12);
      } else if attr < 9 {
        adds := adds - (9 - attr);
      }
    }
    assert attrs[..4] == attrs && attrs[..3] == [strength, dexterity, speed];
    assert AddsOf(attrs) == AddsOf([strength, dexterity, speed]) + Contribution(luck);
    assert [strength, dexterity, speed][..2] == [strength, dexterity];
    assert AddsOf([strength, dexterity, speed]) == AddsOf([strength, dexterity]) + Contribution(speed);
    assert [strength, dexterity][..1] == [strength] && [strength][..0] == [];
    assert AddsOf([strength, dexterity]) == AddsOf([strength]) + Contribution(dexterity);
  }

  /** Every attribute inside 9..12 leaves the adds at zero; each point above 12
      adds one, each point below 9 takes one away. */
  lemma ContributionBands(attr: int, k: nat)
    ensures 9 <= attr <= 12 ==> Contribution(attr) == 0
    ensures Contribution(12 + k) == k && Contribution(9 - k) + k == 0
  {
  }

  /** Raising an attribute never lowers its contribution. */
  lemma ContributionMonotone(a: int, b: int)
    requires a <= b
    ensures Contribution(a) <= Contribution(b)
  {
  }

  /** The Hero of the test suite (14, 13, 12, 10) has adds 3. */
  lemma HeroAdds()
    ensures Contribution(14) + Contribution(13) + Contribution(12) + Contribution(10) == 3
  {
  }

  // ----------------------------------------------------------------------
  // Characters
  // ----------------------------------------------------------------------

  /** The values a character is built from and exported to: its record without
      the derived adds, the maximum constitution and the XP. */
  datatype Sheet = Sheet(name: string, strength: int, dexterity: int, speed: int, luck: int,
                         constitution: int, weapon: Weapon, armor: Armor)

  function SheetToDict(s: Sheet): Json {
    JObj(map["name" := JStr(s.name),
             "strength" := JInt(s.strength),
             "dexterity" := JInt(s.dexterity),
             "speed" := JInt(s.speed),
             "luck" := JInt(s.luck),
             "constitution" := JInt(s.constitution),
             "weapon" := s.weapon.ToDict(),
             "armor" := s.armor.ToDict()])
  }

  /** Character.from_dict's reading order: weapon, armor, then the scalar fields. */
  function SheetFromDict(data: Json): Result<Sheet> {
    var weaponData :- Field(data, "weapon");
    var weapon :- WeaponFromDict(weaponData);
    var armorData :- Field(data, "armor");
    var armor :- ArmorFromDict(armorData);
    var name :- StrField(data, "name");
    var strength :- IntField(data, "strength");
    var dexterity :- IntField(data, "dexterity");
    var speed :- IntField(data, "speed");
    var luck :- IntField(data, "luck");
    var constitution :- IntField(data, "constitution");
    Ok(Sheet(name, strength, dexterity, speed, luck, constitution, weapon, armor))
  }

  /** Reading back an exported record gives back every exported value. */
  lemma SheetRoundTrip(s: Sheet)
    ensures SheetFromDict(SheetToDict(s)) == Ok(s)
  {
    var fields := SheetToDict(s).fields;
    assert fields["weapon"] == s.weapon.ToDict();
    assert fields["armor"] == s.armor.ToDict();
    WeaponRoundTrip(s.weapon);
    ArmorRoundTrip(s.armor);
    assert fields["name"] == JStr(s.name);
    assert fields["strength"] == JInt(s.strength);
    assert fields["dexterity"] == JInt(s.dexterity);
    assert fields["speed"] == JInt(s.speed);
    assert fields["luck"] == JInt(s.luck);
    assert fields["constitution"] == JInt(s.constitution);
  }

  /** A record without a weapon entry is refused with a missing-key error. */
  lemma MissingWeaponRefused(fields: map<string, Json>)
    requires "weapon" !in fields
    ensures SheetFromDict(JObj(fields)) == Err(MissingKey("weapon"))
  {
  }

  /** A fighter. Only the constitution (during combat) and the XP (after an
      encounter) ever change; everything else is fixed at construction. */
  class Character {
    const name: string
    const str: int
    const dex: int
    const spd: int
    const luck: int
    var con: int
    const maxCon: int
    const weapon: Weapon
    const armor: Armor
    const adds: int
    var xp: int

    constructor (name: string, strength: int, dexterity: int, speed: int, luck: int,
                 constitution: int, weapon: Weapon, armor: Armor)
      ensures Built(Sheet(name, strength, dexterity, speed, luck, constitution, weapon, armor))
    {
      var a := CalculateAdds(strength, dexterity, speed, luck);
      this.name := name;
      str, dex, spd, this.luck := strength, dexterity, speed, luck;
      con, maxCon := constitution, constitution;
      this.weapon, this.armor := weapon, armor;
      adds := a;
      xp := 0;
    }

    /** This character is exactly what the constructor makes of sheet s: the
        sheet's values, full constitution, adds derived from the four
        attributes, and no XP. */
    predicate Built(s: Sheet)
      reads this
    {
      name == s.name && str == s.strength && dex == s.dexterity && spd == s.speed
      && luck == s.luck && con == s.constitution && maxCon == s.constitution
      && weapon == s.weapon && armor == s.armor
      && adds == Contribution(s.strength) + Contribution(s.dexterity) + Contribution(s.speed) + Contribution(s.luck)
      && xp == 0
    }

    /** is_alive */
    predicate IsAlive()
      reads this
    {
      con > 0
    }

    /** roll_attack: (weapon roll + the character's adds, weapon roll). */
    function RollAttack(d6: DiceStream, at: nat): (r: (int, int))
      ensures r.0 - r.1 == adds
      ensures weapon.DiceCount() + weapon.adds <= r.1 <= 6 * weapon.DiceCount() + weapon.adds
    {
      var base := weapon.RollDamage(d6, at);
      (base + adds, base)
    }

    /** roll_spite */
    function RollSpite(d6: DiceStream, at: nat): (r: nat)
      ensures r <= weapon.DiceCount()
    {
      weapon.CountSpite(d6, at)
    }

    /** What to_dict exports: the current constitution, not the maximum. */
    function Exported(): Sheet
      reads this
    {
      Sheet(name, str, dex, spd, luck, con, weapon, armor)
    }

    function ToDict(): Json
      reads this
    {
      SheetToDict(Exported())
    }

    /** from_dict: a fresh character built from the record, or why it could not be read. */
    static method FromDict(data: Json) returns (r: Result<Character>)
      ensures SheetFromDict(data).Err? ==> r == Err(SheetFromDict(data).error)
      ensures SheetFromDict(data).Ok? ==> r.Ok? && fresh(r.value) && r.value.Built(SheetFromDict(data).value)
    {
      match SheetFromDict(data)
      case Err(e) =>
        r := Err(e);
      case Ok(s) =>
        var c := new Character(s.name, s.strength, s.dexterity, s.speed, s.luck,
                               s.constitution, s.weapon, s.armor);
        r := Ok(c);
    }
  }

  /** Saving a character and loading it back: every exported value is kept, the
      maximum constitution becomes the exported current one, the adds are
      derived again (to the same value) and the XP starts over at 0. */
  method SaveAndRestore(c: Character) returns (d: Character)
    ensures fresh(d) && d.Built(c.Exported())
    ensures d.name == c.name && d.str == c.str && d.dex == c.dex && d.spd == c.spd && d.luck == c.luck
    ensures d.con == c.con && d.maxCon == c.con && d.weapon == c.weapon && d.armor == c.armor
    ensures d.adds == c.adds && d.xp == 0
    requires c.adds == Contribution(c.str) + Contribution(c.dex) + Contribution(c.spd) + Contribution(c.luck)
  {
    SheetRoundTrip(c.Exported());
    var r := Character.FromDict(c.ToDict());
    d := r.value;
  }

  // ----------------------------------------------------------------------
  // Rosters and their health
  // ----------------------------------------------------------------------

  /** A roster lists each character once. */
  predicate Distinct(team: seq<Character>) {
    forall i, j :: 0 <= i < j < |team| ==> team[i] != team[j]
  }

  /** The two sides of a fight share no character. */
  predicate Apart(team1: seq<Character>, team2: seq<Character>) {
    forall c :: c in team1 ==> c !in team2
  }

  /** The constitution of every member, in roster order. */
  function Healths(team: seq<Character>): seq<int>
    reads team
  {
    seq(|team|, i reads team requires 0 <= i < |team| => team[i].con)
  }

  /** The armour protection of every member, in roster order. */
  function Protections(team: seq<Character>): seq<int> {
    seq(|team|, i requires 0 <= i < |team| => team[i].armor.protection)
  }

  /** How many of the healths belong to living characters. */
  function CountAlive(hs: seq<int>): (n: nat)
    ensures n <= |hs|
    decreases |hs|
  {
    if hs == [] then 0
    else
      var k := |hs| - 1;
      CountAlive(hs[..k]) + (if hs[k] > 0 then 1 else 0)
  }

  /** Nobody is counted alive exactly when every health is 0 or below. */
  lemma {:induction false} NoneAlive(hs: seq<int>)
    ensures CountAlive(hs) == 0 <==> !AnyAlive(hs)
    decreases |hs|
  {
    if hs != [] {
      var k := |hs| - 1;
      assert forall i :: 0 <= i < k ==> hs[..k][i] == hs[i];
      NoneAlive(hs[..k]);
    }
  }

  /** `any(c.is_alive() for c in team)` */
  predicate AnyAlive(hs: seq<int>) {
    exists i :: 0 <= i < |hs| && hs[i] > 0
  }

  // ----------------------------------------------------------------------
  // Damage distribution and spite, on health values
  // ----------------------------------------------------------------------

  /** max(0, perCharacter - protection): what armour lets through of a share. */
  function Reduction(perCharacter: int, protection: int): nat {
    if perCharacter - protection > 0 then perCharacter - protection else 0
  }

  /** distribute_damage on values: if nobody is alive nothing happens; otherwise
      the damage is split by integer division over the living members (the
      remainder is dropped), and each living member loses its share less its
      armour, never less than 0. */
  function AfterDamage(hs: seq<int>, protections: seq<int>, damage: int): (r: seq<int>)
    requires |protections| == |hs|
    ensures |r| == |hs|
  {
    var n := CountAlive(hs);
    if n == 0 then hs
    else seq(|hs|, i requires 0 <= i < |hs| =>
               if hs[i] > 0 then hs[i] - Reduction(damage / n, protections[i]) else hs[i])
  }

  /** apply_spite on values: 0 spite changes nothing; otherwise every living
      member loses exactly the spite, armour notwithstanding. */
  function AfterSpite(hs: seq<int>, spite: int): (r: seq<int>)
    ensures |r| == |hs|
  {
    if spite == 0 then hs
    else seq(|hs|, i requires 0 <= i < |hs| => if hs[i] > 0 then hs[i] - spite else hs[i])
  }

  /** Distributed damage never heals and never touches a member already down. */
  lemma DamageNeverHeals(hs: seq<int>, protections: seq<int>, damage: int)
    requires |protections| == |hs|
    ensures var r := AfterDamage(hs, protections, damage);
            forall i :: 0 <= i < |hs| ==> r[i] <= hs[i] && (hs[i] <= 0 ==> r[i] == hs[i])
  {
  }

  /** Spite takes exactly its amount off every living member and leaves the others alone. */
  lemma SpiteEffect(hs: seq<int>, spite: int)
    ensures var r := AfterSpite(hs, spite);
            forall i :: 0 <= i < |hs| ==> r[i] == (if hs[i] > 0 then hs[i] - spite else hs[i])
  {
  }

  /** Distributing damage on a side with nobody alive changes nothing; on a side
      with n living members, each of them loses max(0, damage / n - protection). */
  lemma DamageShare(hs: seq<int>, protections: seq<int>, damage: int, i: nat)
    requires |protections| == |hs| && i < |hs|
    ensures CountAlive(hs) == 0 ==> AfterDamage(hs, protections, damage) == hs
    ensures hs[i] > 0 ==> CountAlive(hs) > 0
    ensures hs[i] > 0 ==>
      AfterDamage(hs, protections, damage)[i] == hs[i] - Reduction(damage / CountAlive(hs), protections[i])
  {
    NoneAlive(hs);
  }

  /** The Hero (constitution 30, protection 4) alone takes 10 damage: 6 gets through. */
  lemma HeroTakesDamage()
    ensures AfterDamage([30], [4], 10) == [24]
  {
    assert CountAlive([30]) == 1 by {
      assert [30][..0] == [];
    }
  }

  /** The Hero alone suffers 2 spite: constitution 30 becomes 28. */
  lemma HeroSuffersSpite()
    ensures AfterSpite([30], 2) == [28]
  {
  }

  /** A side with nobody alive stays that way through damage and spite. */
  lemma DefeatIsFinal(hs: seq<int>, protections: seq<int>, damage: int, spite: int)
    requires |protections| == |hs| && !AnyAlive(hs)
    ensures !AnyAlive(AfterDamage(hs, protections, damage))
    ensures !AnyAlive(AfterSpite(hs, spite))
  {
  }

  // ----------------------------------------------------------------------
  // One round, on values
  // ----------------------------------------------------------------------

  /** What a side rolls in one round: its attack total, its spite total and the
      first stream position left unused. */
  datatype Tally = Tally(attack: int, spite: int, next: nat)

  /** The total number of weapon dice of the living members. */
  function AliveDice(team: seq<Character>, hs: seq<int>): nat
    requires |hs| == |team|
    decreases |team|
  {
    if team == [] then 0
    else
      var k := |team| - 1;
      AliveDice(team[..k], hs[..k]) + (if hs[k] > 0 then team[k].weapon.DiceCount() else 0)
  }

  /** One living member's turn: its attack (weapon roll plus its adds) from the
      dice at position `at`, then its spite from the next, fresh, dice. */
  function Turn(c: Character, d6: DiceStream, at: nat): (t: Tally)
    ensures t.next == at + 2 * c.weapon.DiceCount()
    ensures 0 <= t.spite <= c.weapon.DiceCount()
  {
    var n := c.weapon.DiceCount();
    Tally(c.RollAttack(d6, at).0, c.RollSpite(d6, at + n), at + 2 * n)
  }

  /** The rolling half of combat_round for one side: in roster order, each
      living member (hs[i] > 0) takes its turn; dead members roll nothing. */
  function TeamRoll(team: seq<Character>, hs: seq<int>, d6: DiceStream, at: nat): (t: Tally)
    requires |hs| == |team|
    decreases |team|
  {
    if team == [] then Tally(0, 0, at)
    else
      var k := |team| - 1;
      var t := TeamRoll(team[..k], hs[..k], d6, at);
      if hs[k] > 0 then
        var u := Turn(team[k], d6, t.next);
        Tally(t.attack + u.attack, t.spite + u.spite, u.next)
      else t
  }

  /** A side's rolls draw two dice per weapon die of each living member, and its
      spite is at most one per such die. */
  lemma {:induction false} TeamRollDraws(team: seq<Character>, hs: seq<int>, d6: DiceStream, at: nat)
    requires |hs| == |team|
    ensures TeamRoll(team, hs, d6, at).next == at + 2 * AliveDice(team, hs)
    ensures 0 <= TeamRoll(team, hs, d6, at).spite <= AliveDice(team, hs)
    decreases |team|
  {
    if team != [] {
      TeamRollDraws(team[..|team| - 1], hs[..|team| - 1], d6, at);
    }
  }

  /** A side with nobody alive attacks for 0, has no spite and draws no dice. */
  lemma {:induction false} DeadSideRollsNothing(team: seq<Character>, hs: seq<int>, d6: DiceStream, at: nat)
    requires |hs| == |team| && !AnyAlive(hs)
    ensures TeamRoll(team, hs, d6, at) == Tally(0, 0, at)
    decreases |team|
  {
    if team != [] {
      var k := |team| - 1;
      assert forall i :: 0 <= i < k ==> hs[..k][i] == hs[i];
      DeadSideRollsNothing(team[..k], hs[..k], d6, at);
    }
  }

  /** Only who is alive matters to the rolls, not how much health they have. */
  lemma {:induction false} RollsDependOnLivenessOnly(team: seq<Character>, hs: seq<int>, hs': seq<int>,
                                                     d6: DiceStream, at: nat)
    requires |hs| == |team| && |hs'| == |team|
    requires forall i :: 0 <= i < |team| ==> (hs[i] > 0 <==> hs'[i] > 0)
    ensures TeamRoll(team, hs, d6, at) == TeamRoll(team, hs', d6, at)
    decreases |team|
  {
    if team != [] {
      var k := |team| - 1;
      assert forall i :: 0 <= i < k ==> hs[..k][i] == hs[i] && hs'[..k][i] == hs'[i];
      RollsDependOnLivenessOnly(team[..k], hs[..k], hs'[..k], d6, at);
    }
  }

  /** Where a fight stands between rounds: both sides' healths and the stream cursor. */
  datatype State = State(hs1: seq<int>, hs2: seq<int>, cursor: nat)

  predicate Fits(team1: seq<Character>, team2: seq<Character>, s: State) {
    |s.hs1| == |team1| && |s.hs2| == |team2|
  }

  /** The second half of combat_round on values, for given tallies of the two
      sides: the lower total takes the difference as distributed damage (equal
      totals distribute nothing); then team 1's spite hits team 2 and team 2's
      spite hits team 1, each only on members still alive after the distribution. */
  function Resolve(team1: seq<Character>, team2: seq<Character>, s: State, t1: Tally, t2: Tally): (r: State)
    requires Fits(team1, team2, s)
    ensures Fits(team1, team2, r)
  {
    var d1 := if t2.attack > t1.attack then AfterDamage(s.hs1, Protections(team1), t2.attack - t1.attack) else s.hs1;
    var d2 := if t1.attack > t2.attack then AfterDamage(s.hs2, Protections(team2), t1.attack - t2.attack) else s.hs2;
    State(AfterSpite(d1, t2.spite), AfterSpite(d2, t1.spite), t2.next)
  }

  /** combat_round on values: team 1 rolls from the cursor, team 2 from where
      team 1 stopped, and the exchange is resolved. */
  function Round(team1: seq<Character>, team2: seq<Character>, d6: DiceStream, s: State): (r: State)
    requires Fits(team1, team2, s)
    ensures Fits(team1, team2, r)
  {
    var t1 := TeamRoll(team1, s.hs1, d6, s.cursor);
    Resolve(team1, team2, s, t1, TeamRoll(team2, s.hs2, d6, t1.next))
  }

  /** A round draws two dice per weapon die of every living member of either side. */
  lemma RoundDraws(team1: seq<Character>, team2: seq<Character>, d6: DiceStream, s: State)
    requires Fits(team1, team2, s)
    ensures Round(team1, team2, d6, s).cursor
            == s.cursor + 2 * AliveDice(team1, s.hs1) + 2 * AliveDice(team2, s.hs2)
  {
    var t1 := TeamRoll(team1, s.hs1, d6, s.cursor);
    TeamRollDraws(team1, s.hs1, d6, s.cursor);
    TeamRollDraws(team2, s.hs2, d6, t1.next);
  }

  /** The side with the higher total (either side on equal totals) takes no
      distributed damage, only the other side's spite. */
  lemma WinnerTakesOnlySpite(team1: seq<Character>, team2: seq<Character>, s: State, t1: Tally, t2: Tally)
    requires Fits(team1, team2, s)
    ensures t1.attack >= t2.attack ==> Resolve(team1, team2, s, t1, t2).hs1 == AfterSpite(s.hs1, t2.spite)
    ensures t2.attack >= t1.attack ==> Resolve(team1, team2, s, t1, t2).hs2 == AfterSpite(s.hs2, t1.spite)
  {
  }

  /** `after` has the shape of `before`, nobody in it has more constitution
      than before, and everybody already down is exactly as before. */
  predicate NeverHealed(before: seq<int>, after: seq<int>) {
    |after| == |before|
    && forall i :: 0 <= i < |before| ==> after[i] <= before[i] && (before[i] <= 0 ==> after[i] == before[i])
  }

  predicate NoHeal(before: State, after: State) {
    NeverHealed(before.hs1, after.hs1) && NeverHealed(before.hs2, after.hs2)
  }

  /** One side's part of a round (its share of the damage, if it lost the
      exchange, then the other side's spite) never heals anybody and leaves
      every member already down untouched. */
  lemma SideNeverHeals(hs: seq<int>, protections: seq<int>, damage: int, lost: bool, spite: int)
    requires |protections| == |hs| && spite >= 0
    ensures NeverHealed(hs, AfterSpite(if lost then AfterDamage(hs, protections, damage) else hs, spite))
  {
    var d := if lost then AfterDamage(hs, protections, damage) else hs;
    DamageNeverHeals(hs, protections, damage);
    SpiteEffect(d, spite);
  }

  /** With no negative spite, resolving an exchange never heals. */
  lemma ResolveNeverHeals(team1: seq<Character>, team2: seq<Character>, s: State, t1: Tally, t2: Tally)
    requires Fits(team1, team2, s) && t1.spite >= 0 && t2.spite >= 0
    ensures NoHeal(s, Resolve(team1, team2, s, t1, t2))
  {
    SideNeverHeals(s.hs1, Protections(team1), t2.attack - t1.attack, t2.attack > t1.attack, t2.spite);
    SideNeverHeals(s.hs2, Protections(team2), t1.attack - t2.attack, t1.attack > t2.attack, t1.spite);
  }

  /** A round never heals, and leaves every member already down untouched. */
  lemma RoundNeverHeals(team1: seq<Character>, team2: seq<Character>, d6: DiceStream, s: State)
    requires Fits(team1, team2, s)
    ensures NoHeal(s, Round(team1, team2, d6, s))
  {
    var t1 := TeamRoll(team1, s.hs1, d6, s.cursor);
    var t2 := TeamRoll(team2, s.hs2, d6, t1.next);
    TeamRollDraws(team1, s.hs1, d6, s.cursor);
    TeamRollDraws(team2, s.hs2, d6, t1.next);
    ResolveNeverHeals(team1, team2, s, t1, t2);
  }

  /** Spite comes after the distribution: a member of the losing side whose
      share brings it to 0 or below takes no spite in the same round, and a
      member that survives its share loses the full spite on top. */
  lemma SpiteAfterDistribution(team1: seq<Character>, team2: seq<Character>, s: State, t1: Tally, t2: Tally, i: nat)
    requires Fits(team1, team2, s) && i < |team2| && s.hs2[i] > 0 && t1.attack > t2.attack
    ensures var n := CountAlive(s.hs2);
            n > 0 &&
            var hit := s.hs2[i] - Reduction((t1.attack - t2.attack) / n, team2[i].armor.protection);
            Resolve(team1, team2, s, t1, t2).hs2[i] == (if hit > 0 then hit - t1.spite else hit)
  {
    DamageShare(s.hs2, Protections(team2), t1.attack - t2.attack, i);
    SpiteEffect(AfterDamage(s.hs2, Protections(team2), t1.attack - t2.attack), t1.spite);
  }

  /** The same order when team 1 loses: its share first, then team 2's spite
      on the members of team 1 that survived it. */
  lemma SpiteAfterDistributionOnTeam1(team1: seq<Character>, team2: seq<Character>, s: State, t1: Tally, t2: Tally, i: nat)
    requires Fits(team1, team2, s) && i < |team1| && s.hs1[i] > 0 && t2.attack > t1.attack
    ensures var n := CountAlive(s.hs1);
            n > 0 &&
            var hit := s.hs1[i] - Reduction((t2.attack - t1.attack) / n, team1[i].armor.protection);
            Resolve(team1, team2, s, t1, t2).hs1[i] == (if hit > 0 then hit - t2.spite else hit)
  {
    DamageShare(s.hs1, Protections(team1), t2.attack - t1.attack, i);
    SpiteEffect(AfterDamage(s.hs1, Protections(team1), t2.attack - t1.attack), t2.spite);
  }

  // ----------------------------------------------------------------------
  // The battle, on values
  // ----------------------------------------------------------------------

  predicate BothStanding(s: State) {
    AnyAlive(s.hs1) && AnyAlive(s.hs2)
  }

  /** battle's loop for any round function: rounds are taken while both sides
      have somebody alive and rounds remain. */
  function Run(step: State -> State, s: State, rounds: nat): State
    decreases rounds
  {
    if rounds == 0 || !BothStanding(s) then s else Run(step, step(s), rounds - 1)
  }

  /** While both sides are standing after i rounds, one more round continues the battle. */
  lemma {:induction false} RunStep(step: State -> State, s: State, i: nat)
    requires BothStanding(Run(step, s, i))
    ensures Run(step, s, i + 1) == step(Run(step, s, i))
    decreases i
  {
    if i > 0 {
      RunStep(step, step(s), i - 1);
    }
  }

  /** Once a side is wiped out, further rounds change nothing. */
  lemma {:induction false} RunSettled(step: State -> State, s: State, i: nat, j: nat)
    requires i <= j && !BothStanding(Run(step, s, i))
    ensures Run(step, s, j) == Run(step, s, i)
    decreases i
  {
    if i > 0 && BothStanding(s) {
      RunSettled(step, step(s), i - 1, j - 1);
    }
  }

  /** If no single round heals, neither does any number of them. */
  lemma {:induction false} RunNeverHeals(step: State -> State, s: State, rounds: nat)
    requires forall x :: NoHeal(x, step(x))
    ensures NoHeal(s, Run(step, s, rounds))
    decreases rounds
  {
    if rounds > 0 && BothStanding(s) {
      RunNeverHeals(step, step(s), rounds - 1);
    }
  }

  /** One combat round as a step on states (a state that does not fit the
      rosters is left alone). */
  function RoundStep(team1: seq<Character>, team2: seq<Character>, d6: DiceStream): State -> State {
    s => if Fits(team1, team2, s) then Round(team1, team2, d6, s) else s
  }

  /** The battle between two rosters on values, bounded by a number of rounds. */
  function BattleRun(team1: seq<Character>, team2: seq<Character>, d6: DiceStream, s: State, rounds: nat): State {
    Run(RoundStep(team1, team2, d6), s, rounds)
  }

  /** Over a whole battle nobody heals and the fallen are never touched again. */
  lemma BattleNeverHeals(team1: seq<Character>, team2: seq<Character>, d6: DiceStream, s: State, rounds: nat)
    ensures NoHeal(s, BattleRun(team1, team2, d6, s, rounds))
  {
    var step := RoundStep(team1, team2, d6);
    forall x
      ensures NoHeal(x, step(x))
    {
      if Fits(team1, team2, x) {
        RoundNeverHeals(team1, team2, d6, x);
      }
    }
    RunNeverHeals(step, s, rounds);
  }

  /** Who won, once at least one side has nobody alive. */
  datatype Winner = Team1 | Team2 | NoOne

  function Classify(alive1: bool, alive2: bool): (w: Winner)
    requires !(alive1 && alive2)
    ensures w == NoOne <==> !alive1 && !alive2
    ensures w == Team1 <==> alive1
    ensures w == Team2 <==> alive2
  {
    if !alive1 && !alive2 then NoOne
    else if alive1 then Team1 else Team2
  }

  // ----------------------------------------------------------------------
  // The imperative engine over rosters of characters
  // ----------------------------------------------------------------------

  /** A roster none of whose members' constitution changed has the same healths as before. */
  twostate lemma Untouched(team: seq<Character>)
    requires forall c :: c in team ==> c.con == old(c.con)
    ensures Healths(team) == old(Healths(team))
  {
    forall j | 0 <= j < |team|
      ensures Healths(team)[j] == old(Healths(team))[j]
    {
      assert team[j] in team;
    }
  }

  /** The first loop of combat_round for one side: living members roll attack then spite. */
  method RollTeam(team: seq<Character>, d6: DiceStream, at: nat) returns (attack: int, spite: int, next: nat)
    ensures Tally(attack, spite, next) == TeamRoll(team, Healths(team), d6, at)
  {
    ghost var hs := Healths(team);
    attack, spite, next := 0, 0, at;
    for i := 0 to |team|
      invariant Tally(attack, spite, next) == TeamRoll(team[..i], hs[..i], d6, at)
    {
      assert team[..i + 1][..i] == team[..i] && hs[..i + 1][..i] == hs[..i];
      var member := team[i];
      if member.IsAlive() {
        var (total, _) := member.RollAttack(d6, next);
        attack := attack + total;
        spite := spite + member.RollSpite(d6, next + member.weapon.DiceCount());
        next := next + 2 * member.weapon.DiceCount();
      }
    }
    assert team[..|team|] == team && hs[..|team|] == hs;
  }

  /** `[c for c in team if c.is_alive()]`: the living members, each once. */
  method LivingMembers(team: seq<Character>) returns (alive: seq<Character>)
    requires Distinct(team)
    ensures forall c :: c in alive <==> c in team && c.con > 0
    ensures forall j, k :: 0 <= j < k < |alive| ==> alive[j] != alive[k]
    ensures |alive| == CountAlive(Healths(team))
  {
    ghost var hs := Healths(team);
    alive := [];
    for i := 0 to |team|
      invariant forall c :: c in alive <==> c in team[..i] && c.con > 0
      invariant forall j, k :: 0 <= j < k < |alive| ==> alive[j] != alive[k]
      invariant |alive| == CountAlive(hs[..i])
    {
      assert hs[..i + 1][..i] == hs[..i];
      assert team[..i + 1] == team[..i] + [team[i]];
      assert team[i] !in team[..i];
      if team[i].IsAlive() {
        alive := alive + [team[i]];
      }
    }
    assert team[..|team|] == team && hs[..|team|] == hs;
  }

  /** The second loop of distribute_damage: each listed member loses the share
      less its armour; everybody else on the roster keeps its constitution. */
  method ShareOut(team: seq<Character>, alive: seq<Character>, perCharacter: int)
    requires forall j, k :: 0 <= j < k < |alive| ==> alive[j] != alive[k]
    requires forall c :: c in alive ==> c in team
    modifies (set c | c in team)`con
    ensures forall j :: 0 <= j < |team| ==>
      team[j].con == (if team[j] in alive
                      then old(team[j].con) - Reduction(perCharacter, team[j].armor.protection) else old(team[j].con))
  {
    for k := 0 to |alive|
      invariant forall j :: 0 <= j < |team| ==>
        team[j].con == (if team[j] in alive[..k]
                        then old(team[j].con) - Reduction(perCharacter, team[j].armor.protection) else old(team[j].con))
    {
      var c := alive[k];
      assert alive[..k + 1] == alive[..k] + [c];
      assert c !in alive[..k];
      c.con := c.con - Reduction(perCharacter, c.armor.protection);
    }
    assert alive[..|alive|] == alive;
  }

  /** distribute_damage: collect the living members, split the damage among
      them, and take each one's share less armour off its constitution. */
  method DistributeDamage(team: seq<Character>, damage: int)
    requires Distinct(team)
    modifies (set c | c in team)`con
    ensures Healths(team) == AfterDamage(old(Healths(team)), Protections(team), damage)
  {
    ghost var hs := Healths(team);
    var alive := LivingMembers(team);
    if |alive| == 0 {
      return;
    }
    var perCharacter := damage / |alive|;
    ShareOut(team, alive, perCharacter);
    forall j | 0 <= j < |team|
      ensures Healths(team)[j] == AfterDamage(hs, Protections(team), damage)[j]
    {
      DamageShare(hs, Protections(team), damage, j);
    }
  }

  /** apply_spite: nothing for 0 spite, otherwise every member alive at that
      moment loses the spite, armour notwithstanding. */
  method ApplySpite(team: seq<Character>, spite: int)
    requires Distinct(team)
    modifies (set c | c in team)`con
    ensures Healths(team) == AfterSpite(old(Healths(team)), spite)
  {
    if spite == 0 {
      return;
    }
    ghost var hs := Healths(team);
    for i := 0 to |team|
      invariant forall j :: 0 <= j < i ==> team[j].con == (if hs[j] > 0 then hs[j] - spite else hs[j])
      invariant forall j :: i <= j < |team| ==> team[j].con == hs[j]
    {
      if team[i].IsAlive() {
        team[i].con := team[i].con - spite;
      }
    }
    SpiteEffect(hs, spite);
    assert forall j :: 0 <= j < |team| ==> Healths(team)[j] == AfterSpite(hs, spite)[j];
  }

  /** The distribution step of combat_round: the side with the lower total
      takes the difference; on equal totals nobody does. */
  method Distribution(team1: seq<Character>, team2: seq<Character>, attack1: int, attack2: int)
    requires Distinct(team1) && Distinct(team2) && Apart(team1, team2)
    modifies (set c | c in team1)`con, (set c | c in team2)`con
    ensures Healths(team1)
            == if attack2 > attack1 then AfterDamage(old(Healths(team1)), Protections(team1), attack2 - attack1)
               else old(Healths(team1))
    ensures Healths(team2)
            == if attack1 > attack2 then AfterDamage(old(Healths(team2)), Protections(team2), attack1 - attack2)
               else old(Healths(team2))
  {
    if attack1 > attack2 {
      DistributeDamage(team2, attack1 - attack2);
      Untouched(team1);
    } else if attack2 > attack1 {
      DistributeDamage(team1, attack2 - attack1);
      Untouched(team2);
    }
  }

  /** The spite step of combat_round: team 1's spite lands on team 2, then
      team 2's spite on team 1. */
  method Spites(team1: seq<Character>, team2: seq<Character>, spite1: int, spite2: int)
    requires Distinct(team1) && Distinct(team2) && Apart(team1, team2)
    modifies (set c | c in team1)`con, (set c | c in team2)`con
    ensures Healths(team1) == AfterSpite(old(Healths(team1)), spite2)
    ensures Healths(team2) == AfterSpite(old(Healths(team2)), spite1)
  {
    ApplySpite(team2, spite1);
    Untouched(team1);
    label first:
    ApplySpite(team1, spite2);
    Untouched@first(team2);
  }

  /** The second half of combat_round on the rosters, for the tallies rolled. */
  method Exchange(team1: seq<Character>, team2: seq<Character>, ghost s: State, t1: Tally, t2: Tally)
    requires Distinct(team1) && Distinct(team2) && Apart(team1, team2)
    requires s.hs1 == Healths(team1) && s.hs2 == Healths(team2)
    modifies (set c | c in team1)`con, (set c | c in team2)`con
    ensures Healths(team1) == Resolve(team1, team2, s, t1, t2).hs1
    ensures Healths(team2) == Resolve(team1, team2, s, t1, t2).hs2
  {
    ghost var d1 := if t2.attack > t1.attack then AfterDamage(s.hs1, Protections(team1), t2.attack - t1.attack) else s.hs1;
    ghost var d2 := if t1.attack > t2.attack then AfterDamage(s.hs2, Protections(team2), t1.attack - t2.attack) else s.hs2;
    assert Resolve(team1, team2, s, t1, t2) == State(AfterSpite(d1, t2.spite), AfterSpite(d2, t1.spite), t2.next);
    Distribution(team1, team2, t1.attack, t2.attack);
    assert Healths(team1) == d1 && Healths(team2) == d2;
    Spites(team1, team2, t1.spite, t2.spite);
  }

  /** combat_round over two rosters; returns the stream position after the round's draws. */
  method CombatRound(team1: seq<Character>, team2: seq<Character>, d6: DiceStream, at: nat) returns (next: nat)
    requires Distinct(team1) && Distinct(team2) && Apart(team1, team2)
    modifies (set c | c in team1)`con, (set c | c in team2)`con
    ensures var r := Round(team1, team2, d6, State(old(Healths(team1)), old(Healths(team2)), at));
            Healths(team1) == r.hs1 && Healths(team2) == r.hs2 && next == r.cursor
  {
    ghost var s := State(Healths(team1), Healths(team2), at);
    var attack1, spite1, cursor := RollTeam(team1, d6, at);
    var attack2, spite2;
    attack2, spite2, next := RollTeam(team2, d6, cursor);
    Untouched(team1);
    Untouched(team2);
    Exchange(team1, team2, s, Tally(attack1, spite1, cursor), Tally(attack2, spite2, next));
  }

  datatype BattleResult = Decided(winner: Winner) | OutOfRounds

  /** battle: rounds are fought while both sides have somebody alive (here at
      most maxRounds of them), then the winner is the side with a survivor,
      or no one when both sides are down. */
  method Battle(team1: seq<Character>, team2: seq<Character>, d6: DiceStream, at: nat, maxRounds: nat)
    returns (result: BattleResult, next: nat)
    requires Distinct(team1) && Distinct(team2) && Apart(team1, team2)
    modifies (set c | c in team1)`con, (set c | c in team2)`con
    ensures State(Healths(team1), Healths(team2), next)
            == BattleRun(team1, team2, d6, State(old(Healths(team1)), old(Healths(team2)), at), maxRounds)
    ensures result == OutOfRounds <==> AnyAlive(Healths(team1)) && AnyAlive(Healths(team2))
    ensures result.Decided? ==> result.winner == Classify(AnyAlive(Healths(team1)), AnyAlive(Healths(team2)))
  {
    ghost var start := State(Healths(team1), Healths(team2), at);
    next := at;
    var round := 0;
    while round < maxRounds && AnyAlive(Healths(team1)) && AnyAlive(Healths(team2))
      invariant round <= maxRounds
      invariant State(Healths(team1), Healths(team2), next) == BattleRun(team1, team2, d6, start, round)
      decreases maxRounds - round
    {
      RunStep(RoundStep(team1, team2, d6), start, round);
      next := CombatRound(team1, team2, d6, next);
      round := round + 1;
    }
    if round < maxRounds {
      RunSettled(RoundStep(team1, team2, d6), start, round, maxRounds);
    }
    var alive1 := AnyAlive(Healths(team1));
    var alive2 := AnyAlive(Healths(team2));
    if alive1 && alive2 {
      result := OutOfRounds;
    } else {
      result := Decided(Classify(alive1, alive2));
    }
  }
}
