/** The XP edition of the simulator's driver: building a team from a script of
    choices, fighting an encounter round by round with a decision between
    rounds, and awarding experience to the side left standing.

    The console is replaced by scripts: the choices typed while building a
    team and the actions typed between rounds are given as sequences, and a
    script that runs out stands for `input()` reaching the end of its input. */
module Simulator {
  import opened Combat

  // ----------------------------------------------------------------------
  // Experience
  // ----------------------------------------------------------------------

  /** The XP a winning side earns in an encounter. */
  const WinXp := 100

  /** What `amount` credited once per place in the roster comes to for c. */
  function Credited(team: seq<Character>, c: Character, amount: int): int
    decreases |team|
  {
    if team == [] then 0
    else Credited(team[..|team| - 1], c, amount) + (if team[|team| - 1] == c then amount else 0)
  }

  /** Crediting per place is crediting `amount` times the number of places held. */
  lemma {:induction false} CreditedPerPlace(team: seq<Character>, c: Character, amount: int)
    ensures Credited(team, c, amount) == amount * multiset(team)[c]
    decreases |team|
  {
    if team != [] {
      var k := |team| - 1;
      assert team == team[..k] + [team[k]];
      CreditedPerPlace(team[..k], c, amount);
      var m := multiset(team[..k])[c];
      assert multiset(team) == multiset(team[..k]) + multiset{team[k]};
      if team[k] == c {
        assert multiset(team)[c] == m + 1;
        OneMore(amount, m);
      } else {
        assert multiset(team)[c] == m;
      }
    }
  }

  lemma OneMore(a: int, m: int)
    ensures a * (m + 1) == a * m + a
  {
  }

  /** award_xp: every member of the team gains `amount`, once per place it
      holds in the roster; nobody's constitution moves. */
  method AwardXp(team: seq<Character>, amount: int)
    modifies (set c | c in team)`xp
    ensures forall c :: c in team ==> c.xp == old(c.xp) + amount * multiset(team)[c]
    ensures forall c :: c in team ==> c.con == old(c.con)
  {
    for i := 0 to |team|
      invariant forall c :: c in team ==> c.xp == old(c.xp) + Credited(team[..i], c, amount)
    {
      assert team[..i + 1][..i] == team[..i];
      team[i].xp := team[i].xp + amount;
    }
    assert team[..|team|] == team;
    forall c | c in team
      ensures Credited(team, c, amount) == amount * multiset(team)[c]
    {
      CreditedPerPlace(team, c, amount);
    }
  }

  /** In a roster without repeats, each member holds exactly one place. */
  lemma {:induction false} DistinctOnce(team: seq<Character>, c: Character)
    requires Distinct(team) && c in team
    ensures multiset(team)[c] == 1
    decreases |team|
  {
    var k := |team| - 1;
    assert team == team[..k] + [team[k]];
    if c == team[k] {
      assert c !in team[..k];
    } else {
      DistinctOnce(team[..k], c);
    }
  }

  /** Which side, if any, the end of an encounter rewards. */
  datatype Award = XpToTeam1 | XpToTeam2 | NoXp

  /** The end-of-encounter rule: a side earns XP exactly when it has somebody
      alive and the other side has nobody; otherwise (both standing after a
      disengagement, or both wiped out) nobody does. */
  function AwardFor(alive1: bool, alive2: bool): (r: Award)
    ensures r == XpToTeam1 <==> alive1 && !alive2
    ensures r == XpToTeam2 <==> alive2 && !alive1
    ensures r == NoXp <==> alive1 == alive2
  {
    if alive1 && !alive2 then XpToTeam1
    else if alive2 && !alive1 then XpToTeam2
    else NoXp
  }

  /** Swapping the sides swaps the reward. */
  lemma AwardSymmetric(alive1: bool, alive2: bool)
    ensures AwardFor(alive1, alive2) == XpToTeam1 <==> AwardFor(alive2, alive1) == XpToTeam2
    ensures AwardFor(alive1, alive2) == NoXp <==> AwardFor(alive2, alive1) == NoXp
  {
  }

  /** Once a side is wiped out, the reward goes to the winner that battle names. */
  lemma AwardFollowsWinner(alive1: bool, alive2: bool)
    requires !(alive1 && alive2)
    ensures AwardFor(alive1, alive2) == XpToTeam1 <==> Classify(alive1, alive2) == Team1
    ensures AwardFor(alive1, alive2) == XpToTeam2 <==> Classify(alive1, alive2) == Team2
    ensures AwardFor(alive1, alive2) == NoXp <==> Classify(alive1, alive2) == NoOne
  {
  }

  // ----------------------------------------------------------------------
  // Building a team
  // ----------------------------------------------------------------------

  /** What a character file turned out to hold: nothing usable (missing,
      unreadable, not JSON), or a parsed JSON value. */
  datatype FileContent = Unreadable | Parsed(data: Json)

  /** One answer to team_builder's prompt: N stops, L loads a file, C creates a
      character from typed values, anything else is ignored. */
  datatype BuildChoice = Finish | Load(file: FileContent) | Create(sheet: Sheet) | Other

  /** The sheet of the character one answer other than N adds, if any:
      a created sheet always, a loaded file only when it holds a complete record. */
  function Enlisted(choice: BuildChoice): (r: seq<Sheet>)
    ensures |r| <= 1
  {
    match choice
    case Load(file) =>
      if file.Parsed? && SheetFromDict(file.data).Ok? then [SheetFromDict(file.data).value] else []
    case Create(sheet) => [sheet]
    case _ => []
  }

  /** The sheets of the characters a script of choices puts on the team, in
      order, up to the first Finish. */
  function Admitted(choices: seq<BuildChoice>): (r: seq<Sheet>)
    ensures |r| <= |choices|
    decreases |choices|
  {
    if choices == [] || choices[0] == Finish then []
    else Enlisted(choices[0]) + Admitted(choices[1..])
  }

  lemma Associative<T>(a: seq<T>, b: seq<T>, c: seq<T>)
    ensures (a + b) + c == a + (b + c)
  {
  }

  /** Choices before any Finish just add their characters: building from a
      script in two pieces is building from each piece in turn. */
  lemma {:induction false} AdmittedConcat(choices: seq<BuildChoice>, more: seq<BuildChoice>)
    requires Finish !in choices
    ensures Admitted(choices + more) == Admitted(choices) + Admitted(more)
    decreases |choices|
  {
    if choices == [] {
      assert choices + more == more;
    } else {
      assert (choices + more)[0] == choices[0] && (choices + more)[1..] == choices[1..] + more;
      assert Finish !in choices[1..] by {
        assert forall x :: x in choices[1..] ==> x in choices;
      }
      AdmittedConcat(choices[1..], more);
      var head := Enlisted(choices[0]);
      Associative(head, Admitted(choices[1..]), Admitted(more));
    }
  }

  /** A file without a complete character record adds nobody; the rest of
      the script is read as if the answer had not been given. */
  lemma BadFileAddsNobody(file: FileContent, rest: seq<BuildChoice>)
    requires file.Unreadable? || SheetFromDict(file.data).Err?
    ensures Admitted([Load(file)] + rest) == Admitted(rest)
  {
    assert ([Load(file)] + rest)[1..] == rest;
  }

  /** A team holds one distinct character built from each of the sheets, in order. */
  predicate Roster(team: seq<Character>, sheets: seq<Sheet>)
    reads set c | c in team
  {
    |team| == |sheets| && Distinct(team)
    && forall j :: 0 <= j < |team| ==> team[j].Built(sheets[j])
  }

  /** One pass of team_builder's loop for an answer other than N: the team
      with the character it adds (none, or a new one with XP 0) at its end. */
  method Enlist(team: seq<Character>, ghost sheets: seq<Sheet>, choice: BuildChoice) returns (grown: seq<Character>)
    requires choice != Finish && Roster(team, sheets)
    ensures Roster(grown, sheets + Enlisted(choice))
    ensures |grown| >= |team| && grown[..|team|] == team
    ensures forall j :: |team| <= j < |grown| ==> fresh(grown[j])
  {
    grown := team;
    match choice {
      case Load(file) =>
        if file.Parsed? {
          var r := Character.FromDict(file.data);
          if r.Ok? {
            var c := r.value;
            c.xp := 0;
            grown := team + [c];
          }
        }
      case Create(sheet) =>
        var c := new Character(sheet.name, sheet.strength, sheet.dexterity, sheet.speed, sheet.luck,
                               sheet.constitution, sheet.weapon, sheet.armor);
        c.xp := 0;
        grown := team + [c];
      case Other =>
    }
  }

  /** team_builder: reads choices until N, creating or loading characters
      (each with XP 0); when the script runs out first, input ends and
      `finished` is false. */
  method TeamBuilder(choices: seq<BuildChoice>) returns (team: seq<Character>, finished: bool)
    ensures finished <==> Finish in choices
    ensures Roster(team, Admitted(choices))
    ensures forall i :: 0 <= i < |team| ==> fresh(team[i])
  {
    team := [];
    ghost var sheets: seq<Sheet> := [];
    var pending := choices;
    while pending != []
      invariant sheets + Admitted(pending) == Admitted(choices)
      invariant Finish in choices <==> Finish in pending
      invariant Roster(team, sheets)
      invariant forall j :: 0 <= j < |team| ==> fresh(team[j])
      decreases |pending|
    {
      var choice := pending[0];
      if choice == Finish {
        finished := true;
        return;
      }
      ghost var before := team;
      team := Enlist(team, sheets, choice);
      assert forall j :: 0 <= j < |before| ==> team[j] == before[j];
      ghost var more := Enlisted(choice);
      assert Admitted(pending) == more + Admitted(pending[1..]);
      Associative(sheets, more, Admitted(pending[1..]));
      assert pending == [choice] + pending[1..];
      sheets := sheets + more;
      pending := pending[1..];
    }
    finished := false;
  }

  // ----------------------------------------------------------------------
  // An encounter
  // ----------------------------------------------------------------------

  /** The answer typed between rounds: D disengages, Q quits the game, and
      any other answer continues. */
  datatype Action = Continue | Disengage | Quit

  /** Why the fighting of an encounter stopped. */
  datatype Halt = Wiped | Disengaged | Quitted | OutOfInput

  datatype Outcome = Outcome(state: State, halt: Halt)

  /** The fighting of an encounter on values: while both sides stand, a round
      is fought and then the next action is read. */
  function Fight(team1: seq<Character>, team2: seq<Character>, d6: DiceStream, s: State, actions: seq<Action>): (o: Outcome)
    requires Fits(team1, team2, s)
    ensures Fits(team1, team2, o.state)
    decreases |actions|
  {
    if !BothStanding(s) then Outcome(s, Wiped)
    else
      var next := Round(team1, team2, d6, s);
      if actions == [] then Outcome(next, OutOfInput)
      else
        match actions[0]
        case Continue => Fight(team1, team2, d6, next, actions[1..])
        case Disengage => Outcome(next, Disengaged)
        case Quit => Outcome(next, Quitted)
  }

  /** The fighting stops for a wiped-out side only when a side is down at its
      end (an action read after the last round can stop it first). */
  lemma {:induction false} FightEnds(team1: seq<Character>, team2: seq<Character>, d6: DiceStream, s: State,
                                     actions: seq<Action>)
    requires Fits(team1, team2, s)
    ensures var o := Fight(team1, team2, d6, s, actions);
            o.halt == Wiped ==> !BothStanding(o.state)
    decreases |actions|
  {
    if BothStanding(s) && actions != [] && actions[0] == Continue {
      FightEnds(team1, team2, d6, Round(team1, team2, d6, s), actions[1..]);
    }
  }

  /** Nobody heals during an encounter, and the fallen stay as they fell. */
  lemma {:induction false} FightNeverHeals(team1: seq<Character>, team2: seq<Character>, d6: DiceStream, s: State,
                                           actions: seq<Action>)
    requires Fits(team1, team2, s)
    ensures NoHeal(s, Fight(team1, team2, d6, s, actions).state)
    decreases |actions|
  {
    if BothStanding(s) {
      var next := Round(team1, team2, d6, s);
      RoundNeverHeals(team1, team2, d6, s);
      if actions != [] && actions[0] == Continue {
        FightNeverHeals(team1, team2, d6, next, actions[1..]);
      }
    }
  }

  /** Answering "continue" every time fights the battle: with n continues the
      encounter is the battle bounded by n + 1 rounds. */
  lemma {:induction false} ContinuingIsBattle(team1: seq<Character>, team2: seq<Character>, d6: DiceStream, s: State,
                                              actions: seq<Action>)
    requires Fits(team1, team2, s)
    requires forall k :: 0 <= k < |actions| ==> actions[k] == Continue
    ensures Fight(team1, team2, d6, s, actions).state == BattleRun(team1, team2, d6, s, |actions| + 1)
    decreases |actions|
  {
    if BothStanding(s) {
      var next := Round(team1, team2, d6, s);
      assert RoundStep(team1, team2, d6)(s) == next;
      if actions != [] {
        ContinuingIsBattle(team1, team2, d6, next, actions[1..]);
      }
    }
  }

  /** Disengaging after a round that leaves both sides standing ends the
      encounter with no XP for anybody. */
  lemma DisengageAwardsNothing(team1: seq<Character>, team2: seq<Character>, d6: DiceStream, s: State,
                               actions: seq<Action>)
    requires Fits(team1, team2, s) && BothStanding(s) && actions != [] && actions[0] == Disengage
    requires BothStanding(Round(team1, team2, d6, s))
    ensures var o := Fight(team1, team2, d6, s, actions);
            o.halt == Disengaged && AwardFor(AnyAlive(o.state.hs1), AnyAlive(o.state.hs2)) == NoXp
  {
  }

  /** The action is read even after the round that wipes a side out: quitting
      then ends the game (with no XP for the winner), while continuing or
      disengaging lets the encounter end normally. */
  lemma ActionAfterLastRound(team1: seq<Character>, team2: seq<Character>, d6: DiceStream, s: State,
                             actions: seq<Action>)
    requires Fits(team1, team2, s) && BothStanding(s) && actions != []
    requires !BothStanding(Round(team1, team2, d6, s))
    ensures var o := Fight(team1, team2, d6, s, actions);
            o.state == Round(team1, team2, d6, s)
            && o.halt == match actions[0] case Continue => Wiped case Disengage => Disengaged case Quit => Quitted
  {
  }

  /** How an encounter ended. */
  datatype EncounterEnd = Restart | QuitGame | InputEnded | Over(award: Award)

  /** The rounds of an encounter: while both sides stand, a round is fought
      and then an action is read; D or Q stop the fighting, as does the end of
      the input. */
  method Fighting(team1: seq<Character>, team2: seq<Character>, d6: DiceStream, at: nat, actions: seq<Action>)
    returns (halt: Halt, next: nat)
    requires Distinct(team1) && Distinct(team2) && Apart(team1, team2)
    modifies (set c | c in team1)`con, (set c | c in team2)`con
    ensures var o := Fight(team1, team2, d6, State(old(Healths(team1)), old(Healths(team2)), at), actions);
            Healths(team1) == o.state.hs1 && Healths(team2) == o.state.hs2 && next == o.state.cursor && halt == o.halt
  {
    ghost var start := State(Healths(team1), Healths(team2), at);
    next := at;
    var pending := actions;
    while AnyAlive(Healths(team1)) && AnyAlive(Healths(team2))
      invariant Fight(team1, team2, d6, start, actions)
                == Fight(team1, team2, d6, State(Healths(team1), Healths(team2), next), pending)
      decreases |pending|
    {
      ghost var s := State(Healths(team1), Healths(team2), next);
      next := CombatRound(team1, team2, d6, next);
      assert State(Healths(team1), Healths(team2), next) == Round(team1, team2, d6, s);
      if pending == [] {
        return OutOfInput, next;
      }
      var action := pending[0];
      pending := pending[1..];
      if action == Disengage {
        return Disengaged, next;
      } else if action == Quit {
        return Quitted, next;
      }
    }
    halt := Wiped;
  }

  /** The end of an encounter that is over: the side left standing alone gets
      100 XP per member; nobody's constitution moves. */
  method Reward(team1: seq<Character>, team2: seq<Character>) returns (award: Award)
    requires Distinct(team1) && Distinct(team2) && Apart(team1, team2)
    modifies (set c | c in team1)`xp, (set c | c in team2)`xp
    ensures award == AwardFor(AnyAlive(Healths(team1)), AnyAlive(Healths(team2)))
    ensures Healths(team1) == old(Healths(team1)) && Healths(team2) == old(Healths(team2))
    ensures forall c :: c in team1 ==> c.xp == old(c.xp) + (if award == XpToTeam1 then WinXp else 0)
    ensures forall c :: c in team2 ==> c.xp == old(c.xp) + (if award == XpToTeam2 then WinXp else 0)
  {
    award := AwardFor(AnyAlive(Healths(team1)), AnyAlive(Healths(team2)));
    if award == XpToTeam1 {
      AwardXp(team1, WinXp);
      forall c | c in team1
        ensures multiset(team1)[c] == 1
      {
        DistinctOnce(team1, c);
      }
    } else if award == XpToTeam2 {
      AwardXp(team2, WinXp);
      forall c | c in team2
        ensures multiset(team2)[c] == 1
      {
        DistinctOnce(team2, c);
      }
    }
    Untouched(team1);
    Untouched(team2);
  }

  /** One pass of encounter_loop's body after the teams are built: an empty
      team restarts without fighting; otherwise the rounds are fought, and an
      encounter that is over (not quit, not cut short by the end of input)
      rewards the side left standing alone. */
  method Encounter(team1: seq<Character>, team2: seq<Character>, d6: DiceStream, at: nat, actions: seq<Action>)
    returns (end: EncounterEnd, next: nat)
    requires Distinct(team1) && Distinct(team2) && Apart(team1, team2)
    modifies (set c | c in team1)`con, (set c | c in team2)`con, (set c | c in team1)`xp, (set c | c in team2)`xp
    ensures end == Restart <==> team1 == [] || team2 == []
    ensures end == Restart ==> next == at && Healths(team1) == old(Healths(team1)) && Healths(team2) == old(Healths(team2))
    ensures end != Restart ==>
              var o := Fight(team1, team2, d6, State(old(Healths(team1)), old(Healths(team2)), at), actions);
              Healths(team1) == o.state.hs1 && Healths(team2) == o.state.hs2 && next == o.state.cursor
              && (end == QuitGame <==> o.halt == Quitted)
              && (end == InputEnded <==> o.halt == OutOfInput)
              && (end.Over? ==> end.award == AwardFor(AnyAlive(o.state.hs1), AnyAlive(o.state.hs2)))
    ensures forall c :: c in team1 ==> c.xp == old(c.xp) + (if end == Over(XpToTeam1) then WinXp else 0)
    ensures forall c :: c in team2 ==> c.xp == old(c.xp) + (if end == Over(XpToTeam2) then WinXp else 0)
  {
    if team1 == [] || team2 == [] {
      return Restart, at;
    }
    var halt;
    halt, next := Fighting(team1, team2, d6, at, actions);
    if halt == Quitted {
      return QuitGame, next;
    } else if halt == OutOfInput {
      return InputEnded, next;
    }
    var award := Reward(team1, team2);
    end := Over(award);
  }
}
