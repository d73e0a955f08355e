/**
 The list functions of src/controlflow.cpp and the round of games/rockpaper.json that is written
 with them: for every weapon that nobody chose, the winners list is extended with the players
 whose weapon it would have beaten.
 */
module RockPaper {
  /** A player: an identity and the per-player map of strings. */
  datatype Player = Player(id: nat, fields: map<string, string>)

  // -------------------------------------------------------------------- src/controlflow.cpp

  /** The source does not check that the key is there. */
  predicate HaveKey(list: seq<Player>, key: string) {
    forall i :: 0 <= i < |list| ==> key in list[i].fields
  }

  function Elements(list: seq<Player>, key: string): seq<string>
    requires HaveKey(list, key)
  {
    seq(|list|, i requires 0 <= i < |list| => list[i].fields[key])
  }

  function Collected(list: seq<Player>, key: string, rhs: string): seq<Player>
    requires HaveKey(list, key)
  {
    if list == [] then []
    else
      var last := list[|list| - 1];
      Collected(list[..|list| - 1], key, rhs) + (if last.fields[key] == rhs then [last] else [])
  }

  method GetElements(list: seq<Player>, key: string) returns (elements: seq<string>)
    requires HaveKey(list, key)
    ensures elements == Elements(list, key)
  {
    elements := [];
    for i := 0 to |list|
      invariant |elements| == i && forall j :: 0 <= j < i ==> elements[j] == list[j].fields[key]
    {
      elements := elements + [list[i].fields[key]];
    }
  }

  method Collect(list: seq<Player>, key: string, rhs: string) returns (collected: seq<Player>)
    requires HaveKey(list, key)
    ensures collected == Collected(list, key, rhs)
  {
    collected := [];
    for i := 0 to |list|
      invariant collected == Collected(list[..i], key, rhs)
    {
      if list[i].fields[key] == rhs {
        collected := collected + [list[i]];
      }
      assert list[..i + 1][..i] == list[..i];
    }
    assert list[..|list|] == list;
  }

  method Contains(list: seq<string>, value: string) returns (found: bool)
    ensures found <==> value in list
  {
    for i := 0 to |list|
      invariant value !in list[..i]
    {
      if list[i] == value {
        return true;
      }
    }
    found := false;
  }

  predicate Distinct(list: seq<Player>) {
    forall i, j :: 0 <= i < j < |list| ==> list[i].id != list[j].id
  }

  /** Collecting keeps just the players with the value. */
  lemma {:induction false} CollectedMembers(list: seq<Player>, key: string, rhs: string)
    requires HaveKey(list, key)
    ensures forall p :: p in Collected(list, key, rhs) <==> p in list && p.fields[key] == rhs
  {
    if list != [] {
      CollectedMembers(list[..|list| - 1], key, rhs);
      assert list == list[..|list| - 1] + [list[|list| - 1]];
    }
  }

  lemma {:induction false} CollectedLength(list: seq<Player>, key: string, rhs: string)
    requires HaveKey(list, key)
    ensures |Collected(list, key, rhs)| <= |list|
    ensures |Collected(list, key, rhs)| == |list| <==> forall i :: 0 <= i < |list| ==> list[i].fields[key] == rhs
  {
    if list != [] {
      var front := list[..|list| - 1];
      CollectedLength(front, key, rhs);
      assert forall i :: 0 <= i < |front| ==> front[i] == list[i];
    }
  }

  lemma {:induction false} CollectedDistinct(list: seq<Player>, key: string, rhs: string)
    requires HaveKey(list, key) && Distinct(list)
    ensures Distinct(Collected(list, key, rhs))
  {
    if list != [] {
      var front, last := list[..|list| - 1], list[|list| - 1];
      CollectedDistinct(front, key, rhs);
      CollectedMembers(front, key, rhs);
      var c := Collected(front, key, rhs);
      forall i | 0 <= i < |c|
        ensures c[i].id != last.id
      {
        assert c[i] in front;
        var j :| 0 <= j < |front| && front[j] == c[i];
        assert list[j].id != list[|list| - 1].id;
      }
    }
  }

  /** A value is among the elements exactly when collecting by it finds somebody. */
  lemma {:induction false} ContainsIffCollects(list: seq<Player>, key: string, value: string)
    requires HaveKey(list, key)
    ensures value in Elements(list, key) <==> Collected(list, key, value) != []
  {
    CollectedMembers(list, key, value);
    var elements, c := Elements(list, key), Collected(list, key, value);
    if value in elements {
      var i :| 0 <= i < |elements| && elements[i] == value;
      assert list[i] in c;
    }
    if c != [] {
      assert c[0] in list;
      var i :| 0 <= i < |list| && list[i] == c[0];
      assert elements[i] == value;
    }
  }

  // -------------------------------------------------------------------- games/rockpaper.json

  datatype Weapon = Weapon(name: string, beats: string)

  const WEAPONS := [Weapon("Rock", "Scissors"), Weapon("Paper", "Rock"), Weapon("Scissors", "Paper")]

  /** Players who have all chosen one of the weapons. */
  predicate Armed(players: seq<Player>) {
    && HaveKey(players, "weapon")
    && forall i :: 0 <= i < |players| ==> players[i].fields["weapon"] in {"Rock", "Paper", "Scissors"}
  }

  predicate Chosen(players: seq<Player>, name: string)
    requires Armed(players)
  {
    name in Elements(players, "weapon")
  }

  function Holders(players: seq<Player>, name: string): seq<Player>
    requires Armed(players)
  {
    Collected(players, "weapon", name)
  }

  predicate TwoChosen(players: seq<Player>)
    requires Armed(players)
  {
    var r, p, s := Chosen(players, "Rock"), Chosen(players, "Paper"), Chosen(players, "Scissors");
    (r && p && !s) || (p && s && !r) || (s && r && !p)
  }

  function Beats(name: string): string {
    if name == "Rock" then "Scissors" else if name == "Paper" then "Rock" else "Paper"
  }

  /** The game file's table says what the function says. */
  lemma {:induction false} WeaponsBeat()
    ensures Beats("Rock") == "Scissors" && Beats("Paper") == "Rock" && Beats("Scissors") == "Paper"
    ensures forall i :: 0 <= i < |WEAPONS| ==> WEAPONS[i].beats == Beats(WEAPONS[i].name)
  {
  }

  /** A player wins if exactly two weapons were chosen and his beats the other. */
  predicate Wins(players: seq<Player>, p: Player)
    requires Armed(players) && "weapon" in p.fields
  {
    TwoChosen(players) && Chosen(players, Beats(p.fields["weapon"]))
  }

  function Extension(players: seq<Player>, w: Weapon): seq<Player>
    requires Armed(players)
  {
    if Chosen(players, w.name) then [] else Holders(players, w.beats)
  }

  /** The loop over the weapons. */
  method FindWinners(players: seq<Player>) returns (winners: seq<Player>)
    requires Armed(players)
    ensures winners == Extension(players, WEAPONS[0]) + Extension(players, WEAPONS[1]) + Extension(players, WEAPONS[2])
  {
    winners := [];
    ghost var e := (k: nat) requires k < 3 => Extension(players, WEAPONS[k]);
    for i := 0 to |WEAPONS|
      invariant i == 0 ==> winners == []
      invariant i == 1 ==> winners == e(0)
      invariant i == 2 ==> winners == e(0) + e(1)
      invariant i == 3 ==> winners == e(0) + e(1) + e(2)
    {
      var elements := GetElements(players, "weapon");
      var contained := Contains(elements, WEAPONS[i].name);
      if !contained {
        var collected := Collect(players, "weapon", WEAPONS[i].beats);
        winners := winners + collected;
      }
    }
  }

  lemma {:induction false} SomebodyArmed(players: seq<Player>)
    requires Armed(players)
    ensures players == [] <==> !Chosen(players, "Rock") && !Chosen(players, "Paper") && !Chosen(players, "Scissors")
    ensures forall i :: 0 <= i < |players| ==> Chosen(players, players[i].fields["weapon"])
  {
    var elements := Elements(players, "weapon");
    forall i | 0 <= i < |players|
      ensures Chosen(players, players[i].fields["weapon"])
    {
      assert elements[i] == players[i].fields["weapon"];
    }
    if players != [] {
      assert Chosen(players, players[0].fields["weapon"]);
    }
  }

  /** With one weapon chosen, all players hold it. */
  lemma {:induction false} AllHold(players: seq<Player>, name: string)
    requires Armed(players) && name in {"Rock", "Paper", "Scissors"}
    requires forall w :: w in {"Rock", "Paper", "Scissors"} && w != name ==> !Chosen(players, w)
    ensures |Holders(players, name)| == |players|
  {
    SomebodyArmed(players);
    CollectedLength(players, "weapon", name);
  }

  lemma {:induction false} NobodyHolds(players: seq<Player>, name: string)
    requires Armed(players)
    ensures Holders(players, name) == [] <==> !Chosen(players, name)
  {
    ContainsIffCollects(players, "weapon", name);
  }

  /** With two weapons chosen, some hold either: the holders of one are neither none nor all. */
  lemma {:induction false} SomeHold(players: seq<Player>, name: string, other: string)
    requires Armed(players) && Chosen(players, name) && Chosen(players, other) && name != other
    ensures 0 < |Holders(players, name)| < |players|
  {
    NobodyHolds(players, name);
    CollectedLength(players, "weapon", name);
    var elements := Elements(players, "weapon");
    var i :| 0 <= i < |elements| && elements[i] == other;
    assert players[i].fields["weapon"] == other;
  }

  /** The tie test of the rules, and what it amounts to. */
  method PlayRound(players: seq<Player>) returns (tie: bool, winners: seq<Player>)
    requires Armed(players)
    ensures tie <==> !TwoChosen(players)
    ensures 0 < |winners| < |players| <==> TwoChosen(players)
    ensures !tie ==> forall p :: p in winners <==> p in players && Wins(players, p)
    ensures !tie && Distinct(players) ==> Distinct(winners)
  {
    winners := FindWinners(players);
    tie := |winners| == |players| || |winners| == 0;
    WinnersExactly(players, winners);
  }

  lemma {:induction false} WinnersExactly(players: seq<Player>, winners: seq<Player>)
    requires Armed(players)
    requires winners == Extension(players, WEAPONS[0]) + Extension(players, WEAPONS[1]) + Extension(players, WEAPONS[2])
    ensures 0 < |winners| < |players| <==> TwoChosen(players)
    ensures !TwoChosen(players) ==> |winners| == |players| || winners == []
    ensures TwoChosen(players) ==> forall p :: p in winners <==> p in players && Wins(players, p)
    ensures TwoChosen(players) && Distinct(players) ==> Distinct(winners)
  {
    var r, p, s := Chosen(players, "Rock"), Chosen(players, "Paper"), Chosen(players, "Scissors");
    if r && p && !s {
      TwoWeapons(players, winners, "Paper", "Rock", "Scissors");
    } else if p && s && !r {
      TwoWeapons(players, winners, "Scissors", "Paper", "Rock");
    } else if s && r && !p {
      TwoWeapons(players, winners, "Rock", "Scissors", "Paper");
    } else {
      NoTwoWeapons(players, winners);
    }
  }

  /** With one weapon chosen everybody is collected, with none or all three nobody. */
  lemma {:induction false} NoTwoWeapons(players: seq<Player>, winners: seq<Player>)
    requires Armed(players) && !TwoChosen(players)
    requires winners == Extension(players, WEAPONS[0]) + Extension(players, WEAPONS[1]) + Extension(players, WEAPONS[2])
    ensures |winners| == |players| || winners == []
  {
    var r, p, s := Chosen(players, "Rock"), Chosen(players, "Paper"), Chosen(players, "Scissors");
    SomebodyArmed(players);
    NobodyHolds(players, "Rock");
    NobodyHolds(players, "Paper");
    NobodyHolds(players, "Scissors");
    if r && !p && !s {
      AllHold(players, "Rock");
    } else if p && !s && !r {
      AllHold(players, "Paper");
    } else if s && !r && !p {
      AllHold(players, "Scissors");
    }
  }

  /** `better` and `worse` were chosen and the third weapon was not. */
  lemma {:induction false} TwoWeapons(players: seq<Player>, winners: seq<Player>, better: string, worse: string, third: string)
    requires Armed(players) && Chosen(players, better) && Chosen(players, worse) && !Chosen(players, third)
    requires better in {"Rock", "Paper", "Scissors"} && worse == Beats(better) && third == Beats(worse)
    requires winners == Holders(players, better)
    ensures 0 < |winners| < |players|
    ensures forall p :: p in winners <==> p in players && Wins(players, p)
    ensures Distinct(players) ==> Distinct(winners)
  {
    SomeHold(players, better, worse);
    CollectedMembers(players, "weapon", better);
    if Distinct(players) {
      CollectedDistinct(players, "weapon", better);
    }
    SomebodyArmed(players);
    forall p | p in players
      ensures p in winners <==> Wins(players, p)
    {
      var i :| 0 <= i < |players| && players[i] == p;
      assert Chosen(players, players[i].fields["weapon"]);
    }
  }

  // -------------------------------------------------------------------- scores

  /** One round with its scores: each winner's count goes up by one. */
  method ScoreRound(players: seq<Player>, wins: map<nat, int>) returns (tie: bool, after: map<nat, int>)
    requires Armed(players) && Distinct(players)
    requires forall i :: 0 <= i < |players| ==> players[i].id in wins
    ensures tie <==> !TwoChosen(players)
    ensures after.Keys == wins.Keys
    ensures forall i :: 0 <= i < |players| ==>
              after[players[i].id] == wins[players[i].id] + (if Wins(players, players[i]) then 1 else 0)
    ensures forall id :: id in wins && (forall i :: 0 <= i < |players| ==> players[i].id != id) ==> after[id] == wins[id]
  {
    var winners;
    tie, winners := PlayRound(players);
    after := wins;
    if !tie {
      forall j | 0 <= j < |winners|
        ensures winners[j].id in wins
      {
        assert winners[j] in players;
      }
      for k := 0 to |winners|
        invariant after.Keys == wins.Keys
        invariant forall j :: 0 <= j < k ==> after[winners[j].id] == wins[winners[j].id] + 1
        invariant forall id :: id in wins && (forall j :: 0 <= j < k ==> winners[j].id != id) ==> after[id] == wins[id]
      {
        after := after[winners[k].id := after[winners[k].id] + 1];
      }
      AwardsExactly(players, winners, wins, after);
    }
  }

  lemma {:induction false} AwardsExactly(players: seq<Player>, winners: seq<Player>, wins: map<nat, int>, after: map<nat, int>)
    requires Armed(players) && Distinct(players) && after.Keys == wins.Keys
    requires forall i :: 0 <= i < |players| ==> players[i].id in wins
    requires forall p :: p in winners <==> p in players && Wins(players, p)
    requires forall j :: 0 <= j < |winners| ==> winners[j].id in wins && after[winners[j].id] == wins[winners[j].id] + 1
    requires forall id :: id in wins && (forall j :: 0 <= j < |winners| ==> winners[j].id != id) ==> after[id] == wins[id]
    ensures forall i :: 0 <= i < |players| ==>
              after[players[i].id] == wins[players[i].id] + (if Wins(players, players[i]) then 1 else 0)
    ensures forall id :: id in wins && (forall i :: 0 <= i < |players| ==> players[i].id != id) ==> after[id] == wins[id]
  {
    forall i | 0 <= i < |players|
      ensures after[players[i].id] == wins[players[i].id] + (if Wins(players, players[i]) then 1 else 0)
    {
      if Wins(players, players[i]) {
        assert players[i] in winners;
        var j :| 0 <= j < |winners| && winners[j] == players[i];
      } else {
        forall j | 0 <= j < |winners|
          ensures winners[j].id != players[i].id
        {
          assert winners[j] in players;
          var k :| 0 <= k < |players| && players[k] == winners[j];
          assert k != i;
        }
      }
    }
    forall id | id in wins && (forall i :: 0 <= i < |players| ==> players[i].id != id)
      ensures after[id] == wins[id]
    {
      forall j | 0 <= j < |winners|
        ensures winners[j].id != id
      {
        assert winners[j] in players;
      }
    }
  }
}
