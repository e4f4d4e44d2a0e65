/** The player, colour and rule tables of constants.ts, with the facts they satisfy. */
module Constants {
  import opened Wrappers
  import opened Types
  import opened Scoring

  const PLAYERS: seq<Player> := [
    Player("1", "Il Capitano", "Birra Real", M, 45, Available, 0, 0),
    Player("2", "Bomber di Razza", "NeroVerdi", M, 38, Available, 0, 0),
    Player("3", "Saracinesca", "BlueStars", P, 25, Available, 0, 0),
    Player("4", "Il Geometra", "BiancoNeri", M, 22, Available, 0, 0),
    Player("5", "Puntazza d'Oro", "Azzurri", M, 28, Available, 0, 0),
    Player("6", "Gatto delle Nevi", "NeroVerdi", P, 18, Available, 0, 0),
    Player("7", "Zaino in Spalla", "Birra Real", M, 12, Available, 0, 0),
    Player("8", "Polmone Infinito", "BlueStars", M, 15, Available, 0, 0),
    Player("9", "L'Eterno Secondo", "BiancoNeri", M, 10, Available, 0, 0),
    Player("10", "Dribbling Folle", "Azzurri", M, 20, Available, 0, 0)
  ]

  /** The badge colour class of each role. */
  const ROLE_COLORS: map<Role, string> := map[P := "bg-amber-400", M := "bg-emerald-600"]

  const BONUS_RULES: seq<RuleEntry> := [
    RuleEntry("st1", "Tecnico", "Goal Segnato", 3.0, "Bonus standard per ogni rete."),
    RuleEntry("st2", "Tecnico", "Assist Servito", 1.0, "Passaggio decisivo per il goal."),
    RuleEntry("st3", "Tecnico", "Porta Inviolata", 1.0, "Bonus solo per il Portiere se non subisce reti."),
    RuleEntry("st4", "Tecnico", "Rigore Parato", 3.0, "Prodezza estrema del numero 1."),
    RuleEntry("b1", "Goliardia", "Tunnel (Nutmeg)", 5.0, "Umore alto, palla tra le gambe."),
    RuleEntry("b2", "Goliardia", "Publican Hero", 10.0, "Porta le birre ghiacciate a fine match."),
    RuleEntry("b3", "Goliardia", "Siuuu Reale", 5.0, "Esultanza iconica eseguita perfettamente.")
  ]

  const MALUS_RULES: seq<RuleEntry> := [
    RuleEntry("sm1", "Tecnico", "Autogoal", -2.0, "Malus per sfortunata deviazione nella propria porta."),
    RuleEntry("sm2", "Tecnico", "Ammonizione", -0.5, "Cartellino Giallo."),
    RuleEntry("sm3", "Tecnico", "Espulsione", -1.0, "Cartellino Rosso."),
    RuleEntry("sm4", "Tecnico", "Rigore Sbagliato", -3.0, "Errore dal dischetto."),
    RuleEntry("m1", "Goliardia", "Liscio Epico", -5.0, "Calcio a vuoto clamoroso."),
    RuleEntry("m2", "Goliardia", "Ritardo Cronico", -5.0, "Arrivo a partita gi\U{E0} iniziata.")
  ]

  /** The points of the first rule with id `id`, if any. */
  function RulePoints(rules: seq<RuleEntry>, id: string): (r: Option<real>)
    ensures r.Some? ==> exists i :: 0 <= i < |rules| && rules[i].id == id && rules[i].points == r.value
    ensures r.None? <==> forall i :: 0 <= i < |rules| ==> rules[i].id != id
  {
    if |rules| == 0 then None
    else if rules[0].id == id then Some(rules[0].points)
    else
      var r := RulePoints(rules[1..], id);
      assert r.Some? ==> exists i :: 1 <= i < |rules| && rules[i].id == id && rules[i].points == r.value by {
        if r.Some? {
          var i :| 0 <= i < |rules[1..]| && rules[1..][i].id == id && rules[1..][i].points == r.value;
          assert rules[i + 1] == rules[1..][i];
        }
      }
      r
  }

  /** The player ids are pairwise distinct. */
  lemma PlayerIdsDistinct()
    ensures forall i, j :: 0 <= i < j < |PLAYERS| ==> PLAYERS[i].id != PLAYERS[j].id
  {
  }

  /** Every player is a goalkeeper or an outfielder, exactly players "3" and "6" are goalkeepers,
      every price is positive and every player starts available with no goals and no assists. */
  lemma PlayerTableFacts()
    ensures forall p :: p in PLAYERS ==> p.role == P || p.role == M
    ensures forall p :: p in PLAYERS ==> (p.role == P <==> p.id == "3" || p.id == "6")
    ensures forall p :: p in PLAYERS ==> p.price > 0 && p.status == Available && p.goals == 0 && p.assists == 0
  {
    forall p | p in PLAYERS ensures p.role == P <==> p.id == "3" || p.id == "6" {
      var i :| 0 <= i < |PLAYERS| && PLAYERS[i] == p;
      assert "3"[0] == '3' && "6"[0] == '6';
      if i == 9 {
        assert p.id[1] == '0';
      } else {
        assert |p.id| == 1 && p.id[0] == ['1', '2', '3', '4', '5', '6', '7', '8', '9'][i];
      }
    }
  }

  /** Every bonus is worth positive points and every malus negative points. */
  lemma RuleSigns()
    ensures forall r :: r in BONUS_RULES ==> r.points > 0.0
    ensures forall r :: r in MALUS_RULES ==> r.points < 0.0
  {
  }

  /** No rule id occurs twice, within a table or across the two. */
  lemma RuleIdsDistinct()
    ensures forall i, j :: 0 <= i < j < |BONUS_RULES + MALUS_RULES| ==>
      (BONUS_RULES + MALUS_RULES)[i].id != (BONUS_RULES + MALUS_RULES)[j].id
  {
  }

  /** The colour lookup is defined for both roles. */
  lemma RoleColorsTotal()
    ensures forall r: Role :: r in ROLE_COLORS && ROLE_COLORS[r] != ""
  {
    forall r: Role ensures r in ROLE_COLORS && ROLE_COLORS[r] != "" {
      match r
      case P => assert ROLE_COLORS[P][0] == 'b';
      case M => assert ROLE_COLORS[M][0] == 'b';
    }
  }

  /** The points the technical bonuses publish: goal +3, assist +1. */
  lemma TechnicalBonusPoints()
    ensures RulePoints(BONUS_RULES, "st1") == Some(3.0) && RulePoints(BONUS_RULES, "st2") == Some(1.0)
  {
    assert BONUS_RULES[0].id == "st1";
    assert BONUS_RULES[1..][0].id == "st2" && "st1"[2] != "st2"[2];
  }

  /** The points the technical maluses publish: own goal -2, yellow card -0.5, red card -1. */
  lemma TechnicalMalusPoints()
    ensures RulePoints(MALUS_RULES, "sm1") == Some(-2.0) && RulePoints(MALUS_RULES, "sm2") == Some(-0.5)
    ensures RulePoints(MALUS_RULES, "sm3") == Some(-1.0)
  {
    assert MALUS_RULES[0].id == "sm1";
    assert MALUS_RULES[1..][0].id == "sm2" && "sm1"[2] != "sm2"[2];
    assert MALUS_RULES[1..][1..][0].id == "sm3" && "sm1"[2] != "sm3"[2] && "sm2"[2] != "sm3"[2];
  }

  /** The technical rules published to the managers are the coefficients settlement applies. */
  lemma {:induction false} TechnicalRulesMatchSettlement(s: PlayerMatchStats)
    ensures PlayerPoints(s) == s.voto
      + RulePoints(BONUS_RULES, "st1").value * (s.goals as real)
      + RulePoints(BONUS_RULES, "st2").value * (s.assists as real)
      + RulePoints(MALUS_RULES, "sm1").value * (s.ownGoals as real)
      + (if s.yellowCard then RulePoints(MALUS_RULES, "sm2").value else 0.0)
      + (if s.redCard then RulePoints(MALUS_RULES, "sm3").value else 0.0)
      + s.extraPoints
  {
    TechnicalBonusPoints();
    TechnicalMalusPoints();
  }
}
