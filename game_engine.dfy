/** The phase machine of a game: lobby, then nights of three sub-phases (seer, wolves,
    witch) alternating with days. Every operation checks the phase first and then its target;
    a refused operation reports a `GameStateError` with the French message shown to players.
    Players are values in the game's `players` list: changing one player's role or status
    replaces that entry of the list. */
module GameEngine {
  import opened Schemas
  import opened Utils
  import Roles

  /** The engine's own refusal, and the `ValueError` the role distribution raises below five
      players, which the engine does not catch. */
  datatype EngineError = GameStateError(message: string) | ValueError(message: string)

  // The engine's refusals.
  const LobbyOnly := "Les rôles ne peuvent être attribués qu'en phase de lobby."
  const SeerTurnOnly := "Ce n'est pas le tour de la voyante."
  const WolvesTurnOnly := "Ce n'est pas le tour des loups-garous."
  const WitchTurnOnly := "Ce n'est pas le tour de la sorcière."
  const DayOnly := "La nuit ne peut démarrer qu'après la phase de jour."
  const PlayerNotFound := "Joueur introuvable."
  const LivingOnly := "Cette action nécessite un joueur vivant."
  const HealSpent := "La potion de soin a déjà été utilisée."
  const PoisonSpent := "La potion de poison a déjà été utilisée."
  const NobodyToSave := "Aucun joueur à sauver."
  const TargetAlreadyChosen := "Impossible d'empoisonner un joueur déjà ciblé."

  /** The ids of the players, in order. */
  function Ids(ps: seq<Player>): (r: seq<PlayerId>)
    ensures |r| == |ps| && forall k :: 0 <= k < |ps| ==> r[k] == ps[k].id
  {
    if ps == [] then [] else [ps[0].id] + Ids(ps[1..])
  }

  /** `k` is the position of the first player whose id is `id`. */
  predicate IsFirstWithId(ps: seq<Player>, id: string, k: int)
  {
    0 <= k < |ps| && ps[k].id == id && forall j :: 0 <= j < k ==> ps[j].id != id
  }

  /** `_get_player`: the position of the first player with the id, or "Joueur
      introuvable." when nobody has it. */
  function GetPlayer(ps: seq<Player>, id: string): (r: Result<nat, EngineError>)
    ensures r.Err? <==> forall k :: 0 <= k < |ps| ==> ps[k].id != id
    ensures r.Err? ==> r.error == GameStateError(PlayerNotFound)
    ensures r.Ok? ==> IsFirstWithId(ps, id, r.value)
  {
    if ps == [] then Err(GameStateError(PlayerNotFound))
    else if ps[0].id == id then Ok(0)
    else
      match GetPlayer(ps[1..], id)
      case Ok(k) =>
        assert IsFirstWithId(ps, id, k + 1) by {
          forall j | 0 <= j < k + 1 ensures ps[j].id != id {
            if j > 0 {
              assert ps[j] == ps[1..][j - 1];
            }
          }
        }
        Ok(k + 1)
      case Err(e) =>
        assert forall k :: 0 <= k < |ps| ==> ps[k].id != id by {
          forall k | 0 <= k < |ps| ensures ps[k].id != id {
            if k > 0 {
              assert ps[k] == ps[1..][k - 1];
            }
          }
        }
        Err(e)
  }

  /** Only the ids matter to the lookup: changing statuses does not move anybody. */
  lemma GetPlayerByIds(ps: seq<Player>, qs: seq<Player>, id: string)
    requires |ps| == |qs| && forall k :: 0 <= k < |ps| ==> ps[k].id == qs[k].id
    ensures GetPlayer(ps, id) == GetPlayer(qs, id)
  {
    var a, b := GetPlayer(ps, id), GetPlayer(qs, id);
    if a.Ok? && b.Ok? {
      assert !(a.value < b.value) && !(b.value < a.value);
    }
  }

  /** `_ensure_alive`: refuses a dead player. */
  function EnsureAlive(p: Player): (r: Option<EngineError>)
    ensures r.None? <==> p.status == Alive
    ensures r.Some? ==> r.value == GameStateError(LivingOnly)
  {
    if p.status != Alive then Some(GameStateError(LivingOnly)) else None
  }

  /** `_get_player` followed by `_ensure_alive`: the position of a living target. */
  function LivingTarget(ps: seq<Player>, id: string): (r: Result<nat, EngineError>)
    ensures r.Ok? <==> exists k :: IsFirstWithId(ps, id, k) && ps[k].status == Alive
    ensures r.Ok? ==> IsFirstWithId(ps, id, r.value) && ps[r.value].status == Alive
    ensures r.Err? ==> r.error == if forall k :: 0 <= k < |ps| ==> ps[k].id != id
                                  then GameStateError(PlayerNotFound)
                                  else GameStateError(LivingOnly)
  {
    match GetPlayer(ps, id)
    case Err(e) => Err(e)
    case Ok(k) =>
      match EnsureAlive(ps[k])
      case Some(e) => Err(e)
      case None => Ok(k)
  }

  /** Things no engine operation ever does: change the code, the history or the chat,
      add, drop or rename players, or give back a used potion. Outside the lobby roles stay
      put and the dead stay dead. */
  ghost predicate Evolves(before: GameDoc, after: GameDoc)
  {
    && after.code == before.code
    && after.history == before.history
    && after.chatHistory == before.chatHistory
    && |after.players| == |before.players|
    && (forall k :: 0 <= k < |before.players| ==>
          after.players[k].id == before.players[k].id && after.players[k].name == before.players[k].name)
    && (before.potions.healUsed ==> after.potions.healUsed)
    && (before.potions.poisonUsed ==> after.potions.poisonUsed)
    && (before.phase != Lobby ==> forall k :: 0 <= k < |before.players| ==>
          after.players[k].role == before.players[k].role
          && (before.players[k].status == Dead ==> after.players[k].status == Dead))
  }

  /** Players with the roles the mapping gives them, all alive. */
  function WithRoles(ps: seq<Player>, m: map<PlayerId, Role>): (r: seq<Player>)
    requires forall k :: 0 <= k < |ps| ==> ps[k].id in m
    ensures |r| == |ps|
    ensures forall k :: 0 <= k < |ps| ==> r[k] == ps[k].(role := m[ps[k].id], status := Alive)
  {
    if ps == [] then [] else [ps[0].(role := m[ps[0].id], status := Alive)] + WithRoles(ps[1..], m)
  }

  /** Every player's id gets a role from the role assignment. */
  lemma DealtIdsCovered(ps: seq<Player>, draw: Roles.DrawSource, seed: Option<int>)
    requires |ps| >= 5
    ensures forall k :: 0 <= k < |ps| ==> ps[k].id in Roles.Assignment(Ids(ps), draw, seed)
  {
    var ids := Ids(ps);
    Roles.AssignmentKeys(ids, draw, seed);
    forall k | 0 <= k < |ps| ensures ps[k].id in Roles.Assignment(ids, draw, seed) {
      assert ids[k] in ids;
    }
  }

  /** The players once `assign_roles` has dealt the roles. */
  function Dealt(ps: seq<Player>, draw: Roles.DrawSource, seed: Option<int>): (r: seq<Player>)
    requires |ps| >= 5
    ensures |r| == |ps|
    ensures forall k :: 0 <= k < |ps| ==> r[k].id == ps[k].id && r[k].name == ps[k].name && r[k].status == Alive
  {
    DealtIdsCovered(ps, draw, seed);
    WithRoles(ps, Roles.Assignment(Ids(ps), draw, seed))
  }

  /** What `assign_roles` leaves behind and returns. Only in the lobby; below five players
      the role distribution's error goes through; otherwise every player takes the role the
      role assignment gives its id and is alive, and the first night starts. */
  function AssignRolesOutcome(d: GameDoc, draw: Roles.DrawSource, seed: Option<int>): (r: (GameDoc, Result<map<PlayerId, Role>, EngineError>))
    ensures d.phase != Lobby ==> r.1 == Err(GameStateError(LobbyOnly))
    ensures d.phase == Lobby && |d.players| < 5 ==> r.1 == Err(ValueError(Roles.TooFewToStart))
    ensures r.1.Err? ==> r.0 == d
    ensures r.1.Ok? ==> && d.phase == Lobby && |d.players| >= 5
                        && r.1.value == Roles.Assignment(Ids(d.players), draw, seed)
                        && (forall x :: x in r.1.value <==> x in Ids(d.players))
                        && r.0 == d.(phase := NightSeer, players := Dealt(d.players, draw, seed))
    ensures Evolves(d, r.0)
  {
    if d.phase != Lobby then (d, Err(GameStateError(LobbyOnly)))
    else if |d.players| < 5 then (d, Err(ValueError(Roles.TooFewToStart)))
    else
      Roles.AssignmentKeys(Ids(d.players), draw, seed);
      (d.(phase := NightSeer, players := Dealt(d.players, draw, seed)), Ok(Roles.Assignment(Ids(d.players), draw, seed)))
  }

  /** `assign_roles`, updating the game in place. */
  method AssignRoles(g: Game, draw: Roles.DrawSource, seed: Option<int>) returns (r: Result<map<PlayerId, Role>, EngineError>)
    modifies g
    ensures (g.Doc(), r) == AssignRolesOutcome(old(g.Doc()), draw, seed)
  {
    if g.phase != Lobby {
      return Err(GameStateError(LobbyOnly));
    }
    var ids := Ids(g.players);
    var assignments := Roles.AssignRoles(ids, draw, seed);
    if assignments.Err? {
      return Err(ValueError(assignments.error));
    }
    var m: map<PlayerId, Role> := assignments.value;
    assert forall k :: 0 <= k < |g.players| ==> g.players[k].id in m by {
      forall k | 0 <= k < |g.players| ensures g.players[k].id in m {
        assert ids[k] in ids;
      }
    }
    var players := SetRoles(g.players, m);
    g.players := players;
    g.phase := NightSeer;
    r := Ok(m);
  }

  /** The loop of `assign_roles`: each player in turn takes its role and becomes alive. */
  method SetRoles(ps: seq<Player>, m: map<PlayerId, Role>) returns (players: seq<Player>)
    requires forall k :: 0 <= k < |ps| ==> ps[k].id in m
    ensures players == WithRoles(ps, m)
  {
    players := ps;
    var i := 0;
    while i < |players|
      invariant 0 <= i <= |players| == |ps|
      invariant forall k :: 0 <= k < i ==> players[k] == ps[k].(role := m[ps[k].id], status := Alive)
      invariant forall k :: i <= k < |players| ==> players[k] == ps[k]
    {
      players := players[i := players[i].(role := m[players[i].id], status := Alive)];
      i := i + 1;
    }
  }

  /** What `seer_peek` leaves behind and returns: only in the seer's turn and on a living
      player, the seer learns the target's role and the wolves' turn starts. Nothing else
      changes, and a refusal changes nothing. */
  function SeerPeekOutcome(d: GameDoc, target: PlayerId): (r: (GameDoc, Result<Role, EngineError>))
    ensures d.phase != NightSeer ==> r.1 == Err(GameStateError(SeerTurnOnly))
    ensures d.phase == NightSeer ==> (r.1.Err? <==> LivingTarget(d.players, target).Err?)
    ensures d.phase == NightSeer && r.1.Err? ==> r.1.error == LivingTarget(d.players, target).error
    ensures r.1.Err? ==> r.0 == d
    ensures r.1.Ok? ==> exists k :: IsFirstWithId(d.players, target, k) && d.players[k].status == Alive && r.1.value == d.players[k].role
    ensures r.1.Ok? ==> r.0 == d.(phase := NightWolves)
    ensures Evolves(d, r.0)
  {
    if d.phase != NightSeer then (d, Err(GameStateError(SeerTurnOnly)))
    else
      match LivingTarget(d.players, target)
      case Err(e) => (d, Err(e))
      case Ok(k) => (d.(phase := NightWolves), Ok(d.players[k].role))
  }

  /** `seer_peek`, updating the game in place. */
  method SeerPeek(g: Game, target: PlayerId) returns (r: Result<Role, EngineError>)
    modifies g
    ensures (g.Doc(), r) == SeerPeekOutcome(old(g.Doc()), target)
  {
    if g.phase != NightSeer {
      return Err(GameStateError(SeerTurnOnly));
    }
    var t := LivingTarget(g.players, target);
    if t.Err? {
      return Err(t.error);
    }
    g.phase := NightWolves;
    r := Ok(g.players[t.value].role);
  }

  /** What `wolves_vote` leaves behind and returns: only in the wolves' turn and on a living
      player, the target becomes the pending kill and the witch's turn starts. Nobody dies
      yet, and a refusal changes nothing. */
  function WolvesVoteOutcome(d: GameDoc, target: PlayerId): (r: (GameDoc, Result<PlayerId, EngineError>))
    ensures d.phase != NightWolves ==> r.1 == Err(GameStateError(WolvesTurnOnly))
    ensures d.phase == NightWolves ==> (r.1.Err? <==> LivingTarget(d.players, target).Err?)
    ensures d.phase == NightWolves && r.1.Err? ==> r.1.error == LivingTarget(d.players, target).error
    ensures r.1.Err? ==> r.0 == d
    ensures r.1.Ok? ==> r.1.value == target && r.0 == d.(lastKilled := Some(target), phase := NightWitch)
    ensures Evolves(d, r.0)
  {
    if d.phase != NightWolves then (d, Err(GameStateError(WolvesTurnOnly)))
    else
      match LivingTarget(d.players, target)
      case Err(e) => (d, Err(e))
      case Ok(k) => (d.(lastKilled := Some(d.players[k].id), phase := NightWitch), Ok(d.players[k].id))
  }

  /** `wolves_vote`, updating the game in place. */
  method WolvesVote(g: Game, target: PlayerId) returns (r: Result<PlayerId, EngineError>)
    modifies g
    ensures (g.Doc(), r) == WolvesVoteOutcome(old(g.Doc()), target)
  {
    if g.phase != NightWolves {
      return Err(GameStateError(WolvesTurnOnly));
    }
    var t := LivingTarget(g.players, target);
    if t.Err? {
      return Err(t.error);
    }
    g.lastKilled := Some(g.players[t.value].id);
    g.phase := NightWitch;
    r := Ok(g.players[t.value].id);
  }

  /** The heal is accepted: witch's turn, potion unused and a kill pending. */
  predicate HealAccepted(d: GameDoc, heal: bool)
  {
    d.phase == NightWitch && heal && !d.potions.healUsed && d.lastKilled.Some?
  }

  /** The pending kill still standing once the heal is taken into account. */
  function UnhealedKill(d: GameDoc, heal: bool): Option<PlayerId>
  {
    if heal then None else d.lastKilled
  }

  /** The poison is accepted: the heal part went through, the potion is unused, the target
      is a living player and it is not the unhealed pending kill. */
  predicate PoisonAccepted(d: GameDoc, heal: bool, poison: Option<PlayerId>)
  {
    && d.phase == NightWitch
    && (heal ==> HealAccepted(d, heal))
    && poison.Some?
    && !d.potions.poisonUsed
    && LivingTarget(d.players, poison.value).Ok?
    && poison != UnhealedKill(d, heal)
  }

  /** Why `witch_action` refuses, checked in the order the operation checks: the turn, the
      heal potion, the pending kill, the poison potion, the poison target, a target equal to
      the unhealed kill, and finally an unhealed kill whose player is gone. */
  function WitchRefusal(d: GameDoc, heal: bool, poison: Option<PlayerId>): Option<EngineError>
  {
    if d.phase != NightWitch then Some(GameStateError(WitchTurnOnly))
    else if heal && d.potions.healUsed then Some(GameStateError(HealSpent))
    else if heal && d.lastKilled.None? then Some(GameStateError(NobodyToSave))
    else if poison.Some? && d.potions.poisonUsed then Some(GameStateError(PoisonSpent))
    else if poison.Some? && LivingTarget(d.players, poison.value).Err? then Some(LivingTarget(d.players, poison.value).error)
    else if poison.Some? && poison == UnhealedKill(d, heal) then Some(GameStateError(TargetAlreadyChosen))
    else if UnhealedKill(d, heal).Some? && GetPlayer(d.players, UnhealedKill(d, heal).value).Err? then Some(GameStateError(PlayerNotFound))
    else None
  }

  /** Whether player `k` is dead after a `witch_action` that ended with `ok`: it was dead
      already, it is the first player with the accepted poison target's id, or the
      operation went through and it is the first player with the unhealed kill's id. */
  predicate DiesAt(d: GameDoc, heal: bool, poison: Option<PlayerId>, ok: bool, k: int)
  {
    && 0 <= k < |d.players|
    && (|| d.players[k].status == Dead
        || (PoisonAccepted(d, heal, poison) && IsFirstWithId(d.players, poison.value, k))
        || (ok && UnhealedKill(d, heal).Some? && IsFirstWithId(d.players, UnhealedKill(d, heal).value, k)))
  }

  /** `player.status = "dead"` for the player at position `k`. */
  function Kill(ps: seq<Player>, k: nat): seq<Player>
    requires k < |ps|
  {
    ps[k := ps[k].(status := Dead)]
  }

  /** `_get_player(game, id).status = "dead"`. */
  function KillById(ps: seq<Player>, id: string): Result<seq<Player>, EngineError>
  {
    match GetPlayer(ps, id)
    case Err(e) => Err(e)
    case Ok(k) => Ok(Kill(ps, k))
  }

  /** The heal step of `witch_action`. */
  function HealStep(d: GameDoc, heal: bool): Result<GameDoc, EngineError>
  {
    if !heal then Ok(d)
    else if d.potions.healUsed then Err(GameStateError(HealSpent))
    else if d.lastKilled.None? then Err(GameStateError(NobodyToSave))
    else Ok(d.(lastKilled := None, potions := d.potions.(healUsed := true)))
  }

  /** The poison step of `witch_action`, given the kill still standing. */
  function PoisonStep(d: GameDoc, poison: Option<PlayerId>, killed: Option<PlayerId>): Result<GameDoc, EngineError>
  {
    if poison.None? then Ok(d)
    else if d.potions.poisonUsed then Err(GameStateError(PoisonSpent))
    else
      match LivingTarget(d.players, poison.value)
      case Err(e) => Err(e)
      case Ok(k) =>
        if poison == killed then Err(GameStateError(TargetAlreadyChosen))
        else Ok(d.(players := Kill(d.players, k), potions := d.potions.(poisonUsed := true)))
  }

  /** What `witch_action` leaves behind and reports, step by step as it runs: the turn
      check, the heal, the poison, the death of the reported kill, the death of the pending
      kill, then the day. A step that refuses keeps whatever the earlier steps did. */
  function WitchOutcome(d: GameDoc, heal: bool, poison: Option<PlayerId>): (GameDoc, Result<Option<PlayerId>, EngineError>)
  {
    if d.phase != NightWitch then (d, Err(GameStateError(WitchTurnOnly)))
    else
      match HealStep(d, heal)
      case Err(e) => (d, Err(e))
      case Ok(healed) =>
        match PoisonStep(healed, poison, UnhealedKill(d, heal))
        case Err(e) => (healed, Err(e))
        case Ok(poisoned) =>
          var killed := if poison.Some? then poison else UnhealedKill(d, heal);
          match (if killed.Some? then KillById(poisoned.players, killed.value) else Ok(poisoned.players))
          case Err(e) => (poisoned, Err(e))
          case Ok(ps) =>
            match (if poisoned.lastKilled.Some? then KillById(ps, poisoned.lastKilled.value) else Ok(ps))
            case Err(e) => (poisoned.(players := ps), Err(e))
            case Ok(ps') => (poisoned.(players := ps', lastKilled := None, phase := Day), Ok(killed))
  }

  /** `witch_action`, updating the game in place step by step; the new state and the result
      are `WitchOutcome`'s. */
  method WitchAction(g: Game, heal: bool, poison: Option<PlayerId>) returns (r: Result<Option<PlayerId>, EngineError>)
    modifies g
    ensures (g.Doc(), r) == WitchOutcome(old(g.Doc()), heal, poison)
  {
    ghost var d := g.Doc();
    if g.phase != NightWitch {
      return Err(GameStateError(WitchTurnOnly));
    }
    var killed := g.lastKilled;
    if heal {
      if g.potions.healUsed {
        return Err(GameStateError(HealSpent));
      }
      if g.lastKilled.None? {
        return Err(GameStateError(NobodyToSave));
      }
      g.lastKilled := None;
      g.potions := g.potions.(healUsed := true);
      killed := None;
    }
    assert g.Doc() == HealStep(d, heal).value;
    ghost var healed := g.Doc();
    if poison.Some? {
      if g.potions.poisonUsed {
        return Err(GameStateError(PoisonSpent));
      }
      var t := LivingTarget(g.players, poison.value);
      if t.Err? {
        return Err(t.error);
      }
      if poison == killed {
        return Err(GameStateError(TargetAlreadyChosen));
      }
      g.players := g.players[t.value := g.players[t.value].(status := Dead)];
      killed := poison;
      g.potions := g.potions.(poisonUsed := true);
    }
    assert g.Doc() == PoisonStep(healed, poison, UnhealedKill(d, heal)).value;
    if killed.Some? {
      var v := GetPlayer(g.players, killed.value);
      if v.Err? {
        return Err(v.error);
      }
      g.players := g.players[v.value := g.players[v.value].(status := Dead)];
    }
    if g.lastKilled.Some? {
      var v := GetPlayer(g.players, g.lastKilled.value);
      if v.Err? {
        return Err(v.error);
      }
      g.players := g.players[v.value := g.players[v.value].(status := Dead)];
    }
    g.lastKilled := None;
    g.phase := Day;
    r := Ok(killed);
  }

  /** `witch_action` refuses exactly for the reasons `WitchRefusal` lists, in its order. */
  lemma WitchRefusesExactly(d: GameDoc, heal: bool, poison: Option<PlayerId>)
    ensures WitchOutcome(d, heal, poison).1.Err? <==> WitchRefusal(d, heal, poison).Some?
    ensures WitchOutcome(d, heal, poison).1.Err? ==> WitchOutcome(d, heal, poison).1.error == WitchRefusal(d, heal, poison).value
  {
    if d.phase == NightWitch && HealStep(d, heal).Ok? {
      var healed := HealStep(d, heal).value;
      if PoisonStep(healed, poison, UnhealedKill(d, heal)).Ok? {
        var poisoned := PoisonStep(healed, poison, UnhealedKill(d, heal)).value;
        GetPlayerByIds(poisoned.players, d.players, if poison.Some? then poison.value else "");
        var killed := if poison.Some? then poison else UnhealedKill(d, heal);
        if killed.Some? && KillById(poisoned.players, killed.value).Ok? {
          var ps := KillById(poisoned.players, killed.value).value;
          GetPlayerByIds(ps, d.players, if d.lastKilled.Some? then d.lastKilled.value else "");
        }
        if killed.None? {
          GetPlayerByIds(poisoned.players, d.players, if d.lastKilled.Some? then d.lastKilled.value else "");
        }
      }
    }
  }

  /** Killing by id kills the first player with that id and nobody else. */
  lemma KillByIdEffect(ps: seq<Player>, id: string)
    requires KillById(ps, id).Ok?
    ensures |KillById(ps, id).value| == |ps|
    ensures forall k :: 0 <= k < |ps| ==>
              KillById(ps, id).value[k] == (if IsFirstWithId(ps, id, k) then ps[k].(status := Dead) else ps[k])
  {
    var j := GetPlayer(ps, id).value;
    forall k | 0 <= k < |ps| && IsFirstWithId(ps, id, k) ensures k == j {
      assert !(k < j) && !(j < k);
    }
  }

  /** What `witch_action` does to the potions, the pending kill and the phase: a potion is
      spent exactly when its part was accepted, even if a later check refuses; on success the
      day starts with no pending kill and the reported kill is the poison target, or else the
      unhealed pending kill; on refusal the phase stays and only an accepted heal has
      cleared the pending kill. */
  lemma WitchOutcomeState(d: GameDoc, heal: bool, poison: Option<PlayerId>)
    ensures WitchOutcome(d, heal, poison).0.potions
            == PotionState(d.potions.healUsed || HealAccepted(d, heal), d.potions.poisonUsed || PoisonAccepted(d, heal, poison))
    ensures WitchOutcome(d, heal, poison).1.Ok? ==>
              && WitchOutcome(d, heal, poison).0.phase == Day
              && WitchOutcome(d, heal, poison).0.lastKilled == None
              && WitchOutcome(d, heal, poison).1.value == (if poison.Some? then poison else UnhealedKill(d, heal))
    ensures WitchOutcome(d, heal, poison).1.Err? ==>
              && WitchOutcome(d, heal, poison).0.phase == d.phase
              && WitchOutcome(d, heal, poison).0.lastKilled == (if HealAccepted(d, heal) then None else d.lastKilled)
  {
  }

  /** Who is dead after `witch_action`: exactly the players `DiesAt` names. Nobody else
      changes, and no player is added, dropped, renamed or given another role. */
  lemma WitchOutcomeStatuses(d: GameDoc, heal: bool, poison: Option<PlayerId>)
    ensures |WitchOutcome(d, heal, poison).0.players| == |d.players|
    ensures forall k :: 0 <= k < |d.players| ==>
              && WitchOutcome(d, heal, poison).0.players[k] == d.players[k].(status := WitchOutcome(d, heal, poison).0.players[k].status)
              && (WitchOutcome(d, heal, poison).0.players[k].status == Dead <==> DiesAt(d, heal, poison, WitchOutcome(d, heal, poison).1.Ok?, k))
  {
    WitchLength(d, heal, poison);
    forall k | 0 <= k < |d.players|
      ensures && WitchOutcome(d, heal, poison).0.players[k] == d.players[k].(status := WitchOutcome(d, heal, poison).0.players[k].status)
              && (WitchOutcome(d, heal, poison).0.players[k].status == Dead <==> DiesAt(d, heal, poison, WitchOutcome(d, heal, poison).1.Ok?, k))
    {
      WitchStatusAt(d, heal, poison, k);
    }
  }

  /** `witch_action` neither adds nor drops players. */
  lemma WitchLength(d: GameDoc, heal: bool, poison: Option<PlayerId>)
    ensures |WitchOutcome(d, heal, poison).0.players| == |d.players|
  {
  }

  /** `WitchOutcomeStatuses` at one position. */
  lemma WitchStatusAt(d: GameDoc, heal: bool, poison: Option<PlayerId>, k: nat)
    requires k < |d.players|
    ensures |WitchOutcome(d, heal, poison).0.players| == |d.players|
    ensures WitchOutcome(d, heal, poison).0.players[k] == d.players[k].(status := WitchOutcome(d, heal, poison).0.players[k].status)
    ensures WitchOutcome(d, heal, poison).0.players[k].status == Dead <==> DiesAt(d, heal, poison, WitchOutcome(d, heal, poison).1.Ok?, k)
  {
    WitchLength(d, heal, poison);
    if d.phase != NightWitch || HealStep(d, heal).Err? {
      assert !PoisonAccepted(d, heal, poison);
    } else if PoisonStep(HealStep(d, heal).value, poison, UnhealedKill(d, heal)).Err? {
      assert !PoisonAccepted(d, heal, poison);
    } else if poison.Some? {
      WitchStatusPoisoned(d, heal, poison.value, k);
    } else {
      WitchStatusUnpoisoned(d, heal, k);
    }
  }

  /** The position-wise statuses when the poison on `target` is accepted. */
  lemma WitchStatusPoisoned(d: GameDoc, heal: bool, target: PlayerId, k: nat)
    requires k < |d.players| && d.phase == NightWitch && HealStep(d, heal).Ok?
    requires PoisonStep(HealStep(d, heal).value, Some(target), UnhealedKill(d, heal)).Ok?
    ensures |WitchOutcome(d, heal, Some(target)).0.players| == |d.players|
    ensures WitchOutcome(d, heal, Some(target)).0.players[k] == d.players[k].(status := WitchOutcome(d, heal, Some(target)).0.players[k].status)
    ensures WitchOutcome(d, heal, Some(target)).0.players[k].status == Dead <==> DiesAt(d, heal, Some(target), WitchOutcome(d, heal, Some(target)).1.Ok?, k)
  {
    WitchLength(d, heal, Some(target));
    var unhealed := UnhealedKill(d, heal);
    var t := LivingTarget(d.players, target).value;
    assert PoisonAccepted(d, heal, Some(target));
    FirstWithIdAt(d.players, target, k);
    FirstWithIdAt(d.players, target, t);
    var poisoned := PoisonStep(HealStep(d, heal).value, Some(target), unhealed).value;
    assert poisoned.players == Kill(d.players, t) && poisoned.lastKilled == unhealed;
    GetPlayerByIds(poisoned.players, d.players, target);
    var ps := KillById(poisoned.players, target).value;
    assert ps == poisoned.players;
    if unhealed.Some? {
      FirstWithIdAt(d.players, unhealed.value, k);
      GetPlayerByIds(ps, d.players, unhealed.value);
    }
  }

  /** The position-wise statuses when no poison is given. */
  lemma WitchStatusUnpoisoned(d: GameDoc, heal: bool, k: nat)
    requires k < |d.players| && d.phase == NightWitch && HealStep(d, heal).Ok?
    ensures |WitchOutcome(d, heal, None).0.players| == |d.players|
    ensures WitchOutcome(d, heal, None).0.players[k] == d.players[k].(status := WitchOutcome(d, heal, None).0.players[k].status)
    ensures WitchOutcome(d, heal, None).0.players[k].status == Dead <==> DiesAt(d, heal, None, WitchOutcome(d, heal, None).1.Ok?, k)
  {
    WitchLength(d, heal, None);
    var unhealed := UnhealedKill(d, heal);
    var poisoned := HealStep(d, heal).value;
    assert PoisonStep(poisoned, None, unhealed) == Ok(poisoned);
    assert poisoned.players == d.players && poisoned.lastKilled == unhealed;
    if unhealed.Some? {
      FirstWithIdAt(d.players, unhealed.value, k);
      if GetPlayer(d.players, unhealed.value).Ok? {
        var j := GetPlayer(d.players, unhealed.value).value;
        var ps := Kill(d.players, j);
        assert KillById(d.players, unhealed.value) == Ok(ps);
        GetPlayerByIds(ps, d.players, unhealed.value);
        assert ps[j].(status := Dead) == ps[j];
        assert Kill(ps, j) == ps;
      }
    }
  }

  /** `k` is the first position holding `id` exactly when `_get_player` finds it there. */
  lemma FirstWithIdAt(ps: seq<Player>, id: string, k: nat)
    requires k < |ps|
    ensures IsFirstWithId(ps, id, k) <==> GetPlayer(ps, id) == Ok(k)
  {
    if GetPlayer(ps, id).Ok? && IsFirstWithId(ps, id, k) {
      var j := GetPlayer(ps, id).value;
      assert !(k < j) && !(j < k);
    }
  }

  /** `witch_action` changes neither the code, nor the history, nor the chat. */
  lemma WitchKeepsRecord(d: GameDoc, heal: bool, poison: Option<PlayerId>)
    ensures WitchOutcome(d, heal, poison).0.code == d.code
    ensures WitchOutcome(d, heal, poison).0.history == d.history
    ensures WitchOutcome(d, heal, poison).0.chatHistory == d.chatHistory
  {
    if d.phase == NightWitch && HealStep(d, heal).Ok? {
      var healed := HealStep(d, heal).value;
      assert healed.code == d.code && healed.history == d.history && healed.chatHistory == d.chatHistory;
      if PoisonStep(healed, poison, UnhealedKill(d, heal)).Ok? {
        var poisoned := PoisonStep(healed, poison, UnhealedKill(d, heal)).value;
        assert poisoned.code == d.code && poisoned.history == d.history && poisoned.chatHistory == d.chatHistory;
      }
    }
  }

  /** `witch_action` keeps the invariants every engine operation keeps. */
  lemma WitchEvolves(d: GameDoc, heal: bool, poison: Option<PlayerId>)
    ensures Evolves(d, WitchOutcome(d, heal, poison).0)
  {
    var e := WitchOutcome(d, heal, poison).0;
    WitchOutcomeState(d, heal, poison);
    WitchLength(d, heal, poison);
    WitchKeepsRecord(d, heal, poison);
    forall k | 0 <= k < |d.players|
      ensures && e.players[k].id == d.players[k].id && e.players[k].name == d.players[k].name
              && e.players[k].role == d.players[k].role
              && (d.players[k].status == Dead ==> e.players[k].status == Dead)
    {
      WitchStatusAt(d, heal, poison, k);
    }
  }

  /** Without a heal, a poison on another living player kills both the poison target and
      the wolves' victim, and the poison target is the kill reported. */
  lemma WitchPoisonAndWolvesBothKill(d: GameDoc, victim: PlayerId, target: PlayerId)
    requires d.phase == NightWitch && !d.potions.poisonUsed && d.lastKilled == Some(victim)
    requires target != victim && LivingTarget(d.players, target).Ok? && GetPlayer(d.players, victim).Ok?
    ensures WitchOutcome(d, false, Some(target)).1 == Ok(Some(target))
    ensures WitchOutcome(d, false, Some(target)).0.players[LivingTarget(d.players, target).value].status == Dead
    ensures WitchOutcome(d, false, Some(target)).0.players[GetPlayer(d.players, victim).value].status == Dead
  {
    WitchRefusesExactly(d, false, Some(target));
    WitchOutcomeState(d, false, Some(target));
    WitchOutcomeStatuses(d, false, Some(target));
    assert DiesAt(d, false, Some(target), true, GetPlayer(d.players, victim).value);
    assert DiesAt(d, false, Some(target), true, LivingTarget(d.players, target).value);
  }

  /** The wolves' victim, once healed, may still be poisoned in the same call: it dies, both
      potions are spent and it is the kill reported. */
  lemma WitchHealThenPoisonVictim(d: GameDoc, victim: PlayerId)
    requires d.phase == NightWitch && !d.potions.healUsed && !d.potions.poisonUsed && d.lastKilled == Some(victim)
    requires LivingTarget(d.players, victim).Ok?
    ensures WitchOutcome(d, true, Some(victim)).1 == Ok(Some(victim))
    ensures WitchOutcome(d, true, Some(victim)).0.players[LivingTarget(d.players, victim).value].status == Dead
    ensures WitchOutcome(d, true, Some(victim)).0.potions == PotionState(true, true)
  {
    WitchRefusesExactly(d, true, Some(victim));
    WitchOutcomeState(d, true, Some(victim));
    WitchOutcomeStatuses(d, true, Some(victim));
    assert PoisonAccepted(d, true, Some(victim));
    assert DiesAt(d, true, Some(victim), true, LivingTarget(d.players, victim).value);
  }

  /** A heal with a refused poison is still spent: the pending kill is cleared and the
      witch's turn goes on. */
  lemma WitchRefusedPoisonKeepsHeal(d: GameDoc, poison: PlayerId)
    requires HealAccepted(d, true) && d.potions.poisonUsed
    ensures WitchOutcome(d, true, Some(poison)).1 == Err(GameStateError(PoisonSpent))
    ensures WitchOutcome(d, true, Some(poison)).0 == d.(lastKilled := None, potions := d.potions.(healUsed := true))
  {
  }

  /** What `start_next_night` leaves behind: only from the day, the seer's turn starts. */
  function StartNightOutcome(d: GameDoc): (r: (GameDoc, Result<(), EngineError>))
    ensures r.1.Err? <==> d.phase != Day
    ensures r.1.Err? ==> r.1.error == GameStateError(DayOnly) && r.0 == d
    ensures r.1.Ok? ==> r.0 == d.(phase := NightSeer)
    ensures Evolves(d, r.0)
  {
    if d.phase != Day then (d, Err(GameStateError(DayOnly)))
    else (d.(phase := NightSeer), Ok(()))
  }

  /** `start_next_night`, updating the game in place. */
  method StartNextNight(g: Game) returns (r: Result<(), EngineError>)
    modifies g
    ensures (g.Doc(), r) == StartNightOutcome(old(g.Doc()))
  {
    if g.phase != Day {
      return Err(GameStateError(DayOnly));
    }
    g.phase := NightSeer;
    r := Ok(());
  }

  /** `is_game_over`: the village wins when no wolf is alive, the wolves win when living
      wolves are at least as many as the other living players (a tie goes to the wolves),
      and otherwise the game goes on. */
  function IsGameOver(ps: seq<Player>): (r: (bool, Option<string>))
    ensures var wolves := CountWolves(AlivePlayers(ps));
            var others := |AlivePlayers(ps)| - wolves;
            && (r == (true, Some("village")) <==> wolves == 0)
            && (r == (true, Some("wolves")) <==> wolves > 0 && wolves >= others)
            && (r == (false, None) <==> wolves > 0 && wolves < others)
  {
    var alive := AlivePlayers(ps);
    var wolves := Wolves(alive);
    var villagers := NonWolves(alive);
    WolfSplit(alive);
    if |wolves| == 0 then (true, Some("village"))
    else if |wolves| >= |villagers| then (true, Some("wolves"))
    else (false, None)
  }

  /** `living_roles_summary`: living wolves and living non-wolves, which together are all
      the living players. */
  function LivingRolesSummary(ps: seq<Player>): (r: (nat, nat))
    ensures r.0 == CountWolves(AlivePlayers(ps))
    ensures r.1 == |NonWolves(AlivePlayers(ps))|
    ensures r.0 + r.1 == |AlivePlayers(ps)|
  {
    var wolves := CountWolves(AlivePlayers(ps));
    WolfSplit(AlivePlayers(ps));
    (wolves, |AlivePlayers(ps)| - wolves)
  }

  /** Players dealt roles with one seer, a witch from six players on, `WolfCount` wolves
      and villagers for the rest are all alive, hold exactly those counts, and the game is
      not over: wolves are always fewer than the others. */
  lemma {:induction false} DealtRolesNotOver(ps: seq<Player>, m: map<PlayerId, Role>)
    requires |ps| >= 5
    requires forall k :: 0 <= k < |ps| ==> ps[k].id in m
    requires var roles := multiset(Roles.Lookup(m, Ids(ps)));
             && roles[Seer] == 1
             && roles[Witch] == (if |ps| >= 6 then 1 else 0)
             && roles[Wolf] == Roles.WolfCount(|ps|)
             && roles[Villager] == |ps| - 1 - roles[Witch] - roles[Wolf]
    ensures AlivePlayers(WithRoles(ps, m)) == WithRoles(ps, m)
    ensures CountRole(WithRoles(ps, m), Seer) == 1
    ensures CountRole(WithRoles(ps, m), Witch) == (if |ps| >= 6 then 1 else 0)
    ensures CountRole(WithRoles(ps, m), Wolf) == Roles.WolfCount(|ps|)
    ensures CountRole(WithRoles(ps, m), Villager) == |ps| - 1 - (if |ps| >= 6 then 1 else 0) - Roles.WolfCount(|ps|)
    ensures IsGameOver(WithRoles(ps, m)) == (false, None)
  {
    DealtRolesInOrder(ps, m);
    var after := WithRoles(ps, m);
    assert CountWolves(AlivePlayers(after)) == Roles.WolfCount(|ps|);
    assert |AlivePlayers(after)| - Roles.WolfCount(|ps|) > Roles.WolfCount(|ps|);
  }

  /** Dealing keeps everybody alive and hands out the roles in the players' order. */
  lemma DealtRolesInOrder(ps: seq<Player>, m: map<PlayerId, Role>)
    requires forall k :: 0 <= k < |ps| ==> ps[k].id in m
    ensures AlivePlayers(WithRoles(ps, m)) == WithRoles(ps, m)
    ensures RolesOf(WithRoles(ps, m)) == Roles.Lookup(m, Ids(ps))
  {
    AlivePlayersAllAlive(WithRoles(ps, m));
  }

  /** Right after roles are dealt to five or more players with distinct ids, the role counts
      are the distribution's and the game is not over. */
  lemma {:induction false} DealtGameNotOver(ps: seq<Player>, draw: Roles.DrawSource, seed: Option<int>)
    requires |ps| >= 5 && Roles.Distinct(Ids(ps))
    ensures CountRole(Dealt(ps, draw, seed), Seer) == 1
    ensures CountRole(Dealt(ps, draw, seed), Witch) == (if |ps| >= 6 then 1 else 0)
    ensures CountRole(Dealt(ps, draw, seed), Wolf) == Roles.WolfCount(|ps|)
    ensures CountRole(Dealt(ps, draw, seed), Villager) == |ps| - 1 - (if |ps| >= 6 then 1 else 0) - Roles.WolfCount(|ps|)
    ensures IsGameOver(Dealt(ps, draw, seed)) == (false, None)
  {
    var m := Roles.Assignment(Ids(ps), draw, seed);
    Roles.AssignmentQuotas(Ids(ps), draw, seed);
    DealtIdsCovered(ps, draw, seed);
    DealtRolesNotOver(ps, m);
  }
}
