/** The command dispatcher: the tools the assistant calls on behalf of the players, working
    on the request's `AgentContext` and the game store. Each tool is first described on
    values, as a function from the context's state and the stored games to the new state,
    the new store and the tool's outcome; the `AgentContext` class then carries the tools as
    methods over its fields and the `Store` object, each proved to do exactly what its
    function says. Role draws, game codes and player ids come in as parameters. */
module AgentRuntime {
  import opened Strings
  import opened Schemas
  import opened Utils
  import opened Store
  import GameEngine
  import Roles

  /** How a tool ends: its reply, an `AgentToolError` with its message, or an exception
      that the dispatcher does not catch (a duplicate code, a refused name). */
  datatype ToolOutcome = Done(message: string) | Refused(message: string) | Raised(message: string)

  /** The context's state a tool reads and writes: the bound code, the loaded game and the
      actions performed so far. */
  datatype Session = Session(gameCode: Option<string>, game: Option<GameDoc>, executed: seq<string>)

  /** A tool's effect: the new context state, the new store and the outcome. */
  datatype Step = Step(session: Session, games: map<string, GameDoc>, outcome: ToolOutcome)

  /** A code counts as bound when it is present and non-empty (Python truthiness). */
  predicate Bound(code: Option<string>)
  {
    code.Some? && code.value != ""
  }

  /** What `_ensure_game` accepts: a bound code and a loaded game. */
  predicate HasGame(s: Session)
  {
    Bound(s.gameCode) && s.game.Some?
  }

  /** The context agrees with the store: a loaded game is the one the bound code names, and
      the store holds that code. Loading the context from the store establishes it and every
      tool keeps it. */
  ghost predicate Coherent(s: Session, games: map<string, GameDoc>)
  {
    s.game.Some? ==> s.gameCode == Some(s.game.value.code) && s.game.value.code in games
  }

  /** `reload_game`: the stored game under the bound code, or nothing. */
  function Reloaded(s: Session, games: map<string, GameDoc>): (r: Session)
    ensures r.gameCode == s.gameCode && r.executed == s.executed
    ensures r.game.Some? <==> Bound(s.gameCode) && s.gameCode.value in games
    ensures r.game.Some? ==> r.game.value == games[s.gameCode.value]
    ensures Indexed(games) ==> Coherent(r, games)
  {
    s.(game := if Bound(s.gameCode) && s.gameCode.value in games then Some(games[s.gameCode.value]) else None)
  }

  const NoActiveGame: string := "Aucune partie active. Crée ou rejoins un salon d'abord."

  // Replies and refusals the tools give

  const InvalidJoinCode: string := "Le code salon fourni est invalide."
  const UnknownCode: string := "Aucune partie trouvée avec ce code."
  const NameMissing: string := "Indique un nom de joueur."
  const RemoveWhom: string := "Quel joueur veux-tu retirer ?"
  const NoPlayersYet: string := "Aucun joueur inscrit pour le moment."
  const PlayersListed: string := "Consultation de la liste des joueurs."
  const PlayersHeader: string := "Joueurs inscrits :\n"
  const TooFewPlayers: string := "Au moins 5 joueurs sont requis pour distribuer les rôles."
  const RolesDealt: string := "Les rôles sont distribués. La nuit commence."
  const WolvesBeforeSeer: string := "La Voyante doit d'abord jouer son tour. Demande à la Voyante de sonder un joueur."
  const WitchDone: string := "Action de la Sorcière appliquée."
  const DayBeforeWitch: string := "La fin de nuit ne peut être annoncée qu'après le tour de la Sorcière."
  const VillageWakes: string := "Le village se réveille."
  const NightFalls: string := "Une nouvelle nuit tombe sur le village."
  const StatusShown: string := "Statut de la partie consulté."
  const NotNight: string := "La séquence de nuit ne peut démarrer que pendant une phase de nuit."
  const SeerUsage: string := "Voyante, qui veux-tu sonder ? (Utilise : 'la voyante regarde [nom]')"
  const SeerGone: string := "\U{1F52E} La Voyante n'est plus parmi nous..."
  const WolvesUsage: string := "Loups, qui voulez-vous dévorer ? (Utilise : 'les loups attaquent [nom]')"
  const WolvesGone: string := "\U{1F43A} Les Loups-garous ont tous été éliminés..."

  function Created(code: string): string
  {
    "Partie créée avec le code " + code + "."
  }

  function Joined(code: string): string
  {
    "Salon " + code + " rejoint."
  }

  function AlreadyRegistered(name: string): string
  {
    name + " est déjà inscrit."
  }

  function JoinsGame(name: string): string
  {
    name + " rejoint la partie."
  }

  function NotRegistered(name: string): string
  {
    name + " n'est pas inscrit."
  }

  function RemovedFrom(name: string): string
  {
    name + " a été retiré du salon."
  }

  function NotAPlayer(name: string): string
  {
    name + " n'est pas un joueur valide."
  }

  function SeerLearns(name: string, role: string): string
  {
    "La Voyante découvre que " + name + " est " + role + "."
  }

  function NotFound(name: string): string
  {
    name + " est introuvable."
  }

  function AlreadyDead(name: string): string
  {
    name + " est déjà éliminé."
  }

  function WolvesTarget(name: string): string
  {
    "Les Loups ciblent " + name + "."
  }

  function NotWolvesTurn(phase: Phase): string
  {
    "Ce n'est pas le tour des Loups. Phase actuelle : " + PhaseName(phase) + ". Utilise 'run_night_sequence' pour voir qui doit jouer."
  }

  function SeerWakes(name: string): string
  {
    "\U{1F52E} La nuit commence. La Voyante (" + name + ") se réveille."
  }

  function WolvesWake(names: string): string
  {
    "\U{1F43A} Les Loups-garous (" + names + ") se réveillent."
  }

  /** A refusal: nothing changes. */
  function Refuse(s: Session, games: map<string, GameDoc>, message: string): Step
  {
    Step(s, games, Refused(message))
  }

  /** A reply that is also recorded among the executed actions. */
  function Succeed(s: Session, games: map<string, GameDoc>, message: string): Step
  {
    Step(s.(executed := s.executed + [message]), games, Done(message))
  }

  /** A `GameStateError` becomes the tool's refusal; any other engine error escapes. */
  function EngineRefusal(e: GameEngine.EngineError): ToolOutcome
  {
    match e
    case GameStateError(m) => Refused(m)
    case ValueError(m) => Raised(m)
  }

  /** `winner or "inconnu"`. */
  function WinnerText(winner: Option<string>): (t: string)
    ensures t != ""
  {
    if winner.Some? && winner.value != "" then winner.value else "inconnu"
  }

  /** The first player whose id is `id`. */
  function PlayerWithId(ps: seq<Player>, id: string): (r: Option<Player>)
    ensures r.None? <==> forall k :: 0 <= k < |ps| ==> ps[k].id != id
    ensures r.Some? ==> r.value in ps && r.value.id == id
  {
    if ps == [] then None
    else if ps[0].id == id then Some(ps[0])
    else PlayerWithId(ps[1..], id)
  }

  /** The first living player holding `role`. */
  function LivingWithRole(ps: seq<Player>, role: Role): (r: Option<Player>)
    ensures r.None? <==> forall k :: 0 <= k < |ps| ==> !(ps[k].role == role && ps[k].status == Alive)
    ensures r.Some? ==> r.value in ps && r.value.role == role && r.value.status == Alive
  {
    if ps == [] then None
    else if ps[0].role == role && ps[0].status == Alive then Some(ps[0])
    else LivingWithRole(ps[1..], role)
  }

  /** The names of the players, in order. */
  function Names(ps: seq<Player>): (r: seq<string>)
    ensures |r| == |ps| && forall k :: 0 <= k < |ps| ==> r[k] == ps[k].name
  {
    if ps == [] then [] else [ps[0].name] + Names(ps[1..])
  }

  /** The names of the players whose status is `status`, in order; none exactly when no
      player has that status. */
  function NamesWithStatus(ps: seq<Player>, status: Status): (r: seq<string>)
    ensures |r| <= |ps|
    ensures r == [] <==> forall k :: 0 <= k < |ps| ==> ps[k].status != status
  {
    if ps == [] then []
    else
      var rest := NamesWithStatus(ps[1..], status);
      assert forall k :: 1 <= k < |ps| ==> ps[k] == ps[1..][k - 1];
      (if ps[0].status == status then [ps[0].name] else []) + rest
  }

  // ---------------------------------------------------------------------------------------
  // _finalize_state

  /** `_finalize_state`: a game that is over and not yet ended is ended and a `game_over`
      event is logged; the in-memory game is then upserted, its code bound and the context
      reloaded. The upsert writes the whole in-memory game, history included, so the stored
      game ends up exactly the in-memory one: events logged to the store since the game was
      loaded, the `game_over` one included, are overwritten. */
  function Finalized(s: Session, games: map<string, GameDoc>): (r: (Session, map<string, GameDoc>))
    requires s.game.Some? && Indexed(games)
    ensures Indexed(r.1) && Coherent(r.0, r.1)
    ensures var g := s.game.value;
            && r.0.gameCode == Some(g.code) && r.0.executed == s.executed
            && r.1.Keys == games.Keys + {g.code}
            && r.1[g.code] == (if GameEngine.IsGameOver(g.players).0 then g.(phase := Ended) else g)
            && (forall c :: c in games && c != g.code ==> r.1[c] == games[c])
            && r.0.game == (if g.code != "" then Some(r.1[g.code]) else None)
  {
    var g := s.game.value;
    var over := GameEngine.IsGameOver(g.players);
    var ending := over.0 && g.phase != Ended;
    var g1 := if ending then g.(phase := Ended) else g;
    var logged := if ending then EventLogged(games, g.code, BuildEvent("game_over", [("winner", WinnerText(over.1))])) else games;
    var saved := Upserted(logged, g1);
    (Reloaded(s.(gameCode := Some(g.code)), saved), saved)
  }

  /** Finalizing twice is finalizing once: the second pass finds the game already ended (or
      still not over), logs nothing, and upserts what the store already holds. */
  lemma FinalizeIdempotent(s: Session, games: map<string, GameDoc>)
    requires s.game.Some? && s.game.value.code != "" && Indexed(games)
    ensures Finalized(s, games).0.game.Some?
    ensures Finalized(Finalized(s, games).0, Finalized(s, games).1) == Finalized(s, games)
  {
    var (s1, games1) := Finalized(s, games);
    var g1 := s1.game.value;
    assert GameEngine.IsGameOver(g1.players) == GameEngine.IsGameOver(s.game.value.players);
    var (s2, games2) := Finalized(s1, games1);
    assert games2 == games1;
  }

  /** A finished game is always left ended, in the store and in the context, and a game that
      is not over keeps its phase. */
  lemma FinalizeEndsFinishedGames(s: Session, games: map<string, GameDoc>)
    requires s.game.Some? && s.game.value.code != "" && Indexed(games)
    ensures var g := s.game.value;
            var r := Finalized(s, games);
            && r.0.game.Some? && r.0.game.value == r.1[g.code]
            && (r.1[g.code].phase == Ended <==> GameEngine.IsGameOver(g.players).0 || g.phase == Ended)
            && r.1[g.code].players == g.players
  {
  }

  /** The upsert writes the in-memory history over the stored one: the events logged to
      the store since the game was loaded are lost, and a game the finalization ends keeps
      no `game_over` event unless the in-memory history already had one, although one is
      logged just before the upsert. */
  lemma FinalizeOverwritesHistory(s: Session, games: map<string, GameDoc>)
    requires s.game.Some? && Indexed(games)
    ensures var g := s.game.value;
            var r := Finalized(s, games);
            && r.1[g.code].history == g.history
            && ((forall i :: 0 <= i < |g.history| ==> g.history[i].kind != "game_over") ==>
                  forall i :: 0 <= i < |r.1[g.code].history| ==> r.1[g.code].history[i].kind != "game_over")
  {
  }

  /** The finalizing tools' common ending: finalize with the updated game on top of the
      events the tool logged, then reply. */
  function Finish(s: Session, logged: map<string, GameDoc>, g: GameDoc, message: string): (r: Step)
    requires Indexed(logged)
    ensures Indexed(r.games) && Coherent(r.session, r.games)
    ensures r.outcome == Done(message) && r.session.executed == s.executed + [message]
    ensures r.games == Finalized(s.(game := Some(g)), logged).1
    ensures r.session == Finalized(s.(game := Some(g)), logged).0.(executed := s.executed + [message])
  {
    var (s1, saved) := Finalized(s.(game := Some(g)), logged);
    Succeed(s1, saved, message)
  }

  /** A game-changing tool that got through: `Finish`, with the game the engine updated
      under the same code and the events the tool logged to the store. */
  function Concluded(s: Session, games: map<string, GameDoc>, g1: GameDoc, logged: map<string, GameDoc>, message: string): (r: Step)
    requires Indexed(games) && Coherent(s, games) && s.game.Some? && g1.code == s.game.value.code
    requires Indexed(logged) && logged.Keys == games.Keys
    ensures Indexed(r.games) && Coherent(r.session, r.games) && r.games.Keys == games.Keys
    ensures r.outcome == Done(message)
    ensures r.games[g1.code] == (if GameEngine.IsGameOver(g1.players).0 then g1.(phase := Ended) else g1)
  {
    Finish(s, logged, g1, message)
  }

  /** The engine refused: its error is the outcome, the store is untouched, and the context
      keeps the game as the engine left it. */
  function EngineRefused(s: Session, games: map<string, GameDoc>, g1: GameDoc, e: GameEngine.EngineError): (r: Step)
    requires Coherent(s, games) && s.game.Some? && g1.code == s.game.value.code
    ensures Coherent(r.session, r.games) && r.games == games && !r.outcome.Done?
  {
    Step(s.(game := Some(g1)), games, EngineRefusal(e))
  }

  /** An automatic skip: the stored game moves to `phase` and the context reloads. */
  function SkippedTo(s: Session, games: map<string, GameDoc>, phase: Phase): (r: (Session, map<string, GameDoc>))
    requires Indexed(games) && Coherent(s, games) && HasGame(s)
    ensures r.1 == PhaseSet(games, s.game.value.code, phase)
    ensures Indexed(r.1) && Coherent(r.0, r.1) && r.1.Keys == games.Keys
    ensures HasGame(r.0) && r.0.gameCode == s.gameCode && r.0.executed == s.executed
    ensures r.0.game == Some(r.1[s.game.value.code]) && r.1[s.game.value.code].phase == phase
  {
    var skipped := PhaseSet(games, s.game.value.code, phase);
    (Reloaded(s, skipped), skipped)
  }

  // ---------------------------------------------------------------------------------------
  // Lobby tools

  const InvalidRequestedCode: string := "Le code fourni est invalide. Utilise 6 caractères alphanumériques."

  /** The code `tool_create_game` uses: the requested one, trimmed and upper-cased, when one
      is given, else the generated one. */
  function ChosenCode(code: Option<string>, generated: string): string
  {
    if code.Some? && code.value != "" then Upper(Strip(code.value)) else generated
  }

  /** The `game_created` event logged for a new game. */
  function GameCreated(c: string): (e: Event)
    ensures e.kind == "game_created" && e.payload == [("code", c)]
  {
    BuildEvent("game_created", [("code", c)])
  }

  /** `tool_create_game`. A requested code must validate once normalised; a code already in
      use makes the store raise. Otherwise the game is stored with a `game_created` event,
      and the context binds the code and holds the new game (not reloaded, so without the
      event). A failure changes nothing. */
  function CreateGameStep(s: Session, games: map<string, GameDoc>, code: Option<string>, generated: string): (r: Step)
    requires Indexed(games) && Coherent(s, games)
    ensures Indexed(r.games) && Coherent(r.session, r.games) && games.Keys <= r.games.Keys
  {
    if code.Some? && code.value != "" && !ValidateGameCode(Upper(Strip(code.value))) then
      Refuse(s, games, InvalidRequestedCode)
    else
      CreatedUnder(s, games, ChosenCode(code, generated))
  }

  /** `create_game` under the code `c`, then the `game_created` event; the store raises
      when `c` is in use. */
  function CreatedUnder(s: Session, games: map<string, GameDoc>, c: string): (r: Step)
    requires Indexed(games) && Coherent(s, games)
    ensures Indexed(r.games) && Coherent(r.session, r.games) && games.Keys <= r.games.Keys
  {
    if c in games then Step(s, games, Raised(CodeInUse))
    else
      var created := EventLogged(Upserted(games, NewGameDoc(c)), c, GameCreated(c));
      assert NewGameDoc(c).history + [GameCreated(c)] == [GameCreated(c)];
      Succeed(Session(Some(c), Some(NewGameDoc(c)), s.executed), created, Created(c))
  }

  /** A requested code is used only when it validates once normalised, a code in use is
      never overwritten, and on success the context binds the normalised code and holds a
      fresh game stored under it with its `game_created` event. A failure changes nothing. */
  lemma CreateGameBindsCode(s: Session, games: map<string, GameDoc>, code: Option<string>, generated: string)
    requires Indexed(games) && Coherent(s, games)
    ensures var r := CreateGameStep(s, games, code, generated);
            && (r.outcome.Refused? <==> code.Some? && code.value != "" && !ValidateGameCode(Upper(Strip(code.value))))
            && (r.outcome.Raised? <==> !r.outcome.Refused? && ChosenCode(code, generated) in games)
            && (!r.outcome.Done? ==> r.session == s && r.games == games)
            && (r.outcome.Done? ==>
                  var c := ChosenCode(code, generated);
                  && (code.Some? && code.value != "" ==> ValidateGameCode(c))
                  && r.session.gameCode == Some(c) && r.session.game == Some(NewGameDoc(c))
                  && r.games == games[c := NewGameDoc(c).(history := [GameCreated(c)])])
  {
    if !(code.Some? && code.value != "" && !ValidateGameCode(Upper(Strip(code.value)))) {
      CreatedUnderBinds(s, games, ChosenCode(code, generated));
    }
  }

  /** Creating under a free code binds it and stores the new game with its event; a code
      in use raises and changes nothing. */
  lemma CreatedUnderBinds(s: Session, games: map<string, GameDoc>, c: string)
    requires Indexed(games) && Coherent(s, games)
    ensures var r := CreatedUnder(s, games, c);
            && !r.outcome.Refused?
            && (r.outcome.Raised? <==> c in games)
            && (r.outcome.Raised? ==> r.session == s && r.games == games)
            && (r.outcome.Done? ==>
                  && r.session.gameCode == Some(c) && r.session.game == Some(NewGameDoc(c))
                  && r.games == games[c := NewGameDoc(c).(history := [GameCreated(c)])])
  {
    if c !in games {
      var e := GameCreated(c);
      assert NewGameDoc(c).history + [e] == [e];
      assert CreatedUnder(s, games, c).games == EventLogged(Upserted(games, NewGameDoc(c)), c, e);
    }
  }

  /** `tool_join_game`: the code, trimmed and upper-cased, must validate and name a stored
      game, which the context then binds and holds. The store is only read. */
  function JoinGameStep(s: Session, games: map<string, GameDoc>, code: string): (r: Step)
    requires Indexed(games) && Coherent(s, games)
    ensures r.games == games && Coherent(r.session, r.games)
    ensures !r.outcome.Raised?
    ensures r.outcome.Done? <==> ValidateGameCode(Upper(Strip(code))) && Upper(Strip(code)) in games
    ensures !r.outcome.Done? ==> r.session == s
    ensures r.outcome.Done? ==>
              var c := Upper(Strip(code));
              r.session.gameCode == Some(c) && r.session.game == Some(games[c])
  {
    var normalized := Upper(Strip(code));
    if !ValidateGameCode(normalized) then Refuse(s, games, InvalidJoinCode)
    else if normalized !in games then Refuse(s, games, UnknownCode)
    else Succeed(Session(Some(normalized), Some(games[normalized]), s.executed), games, Joined(normalized))
  }

  /** `tool_add_player`: a blank name, or one matching a registered player's regardless of
      case and surrounding spaces, is refused; a name over 40 characters makes the store's
      validation raise. Otherwise the trimmed name joins the stored game as a living
      villager with the new id, a `player_added` event is logged and the context reloads. */
  function AddPlayerStep(s: Session, games: map<string, GameDoc>, name: string, newId: PlayerId): (r: Step)
    requires Indexed(games) && Coherent(s, games)
    ensures Indexed(r.games) && Coherent(r.session, r.games) && r.games.Keys == games.Keys
  {
    if !HasGame(s) then Refuse(s, games, NoActiveGame)
    else
      var g := s.game.value;
      var playerName := Strip(name);
      if playerName == "" then Refuse(s, games, NameMissing)
      else if FindPlayerByName(g.players, playerName).Some? then Refuse(s, games, AlreadyRegistered(playerName))
      else Registered(s, games, g.code, playerName, newId)
  }

  /** Adding a player succeeds exactly with a game, a trimmed name of 1 to 40 characters and
      nobody of that name; then the living villager and its event are stored and the
      context reloads. Any refusal or error changes nothing. */
  lemma AddPlayerRegisters(s: Session, games: map<string, GameDoc>, name: string, newId: PlayerId)
    requires Indexed(games) && Coherent(s, games)
    ensures var r := AddPlayerStep(s, games, name, newId);
            && (!HasGame(s) ==> r == Refuse(s, games, NoActiveGame))
            && (r.outcome.Done? <==> HasGame(s) && Strip(name) != [] && |Strip(name)| <= 40
                                     && FindPlayerByName(s.game.value.players, Strip(name)).None?)
            && (!r.outcome.Done? ==> r.session == s && r.games == games)
            && (r.outcome.Done? ==>
                  var c := s.game.value.code;
                  && r.games[c].players == games[c].players + [Player(newId, Strip(name), Villager, Alive)]
                  && r.games[c].history == games[c].history + [BuildEvent("player_added", [("name", Strip(name))])]
                  && r.session.game == Some(r.games[c]))
  {
    if HasGame(s) && Strip(name) != [] {
      StripIdempotent(name);
    }
  }

  /** `add_player` with the trimmed name in the game `code`, then the `player_added` event
      and a reload; the store's validation raises on a name it refuses. */
  function Registered(s: Session, games: map<string, GameDoc>, code: string, playerName: string, newId: PlayerId): (r: Step)
    requires Indexed(games)
    ensures Indexed(r.games) && r.games.Keys == games.Keys
    ensures r.outcome.Done? <==> ValidateName(playerName).Ok?
    ensures !r.outcome.Done? ==> r.session == s && r.games == games
    ensures r.outcome.Done? ==> Coherent(r.session, r.games)
    ensures r.outcome.Done? && code in games ==>
              && r.games[code].players == games[code].players + [NewPlayer(newId, playerName).value]
              && r.games[code].history == games[code].history + [BuildEvent("player_added", [("name", playerName)])]
              && r.session == Reloaded(s, r.games).(executed := s.executed + [r.outcome.message])
  {
    match NewPlayer(newId, playerName)
    case Err(e) => Step(s, games, Raised(e))
    case Ok(p) =>
      var logged := EventLogged(PlayerPushed(games, code, p), code, BuildEvent("player_added", [("name", playerName)]));
      Succeed(Reloaded(s, logged), logged, JoinsGame(playerName))
  }

  /** `add_player` followed by `log_event`: the store's side of `tool_add_player`. */
  method StoreNewPlayer(store: Store, code: string, playerName: string, newId: PlayerId) returns (added: Result<PlayerId, string>)
    requires Indexed(store.games)
    modifies store
    ensures added.Err? <==> ValidateName(playerName).Err?
    ensures added.Err? ==> added.error == ValidateName(playerName).error && store.games == old(store.games)
    ensures added.Ok? ==> store.games == EventLogged(PlayerPushed(old(store.games), code, NewPlayer(newId, playerName).value), code, BuildEvent("player_added", [("name", playerName)]))
  {
    added := store.AddPlayer(code, playerName, newId);
    if added.Ok? {
      store.LogEvent(code, BuildEvent("player_added", [("name", playerName)]));
    }
  }

  /** `tool_remove_player`: a blank name or one matching nobody is refused; otherwise every
      stored player with the matched player's id is removed, a `player_removed` event is
      logged and the context reloads. */
  function RemovePlayerStep(s: Session, games: map<string, GameDoc>, name: string): (r: Step)
    requires Indexed(games) && Coherent(s, games)
    ensures Indexed(r.games) && Coherent(r.session, r.games) && r.games.Keys == games.Keys
    ensures !HasGame(s) ==> r == Refuse(s, games, NoActiveGame)
    ensures r.outcome.Done? <==> HasGame(s) && Strip(name) != [] && FindPlayerByName(s.game.value.players, Strip(name)).Some?
    ensures !r.outcome.Done? ==> r.session == s && r.games == games
    ensures r.outcome.Done? ==>
              var c := s.game.value.code;
              var p := FindPlayerByName(s.game.value.players, Strip(name)).value;
              && p in s.game.value.players && NameMatches(p, name)
              && r.games[c].players == WithoutId(games[c].players, p.id)
              && (forall q :: q in r.games[c].players <==> q in games[c].players && q.id != p.id)
              && r.session.game == Some(r.games[c])
  {
    if !HasGame(s) then Refuse(s, games, NoActiveGame)
    else
      var g := s.game.value;
      var targetName := Strip(name);
      if targetName == "" then Refuse(s, games, RemoveWhom)
      else
        match FindPlayerByName(g.players, targetName)
        case None => Refuse(s, games, NotRegistered(targetName))
        case Some(p) =>
          StripIdempotent(name);
          Withdrawn(s, games, g.code, p)
  }

  /** `p` is pulled from the game `code`, a `player_removed` event is logged and the context
      reloads. */
  function Withdrawn(s: Session, games: map<string, GameDoc>, code: string, p: Player): (r: Step)
    requires Indexed(games)
    ensures Indexed(r.games) && Coherent(r.session, r.games) && r.games.Keys == games.Keys
    ensures r.outcome == Done(RemovedFrom(p.name)) && r.session.executed == s.executed + [r.outcome.message]
    ensures code in games ==> r.games[code].players == WithoutId(games[code].players, p.id)
    ensures r.session.gameCode == s.gameCode
    ensures r.session.game == Reloaded(s, r.games).game
  {
    var logged := EventLogged(PlayerPulled(games, code, p.id), code, BuildEvent("player_removed", [("name", p.name)]));
    Succeed(Reloaded(s, logged), logged, RemovedFrom(p.name))
  }

  /** The role `tool_list_players` shows: the role's name once the game has ended or the
      player is dead, "?" otherwise. */
  function ShownRole(p: Player, phase: Phase): (r: string)
    ensures r == "?" <==> phase != Ended && p.status != Dead
    ensures r != "?" ==> ValidateRole(r) == Ok(p.role)
  {
    if phase == Ended || p.status == Dead then RoleName(p.role) else "?"
  }

  /** One line of the player list. */
  function PlayerLine(p: Player, phase: Phase): string
  {
    "- " + p.name + " (" + (if p.status == Alive then "vivant" else "mort") + ", rôle: " + ShownRole(p, phase) + ")"
  }

  /** The lines for `ps`, in order. */
  function PlayerLines(ps: seq<Player>, phase: Phase): (r: seq<string>)
    ensures |r| == |ps| && forall k :: 0 <= k < |ps| ==> r[k] == PlayerLine(ps[k], phase)
  {
    if ps == [] then [] else [PlayerLine(ps[0], phase)] + PlayerLines(ps[1..], phase)
  }

  /** The loop of `tool_list_players` that builds one line per player, in order. */
  method ListLines(ps: seq<Player>, phase: Phase) returns (lines: seq<string>)
    ensures |lines| == |ps| && forall k :: 0 <= k < |ps| ==> lines[k] == PlayerLine(ps[k], phase)
    ensures lines == PlayerLines(ps, phase)
  {
    lines := [];
    var i := 0;
    while i < |ps|
      invariant 0 <= i <= |ps|
      invariant |lines| == i
      invariant forall k :: 0 <= k < i ==> lines[k] == PlayerLine(ps[k], phase)
    {
      lines := lines + [PlayerLine(ps[i], phase)];
      i := i + 1;
    }
  }

  /** `tool_list_players`: with nobody registered, a fixed reply and nothing recorded;
      otherwise one line per player, in order, under a heading, and the consultation is
      recorded. The store is not touched. */
  function ListPlayersStep(s: Session): (r: (Session, ToolOutcome))
    ensures !HasGame(s) ==> r == (s, Refused(NoActiveGame))
    ensures HasGame(s) && s.game.value.players == [] ==> r == (s, Done(NoPlayersYet))
    ensures HasGame(s) && s.game.value.players != [] ==>
              && r.0 == s.(executed := s.executed + [PlayersListed])
              && r.1 == Done(PlayersHeader + Join("\n", PlayerLines(s.game.value.players, s.game.value.phase)))
  {
    if !HasGame(s) then (s, Refused(NoActiveGame))
    else
      var g := s.game.value;
      if g.players == [] then (s, Done(NoPlayersYet))
      else
        (s.(executed := s.executed + [PlayersListed]),
         Done(PlayersHeader + Join("\n", PlayerLines(g.players, g.phase))))
  }

  // ---------------------------------------------------------------------------------------
  // Night and day tools

  /** `tool_assign_roles`: fewer than five players is refused before the engine runs; the
      engine's refusal outside the lobby is passed on; otherwise a `roles_assigned` event
      with the number of players is logged and the game is finalized. */
  function AssignRolesStep(s: Session, games: map<string, GameDoc>, draw: Roles.DrawSource, seed: Option<int>): (r: Step)
    requires Indexed(games) && Coherent(s, games)
    ensures Indexed(r.games) && Coherent(r.session, r.games) && r.games.Keys == games.Keys
  {
    if !HasGame(s) then Refuse(s, games, NoActiveGame)
    else
      var g := s.game.value;
      if |g.players| < 5 then Refuse(s, games, TooFewPlayers)
      else
        var (g1, res) := GameEngine.AssignRolesOutcome(g, draw, seed);
        match res
        case Err(e) => Step(s.(game := Some(g1)), games, EngineRefusal(e))
        case Ok(m) =>
          var logged := EventLogged(games, g.code, BuildEvent("roles_assigned", [("players", NatToString(|m|))]));
          Finish(s, logged, g1, RolesDealt)
  }

  /** Roles are dealt exactly from the lobby with five players or more: the stored game is
      then the dealt one, finalized on top of a `roles_assigned` event that counts the role
      assignment's entries. */
  lemma AssignRolesDeals(s: Session, games: map<string, GameDoc>, draw: Roles.DrawSource, seed: Option<int>)
    requires Indexed(games) && Coherent(s, games)
    ensures var r := AssignRolesStep(s, games, draw, seed);
            && (!HasGame(s) ==> r == Refuse(s, games, NoActiveGame))
            && (HasGame(s) && |s.game.value.players| < 5 ==>
                  r == Refuse(s, games, TooFewPlayers))
            && (!r.outcome.Done? ==> r.games == games && r.outcome.Refused?)
            && (r.outcome.Done? <==> HasGame(s) && |s.game.value.players| >= 5 && s.game.value.phase == Lobby)
            && (r.outcome.Done? ==>
                  var g := s.game.value;
                  var dealt := g.(phase := NightSeer, players := GameEngine.Dealt(g.players, draw, seed));
                  var count := |Roles.Assignment(GameEngine.Ids(g.players), draw, seed)|;
                  r.games == Finalized(s.(game := Some(dealt)), EventLogged(games, g.code, BuildEvent("roles_assigned", [("players", NatToString(count))]))).1)
  {
    if HasGame(s) && |s.game.value.players| >= 5 {
      var g := s.game.value;
      var out := GameEngine.AssignRolesOutcome(g, draw, seed);
      if g.phase != Lobby {
        assert out.1 == Err(GameEngine.GameStateError("Les rôles ne peuvent être attribués qu'en phase de lobby."));
      } else {
        assert out.1.Ok? && out.0 == g.(phase := NightSeer, players := GameEngine.Dealt(g.players, draw, seed));
      }
    }
  }

  /** `tool_seer_peek`'s refusal outside the seer's turn: it never moves the night on. */
  function SeerTurnRefusal(phase: Phase): string
  {
    if phase == Lobby then "Les rôles doivent d'abord être distribués. Utilise 'distribue les rôles'."
    else if phase == Day then "C'est le jour. La Voyante ne peut agir que la nuit. Lance d'abord une nouvelle nuit."
    else "Ce n'est pas le tour de la Voyante. Phase actuelle : " + PhaseName(phase) + ". Utilise 'run_night_sequence' pour voir qui doit jouer."
  }

  /** `tool_seer_peek`: only in the seer's turn, on a registered player; the engine's
      refusals are passed on; otherwise a `seer_peek` event with the target and its role is
      logged and the game is finalized. */
  function SeerPeekStep(s: Session, games: map<string, GameDoc>, targetName: string): (r: Step)
    requires Indexed(games) && Coherent(s, games)
    ensures Indexed(r.games) && Coherent(r.session, r.games) && r.games.Keys == games.Keys
  {
    if !HasGame(s) then Refuse(s, games, NoActiveGame)
    else
      var g := s.game.value;
      if g.phase != NightSeer then Refuse(s, games, SeerTurnRefusal(g.phase))
      else
        match FindPlayerByName(g.players, targetName)
        case None => Refuse(s, games, NotAPlayer(targetName))
        case Some(t) => SeerPeekAt(s, games, g, t)
  }

  /** The seer's peek once the target is found: the engine's refusals are passed on;
      otherwise a `seer_peek` event with the target and its role is logged and the game is
      finalized. */
  function SeerPeekAt(s: Session, games: map<string, GameDoc>, g: GameDoc, t: Player): (r: Step)
    requires Indexed(games) && Coherent(s, games) && s.game == Some(g)
    ensures Indexed(r.games) && Coherent(r.session, r.games) && r.games.Keys == games.Keys
  {
    var (g1, res) := GameEngine.SeerPeekOutcome(g, t.id);
    match res
    case Err(e) => EngineRefused(s, games, g1, e)
    case Ok(role) =>
      var logged := EventLogged(games, g.code, BuildEvent("seer_peek", [("target", t.name), ("role", RoleName(role))]));
      Concluded(s, games, g1, logged, SeerLearns(t.name, RoleName(role)))
  }

  /** The wolves' turn once the phase is right: the target must be registered and alive,
      then the engine records the vote, a `wolves_vote` event is logged and the game is
      finalized. */
  function WolvesTurn(s: Session, games: map<string, GameDoc>, g: GameDoc, targetName: string): (r: Step)
    requires Indexed(games) && Coherent(s, games) && s.game == Some(g)
    ensures Indexed(r.games) && Coherent(r.session, r.games) && r.games.Keys == games.Keys
    ensures !r.outcome.Done? ==> r.games == games
  {
    match FindPlayerByName(g.players, targetName)
    case None => Refuse(s, games, NotFound(targetName))
    case Some(t) =>
      if t.status != Alive then Refuse(s, games, AlreadyDead(t.name))
      else WolvesVoteAt(s, games, g, t)
  }

  /** The engine's vote on the living player `t`, then the `wolves_vote` event. */
  function WolvesVoteAt(s: Session, games: map<string, GameDoc>, g: GameDoc, t: Player): (r: Step)
    requires Indexed(games) && Coherent(s, games) && s.game == Some(g)
    ensures Indexed(r.games) && Coherent(r.session, r.games) && r.games.Keys == games.Keys
    ensures !r.outcome.Done? ==> r.games == games
  {
    var (g1, res) := GameEngine.WolvesVoteOutcome(g, t.id);
    match res
    case Err(e) => EngineRefused(s, games, g1, e)
    case Ok(_) =>
      var logged := EventLogged(games, g.code, BuildEvent("wolves_vote", [("target", t.name)]));
      Concluded(s, games, g1, logged, WolvesTarget(t.name))
  }

  /** `tool_wolves_vote`. In the seer's turn it waits for a living seer; with the seer dead
      it first moves the stored game to the wolves' turn and reloads, and only then looks
      at the target, so that move stays even when the vote is refused. */
  function WolvesVoteStep(s: Session, games: map<string, GameDoc>, targetName: string): (r: Step)
    requires Indexed(games) && Coherent(s, games)
    ensures Indexed(r.games) && Coherent(r.session, r.games) && r.games.Keys == games.Keys
  {
    if !HasGame(s) then Refuse(s, games, NoActiveGame)
    else
      var g := s.game.value;
      if g.phase == NightSeer then
        if LivingWithRole(g.players, Seer).Some? then
          Refuse(s, games, WolvesBeforeSeer)
        else
          var (s1, skipped) := SkippedTo(s, games, NightWolves);
          WolvesTurn(s1, skipped, s1.game.value, targetName)
      else if g.phase != NightWolves then
        Refuse(s, games, NotWolvesTurn(g.phase))
      else WolvesTurn(s, games, g, targetName)
  }

  /** `saved_name or "aucun"`, and the like. */
  function NameOr(name: Option<string>, fallback: string): string
  {
    if name.Some? && name.value != "" then name.value else fallback
  }

  /** The name of the pending victim when the witch heals, if it is still registered. */
  function SavedName(g: GameDoc, heal: bool): Option<string>
  {
    if heal && g.lastKilled.Some? then
      match PlayerWithId(g.players, g.lastKilled.value)
      case Some(v) => Some(v.name)
      case None => None
    else None
  }

  /** A `player_killed` event for the reported death, when its player is registered. */
  function KillLogged(games: map<string, GameDoc>, code: string, ps: seq<Player>, killed: Option<PlayerId>): (r: map<string, GameDoc>)
    requires Indexed(games)
    ensures Indexed(r) && r.Keys == games.Keys
  {
    if killed.Some? then
      match PlayerWithId(ps, killed.value)
      case Some(v) => EventLogged(games, code, BuildEvent("player_killed", [("name", v.name)]))
      case None => games
    else games
  }

  /** The witch's turn once the phase is right: a named poison target must be registered;
      the engine applies the potions (a refusal keeps, in the context, what it did before
      refusing); then `witch_heal`, `witch_poison` and `player_killed` events are logged as
      they apply and the game is finalized. */
  function WitchTurn(s: Session, games: map<string, GameDoc>, g: GameDoc, heal: bool, poisonTarget: Option<string>): (r: Step)
    requires Indexed(games) && Coherent(s, games) && s.game == Some(g)
    ensures Indexed(r.games) && Coherent(r.session, r.games) && r.games.Keys == games.Keys
    ensures !r.outcome.Done? ==> r.games == games
  {
    var named := poisonTarget.Some? && poisonTarget.value != "";
    var found := if named then FindPlayerByName(g.players, poisonTarget.value) else None;
    if named && found.None? then Refuse(s, games, NotAPlayer(poisonTarget.value))
    else if named then WitchApplied(s, games, g, heal, Some(found.value.id), found.value.name)
    else WitchApplied(s, games, g, heal, None, "")
  }

  /** The potions applied, with the poison on `poisonId` (named `poisoned`), if any. */
  function WitchApplied(s: Session, games: map<string, GameDoc>, g: GameDoc, heal: bool, poisonId: Option<PlayerId>, poisoned: string): (r: Step)
    requires Indexed(games) && Coherent(s, games) && s.game == Some(g)
    ensures Indexed(r.games) && Coherent(r.session, r.games) && r.games.Keys == games.Keys
    ensures !r.outcome.Done? ==> r.games == games
    ensures r.outcome.Done? ==> r.games[g.code].lastKilled == None && r.games[g.code].phase in {Day, Ended}
  {
    var (g1, res) := GameEngine.WitchOutcome(g, heal, poisonId);
    GameEngine.WitchEvolves(g, heal, poisonId);
    match res
    case Err(e) => EngineRefused(s, games, g1, e)
    case Ok(killed) =>
      GameEngine.WitchOutcomeState(g, heal, poisonId);
      var logged := WitchLogged(games, g.code, heal, NameOr(SavedName(g, heal), "aucun"), poisoned, g1.players, killed);
      Concluded(s, games, g1, logged, WitchDone)
  }

  /** The witch's events: `witch_heal` when she heals, `witch_poison` when her target has a
      name, `player_killed` for a reported death. */
  function WitchLogged(games: map<string, GameDoc>, code: string, heal: bool, saved: string, poisoned: string,
                       ps: seq<Player>, killed: Option<PlayerId>): (r: map<string, GameDoc>)
    requires Indexed(games)
    ensures Indexed(r) && r.Keys == games.Keys
  {
    var healLogged := if heal then EventLogged(games, code, BuildEvent("witch_heal", [("saved", saved)])) else games;
    var poisonLogged := if poisoned != "" then EventLogged(healLogged, code, BuildEvent("witch_poison", [("target", poisoned)])) else healLogged;
    KillLogged(poisonLogged, code, ps, killed)
  }

  const WitchBeforeSeer: string := "La Voyante doit d'abord jouer. Utilise 'run_night_sequence' pour orchestrer la nuit dans l'ordre."
  const WitchBeforeWolves: string := "Les Loups doivent d'abord attaquer. Demande aux Loups de choisir leur victime."

  function NotWitchTurn(phase: Phase): string
  {
    "Ce n'est pas le tour de la Sorcière. Phase actuelle : " + PhaseName(phase) + ". Utilise 'run_night_sequence' pour voir qui doit jouer."
  }

  /** `tool_witch_action` in the wolves' turn: refused while a wolf lives, otherwise the
      stored game first moves to the witch's turn and the context reloads. */
  function WitchAfterWolves(s: Session, games: map<string, GameDoc>, heal: bool, poisonTarget: Option<string>): (r: Step)
    requires Indexed(games) && Coherent(s, games) && HasGame(s)
    ensures Indexed(r.games) && Coherent(r.session, r.games) && r.games.Keys == games.Keys
  {
    if LivingWithRole(s.game.value.players, Wolf).Some? then Refuse(s, games, WitchBeforeWolves)
    else
      var (s1, skipped) := SkippedTo(s, games, NightWitch);
      WitchTurn(s1, skipped, s1.game.value, heal, poisonTarget)
  }

  /** `tool_witch_action`. The seer's turn is always refused; in the wolves' turn it waits
      for the living wolves, and with none left it first moves the stored game to the
      witch's turn and reloads. */
  function WitchActionStep(s: Session, games: map<string, GameDoc>, heal: bool, poisonTarget: Option<string>): (r: Step)
    requires Indexed(games) && Coherent(s, games)
    ensures Indexed(r.games) && Coherent(r.session, r.games) && r.games.Keys == games.Keys
  {
    if !HasGame(s) then Refuse(s, games, NoActiveGame)
    else
      var g := s.game.value;
      if g.phase == NightSeer then
        Refuse(s, games, WitchBeforeSeer)
      else if g.phase == NightWolves then WitchAfterWolves(s, games, heal, poisonTarget)
      else if g.phase != NightWitch then
        Refuse(s, games, NotWitchTurn(g.phase))
      else WitchTurn(s, games, g, heal, poisonTarget)
  }

  /** `tool_advance_to_day`: only in the witch's turn; the witch passes (no potion), the
      pending kill is logged as `player_killed`, then `night_finished`, and the game is
      finalized. */
  function AdvanceToDayStep(s: Session, games: map<string, GameDoc>): (r: Step)
    requires Indexed(games) && Coherent(s, games)
    ensures Indexed(r.games) && Coherent(r.session, r.games) && r.games.Keys == games.Keys
  {
    if !HasGame(s) then Refuse(s, games, NoActiveGame)
    else
      var g := s.game.value;
      if g.phase != NightWitch then Refuse(s, games, DayBeforeWitch)
      else
        var (g1, res) := GameEngine.WitchOutcome(g, false, None);
        GameEngine.WitchEvolves(g, false, None);
        match res
        case Err(e) => Step(s.(game := Some(g1)), games, EngineRefusal(e))
        case Ok(killed) =>
          var logged := EventLogged(KillLogged(games, g.code, g1.players, killed), g.code, BuildEvent("night_finished", []));
          Finish(s, logged, g1, VillageWakes)
  }

  /** `tool_start_next_night`: the engine's refusal outside the day is passed on; otherwise
      a `night_started` event is logged and the game is finalized. */
  function StartNextNightStep(s: Session, games: map<string, GameDoc>): (r: Step)
    requires Indexed(games) && Coherent(s, games)
    ensures Indexed(r.games) && Coherent(r.session, r.games) && r.games.Keys == games.Keys
  {
    if !HasGame(s) then Refuse(s, games, NoActiveGame)
    else
      var g := s.game.value;
      var (g1, res) := GameEngine.StartNightOutcome(g);
      match res
      case Err(e) => Step(s.(game := Some(g1)), games, EngineRefusal(e))
      case Ok(_) => Finish(s, EventLogged(games, g.code, BuildEvent("night_started", [])), g1, NightFalls)
  }

  /** Names joined by commas, or "aucun" when there are none. */
  function NamesOrNone(names: seq<string>): string
  {
    if names != [] then Join(", ", names) else "aucun"
  }

  /** The status text of a game. */
  function StatusText(g: GameDoc): string
  {
    "Phase actuelle : " + PhaseName(g.phase) + ".\n"
    + "Vivants : " + NamesOrNone(NamesWithStatus(g.players, Alive)) + ".\n"
    + "Morts : " + NamesOrNone(NamesWithStatus(g.players, Dead)) + ".\n"
    + "Potions - soin utilisé : " + BoolToString(g.potions.healUsed) + ", poison utilisé : " + BoolToString(g.potions.poisonUsed) + "."
  }

  /** `tool_game_status`: the context reloads first, so the status is the stored game's,
      not the in-memory one's; the consultation is recorded and the store is untouched. */
  function GameStatusStep(s: Session, games: map<string, GameDoc>): (r: Step)
    requires Indexed(games) && Coherent(s, games)
    ensures r.games == games && Coherent(r.session, r.games)
    ensures !HasGame(s) ==> r == Refuse(s, games, NoActiveGame)
    ensures HasGame(s) ==>
              var stored := games[s.gameCode.value];
              && r.session.game == Some(stored)
              && r.session.executed == s.executed + [StatusShown]
              && r.outcome == Done(StatusText(stored))
  {
    if !HasGame(s) then Refuse(s, games, NoActiveGame)
    else
      var s1 := Reloaded(s, games);
      Step(s1.(executed := s1.executed + [StatusShown]), games, Done(StatusText(s1.game.value)))
  }

  /** The state `tool_run_night_sequence` threads through its stages: the context, the
      store, the current game and the narration so far. */
  datatype Night = Night(session: Session, games: map<string, GameDoc>, game: GameDoc, messages: seq<string>)

  /** The context holds the current game, which the store holds under its bound code. */
  ghost predicate NightReady(n: Night)
  {
    Indexed(n.games) && Coherent(n.session, n.games) && HasGame(n.session) && n.session.game == Some(n.game)
  }

  /** The seer's stage: wake the living seer, or note her death and move the stored game to
      the wolves' turn. */
  function SeerStage(n: Night): (r: Night)
    requires NightReady(n)
    ensures NightReady(r) && r.games.Keys == n.games.Keys && r.session.executed == n.session.executed
  {
    if n.game.phase != NightSeer then n
    else
      match LivingWithRole(n.game.players, Seer)
      case Some(p) =>
        n.(messages := n.messages + [SeerWakes(p.name),
                                     SeerUsage])
      case None =>
        var (s1, skipped) := SkippedTo(n.session, n.games, NightWolves);
        Night(s1, skipped, s1.game.value, n.messages + [SeerGone])
  }

  /** The wolves' stage: wake the living wolves, or note that none are left and move the
      stored game to the witch's turn. */
  function WolvesStage(n: Night): (r: Night)
    requires NightReady(n)
    ensures NightReady(r) && r.games.Keys == n.games.Keys && r.session.executed == n.session.executed
  {
    if n.game.phase != NightWolves then n
    else
      var wolves := Wolves(AlivePlayers(n.game.players));
      if wolves != [] then
        n.(messages := n.messages + [WolvesWake(Join(", ", Names(wolves))),
                                     WolvesUsage])
      else
        var (s1, skipped) := SkippedTo(n.session, n.games, NightWitch);
        Night(s1, skipped, s1.game.value, n.messages + [WolvesGone])
  }

  /** What the living witch is told about her potions. */
  function PotionInfo(g: GameDoc): seq<string>
  {
    var victim := if !g.potions.healUsed && g.lastKilled.Some? then PlayerWithId(g.players, g.lastKilled.value) else None;
    (if victim.Some? then ["Les loups ont attaqué " + victim.value.name + ". Tu peux le/la sauver avec ta potion de soin."] else [])
    + (if !g.potions.poisonUsed then ["Tu disposes encore de ta potion de poison."] else [])
  }

  const WitchGone: string := "\U{1F9EA} La Sorcière n'est plus parmi nous..."
  const NightOver: string := "Toutes les phases de nuit sont terminées. Utilise 'réveille le village' pour passer au jour."
  const WitchUsage: string := "(Utilise : 'la sorcière sauve [nom]' ou 'la sorcière empoisonne [nom]' ou passe ton tour)"

  function WitchWakes(name: string): string
  {
    "\U{1F9EA} La Sorcière (" + name + ") se réveille."
  }

  function PotionLine(info: seq<string>): string
  {
    "Sorcière : " + Join(" ", info)
  }

  /** What the witch's stage narrates: the living witch wakes and hears about her
      potions, or her death closes the night. */
  function WitchCall(g: GameDoc): seq<string>
  {
    if g.phase != NightWitch then []
    else
      match LivingWithRole(g.players, Witch)
      case Some(w) =>
        var info := PotionInfo(g);
        [WitchWakes(w.name)] + (if info != [] then [PotionLine(info), WitchUsage] else [])
      case None =>
        [WitchGone, NightOver]
  }

  /** The witch's stage: only narration, never a change of phase. */
  function WitchStage(n: Night): (r: Night)
    ensures r.session == n.session && r.games == n.games && r.game == n.game
  {
    n.(messages := n.messages + WitchCall(n.game))
  }

  /** The witch's stage as `tool_run_night_sequence` writes it, line by line. */
  method WakeWitch(g: GameDoc) returns (lines: seq<string>)
    ensures lines == WitchCall(g)
  {
    lines := [];
    if g.phase == NightWitch {
      var witch := LivingWithRole(g.players, Witch);
      if witch.Some? {
        lines := [WitchWakes(witch.value.name)];
        var info := PotionInfo(g);
        if info != [] {
          lines := lines + [PotionLine(info), WitchUsage];
        }
      } else {
        lines := [WitchGone, NightOver];
      }
    }
  }

  predicate IsNight(phase: Phase)
  {
    phase == NightSeer || phase == NightWolves || phase == NightWitch
  }

  /** `tool_run_night_sequence`: only at night; the stages run in order, each skipping
      to the next turn when its actors are all dead, and the narration is the reply. Nothing
      is recorded among the executed actions. */
  function RunNightSequenceStep(s: Session, games: map<string, GameDoc>): (r: Step)
    requires Indexed(games) && Coherent(s, games)
    ensures Indexed(r.games) && Coherent(r.session, r.games) && r.games.Keys == games.Keys
    ensures r.session.executed == s.executed
  {
    if !HasGame(s) then Refuse(s, games, NoActiveGame)
    else
      var g := s.game.value;
      if !IsNight(g.phase) then Refuse(s, games, NotNight)
      else
        var n := WitchStage(WolvesStage(SeerStage(Night(s, games, g, []))));
        Step(n.session, n.games, Done(Join("\n", n.messages)))
  }

  // ---------------------------------------------------------------------------------------
  // persist_interaction

  /** `AgentResponse`. */
  datatype AgentResponse = AgentResponse(
    reply: string,
    gameCode: Option<string>,
    chatHistory: seq<ChatMessage>,
    errors: seq<string>,
    executedActions: seq<string>,
    snapshot: Option<GameDoc>)

  /** `persist_interaction`'s effect on the store and the history it returns: with a bound
      code, the user's message and the reply are appended to the stored chat, which is
      then read back with the game; without one, they are appended to a copy of the
      request's history. */
  function Persisted(s: Session, games: map<string, GameDoc>, userMessage: string, chatHistory: seq<ChatMessage>, reply: string)
    : (r: (map<string, GameDoc>, seq<ChatMessage>, Option<GameDoc>))
    requires Indexed(games)
    ensures Indexed(r.0) && r.0.Keys == games.Keys
  {
    var turn := [ChatMessage(UserTurn, userMessage), ChatMessage(AssistantTurn, reply)];
    if Bound(s.gameCode) then
      var c := s.gameCode.value;
      var appended := ChatAppended(ChatAppended(games, c, turn[0]), c, turn[1]);
      if c in appended then (appended, appended[c].chatHistory, Some(appended[c])) else (appended, [], None)
    else (games, chatHistory + turn, None)
  }

  // ---------------------------------------------------------------------------------------
  // Properties of the tools

  /** Every tool but create and join refuses, changing nothing, when no code is bound or no
      game is loaded. */
  lemma NoActiveGameRefused(s: Session, games: map<string, GameDoc>, name: string, newId: PlayerId,
                            draw: Roles.DrawSource, seed: Option<int>, heal: bool, poisonTarget: Option<string>)
    requires Indexed(games) && Coherent(s, games) && !HasGame(s)
    ensures AddPlayerStep(s, games, name, newId) == Refuse(s, games, NoActiveGame)
    ensures RemovePlayerStep(s, games, name) == Refuse(s, games, NoActiveGame)
    ensures ListPlayersStep(s) == (s, Refused(NoActiveGame))
    ensures AssignRolesStep(s, games, draw, seed) == Refuse(s, games, NoActiveGame)
    ensures SeerPeekStep(s, games, name) == Refuse(s, games, NoActiveGame)
    ensures WolvesVoteStep(s, games, name) == Refuse(s, games, NoActiveGame)
    ensures WitchActionStep(s, games, heal, poisonTarget) == Refuse(s, games, NoActiveGame)
    ensures AdvanceToDayStep(s, games) == Refuse(s, games, NoActiveGame)
    ensures RunNightSequenceStep(s, games) == Refuse(s, games, NoActiveGame)
    ensures StartNextNightStep(s, games) == Refuse(s, games, NoActiveGame)
    ensures GameStatusStep(s, games) == Refuse(s, games, NoActiveGame)
  {
  }

  /** A game created under a requested code can be joined with that code: the stored code
      is already trimmed and upper-cased, so joining normalises it to itself. */
  lemma CreatedGameJoinable(s: Session, games: map<string, GameDoc>, code: string, generated: string)
    requires Indexed(games) && Coherent(s, games) && code != ""
    requires CreateGameStep(s, games, Some(code), generated).outcome.Done?
    ensures var created := CreateGameStep(s, games, Some(code), generated);
            var joined := JoinGameStep(created.session, created.games, Upper(Strip(code)));
            && joined.outcome.Done?
            && joined.session.gameCode == created.session.gameCode
            && Upper(Strip(code)) in created.games
            && joined.session.game == Some(created.games[Upper(Strip(code))])
  {
    var c := Upper(Strip(code));
    CreateGameBindsCode(s, games, Some(code), generated);
    UpperIdempotent(Strip(code));
    NormalizedCodeFixed(c);
  }

  /** A valid upper-case code is its own normalisation. */
  lemma NormalizedCodeFixed(c: string)
    requires ValidateGameCode(c) && Upper(c) == c
    ensures Upper(Strip(c)) == c
  {
    ValidateGameCodeIff(c);
    assert !IsSpace(c[0]) && !IsSpace(c[|c| - 1]);
    TrimStartStops(c);
    TrimEndStops(c);
  }

  /** The seer acts only in her own turn: any other phase is refused and nothing moves on. */
  lemma SeerPeekNeverSkips(s: Session, games: map<string, GameDoc>, targetName: string)
    requires Indexed(games) && Coherent(s, games) && HasGame(s) && s.game.value.phase != NightSeer
    ensures SeerPeekStep(s, games, targetName) == Refuse(s, games, SeerTurnRefusal(s.game.value.phase))
  {
  }

  /** The game `_finalize_state` stores for the game `g` a tool updated: `g` itself, ended
      when the game is over. */
  function Settled(g: GameDoc): GameDoc
  {
    if GameEngine.IsGameOver(g.players).0 then g.(phase := Ended) else g
  }

  /** In the seer's turn the peek goes through exactly when the name finds a player and the
      first player holding its id is alive. An unknown name is refused with its own message
      and the engine's refusals are passed on, changing nothing in the store. A successful
      peek reveals the role of that first holder, and the stored game is the loaded one
      moved to the wolves' turn, ended if the game is over. */
  lemma SeerPeekReveals(s: Session, games: map<string, GameDoc>, targetName: string)
    requires Indexed(games) && Coherent(s, games) && HasGame(s) && s.game.value.phase == NightSeer
    ensures var g := s.game.value;
            var found := FindPlayerByName(g.players, targetName);
            var r := SeerPeekStep(s, games, targetName);
            && (found.None? ==> r == Refuse(s, games, NotAPlayer(targetName)))
            && (r.outcome.Done? <==> found.Some? && GameEngine.LivingTarget(g.players, found.value.id).Ok?)
            && (found.Some? && GameEngine.LivingTarget(g.players, found.value.id).Err? ==>
                  r.games == games && r.outcome == EngineRefusal(GameEngine.LivingTarget(g.players, found.value.id).error))
            && (r.outcome.Done? ==>
                  && NameMatches(found.value, targetName)
                  && (exists k :: GameEngine.IsFirstWithId(g.players, found.value.id, k) && g.players[k].status == Alive
                                  && r.outcome.message == SeerLearns(found.value.name, RoleName(g.players[k].role)))
                  && r.games[g.code] == Settled(g.(phase := NightWolves)))
  {
    var g := s.game.value;
    var found := FindPlayerByName(g.players, targetName);
    if found.Some? {
      FoundPlayerMatches(g.players, targetName);
      var out := GameEngine.SeerPeekOutcome(g, found.value.id);
      assert out.1.Ok? <==> GameEngine.LivingTarget(g.players, found.value.id).Ok?;
    }
  }

  /** In the seer's turn, the wolves wait for a living seer: refused, nothing changes. */
  lemma WolvesVoteWaitsForSeer(s: Session, games: map<string, GameDoc>, targetName: string)
    requires Indexed(games) && Coherent(s, games) && HasGame(s)
    requires s.game.value.phase == NightSeer && LivingWithRole(s.game.value.players, Seer).Some?
    ensures WolvesVoteStep(s, games, targetName).games == games
    ensures WolvesVoteStep(s, games, targetName) == Refuse(s, games, WolvesBeforeSeer)
  {
  }

  /** With the seer dead, the move to the wolves' turn is written to the store before the
      target is looked at: a refused vote (an unknown or dead target) still leaves the
      stored game, and the reloaded context, in the wolves' turn. */
  lemma WolvesVoteSkipPersists(s: Session, games: map<string, GameDoc>, targetName: string)
    requires Indexed(games) && Coherent(s, games) && HasGame(s)
    requires s.game.value.phase == NightSeer && LivingWithRole(s.game.value.players, Seer).None?
    ensures var c := s.game.value.code;
            var skipped := PhaseSet(games, c, NightWolves);
            var r := WolvesVoteStep(s, games, targetName);
            && skipped[c].phase == NightWolves
            && (!r.outcome.Done? ==> r.games == skipped && r.session.game == Some(skipped[c]))
            && (FindPlayerByName(skipped[c].players, targetName).None? ==> r.outcome == Refused(NotFound(targetName)))
            && (FindPlayerByName(skipped[c].players, targetName).Some? && FindPlayerByName(skipped[c].players, targetName).value.status == Dead ==>
                  r.outcome == Refused(AlreadyDead(FindPlayerByName(skipped[c].players, targetName).value.name)))
  {
    var c := s.game.value.code;
    var (s1, skipped) := SkippedTo(s, games, NightWolves);
    var g := s1.game.value;
    match FindPlayerByName(g.players, targetName)
    case None =>
    case Some(t) =>
      if t.status == Alive {
        var out := GameEngine.WolvesVoteOutcome(g, t.id);
        assert out.1.Err? ==> out.0 == g;
      }
  }

  /** In the wolves' turn the vote goes through exactly when the name finds a living player
      and the first player holding its id is alive; it then stores the loaded game with that
      id as the pending kill, in the witch's turn, ended if the game is over.
      `WolvesVoteRefusals` gives the refusals. */
  lemma WolvesVoteRecordsVictim(s: Session, games: map<string, GameDoc>, targetName: string)
    requires Indexed(games) && Coherent(s, games) && HasGame(s) && s.game.value.phase == NightWolves
    ensures var g := s.game.value;
            var found := FindPlayerByName(g.players, targetName);
            var r := WolvesVoteStep(s, games, targetName);
            && (r.outcome.Done? <==>
                  found.Some? && found.value.status == Alive && GameEngine.LivingTarget(g.players, found.value.id).Ok?)
            && (r.outcome.Done? ==>
                  && r.outcome.message == WolvesTarget(found.value.name)
                  && r.games[g.code] == Settled(g.(lastKilled := Some(found.value.id), phase := NightWitch)))
  {
    var g := s.game.value;
    var found := FindPlayerByName(g.players, targetName);
    var r := WolvesVoteStep(s, games, targetName);
    assert r == WolvesTurn(s, games, g, targetName);
    if found.Some? && found.value.status == Alive {
      assert r == WolvesVoteAt(s, games, g, found.value);
      var out := GameEngine.WolvesVoteOutcome(g, found.value.id);
      assert out.1.Ok? <==> GameEngine.LivingTarget(g.players, found.value.id).Ok?;
      if out.1.Ok? {
        assert out.0 == g.(lastKilled := Some(found.value.id), phase := NightWitch);
      }
    }
  }

  /** In the wolves' turn an unknown name and a dead player are refused with their own
      messages, and the engine's refusal for a living name whose id's first holder is not
      alive is passed on; none of these changes the store. */
  lemma WolvesVoteRefusals(s: Session, games: map<string, GameDoc>, targetName: string)
    requires Indexed(games) && Coherent(s, games) && HasGame(s) && s.game.value.phase == NightWolves
    ensures var g := s.game.value;
            var found := FindPlayerByName(g.players, targetName);
            var r := WolvesVoteStep(s, games, targetName);
            && (found.None? ==> r == Refuse(s, games, NotFound(targetName)))
            && (found.Some? && found.value.status == Dead ==> r == Refuse(s, games, AlreadyDead(found.value.name)))
            && (found.Some? && found.value.status == Alive && GameEngine.LivingTarget(g.players, found.value.id).Err? ==>
                  r.games == games && r.outcome == EngineRefusal(GameEngine.LivingTarget(g.players, found.value.id).error))
  {
    var g := s.game.value;
    var found := FindPlayerByName(g.players, targetName);
    var r := WolvesVoteStep(s, games, targetName);
    assert r == WolvesTurn(s, games, g, targetName);
    if found.None? {
      assert r == Refuse(s, games, NotFound(targetName));
    } else if found.value.status == Dead {
      assert r == Refuse(s, games, AlreadyDead(found.value.name));
    } else {
      assert r == WolvesVoteAt(s, games, g, found.value);
    }
  }


  /** The witch never acts in the seer's turn: refused, nothing changes. */
  lemma WitchWaitsForSeer(s: Session, games: map<string, GameDoc>, heal: bool, poisonTarget: Option<string>)
    requires Indexed(games) && Coherent(s, games) && HasGame(s) && s.game.value.phase == NightSeer
    ensures WitchActionStep(s, games, heal, poisonTarget) == Refuse(s, games, WitchBeforeSeer)
  {
  }

  /** In the wolves' turn the witch waits while a wolf lives; with none left, the stored game
      first moves to the witch's turn, and a refused action leaves it there. */
  lemma WitchSkipsOnlyWithoutWolves(s: Session, games: map<string, GameDoc>, heal: bool, poisonTarget: Option<string>)
    requires Indexed(games) && Coherent(s, games) && HasGame(s) && s.game.value.phase == NightWolves
    ensures var r := WitchActionStep(s, games, heal, poisonTarget);
            && (LivingWithRole(s.game.value.players, Wolf).Some? ==> r == Refuse(s, games, WitchBeforeWolves))
            && (LivingWithRole(s.game.value.players, Wolf).None? && !r.outcome.Done? ==>
                  r.games == PhaseSet(games, s.game.value.code, NightWitch))
  {
  }

  /** The id the witch's poison goes to: that of the player a non-empty name finds. */
  function PoisonChoice(g: GameDoc, poisonTarget: Option<string>): Option<PlayerId>
  {
    if poisonTarget.Some? && poisonTarget.value != "" && FindPlayerByName(g.players, poisonTarget.value).Some?
    then Some(FindPlayerByName(g.players, poisonTarget.value).value.id)
    else None
  }

  /** In the witch's turn a poison target's name must find a player; past that check the
      action goes through exactly when the engine accepts the potions, and the engine's
      refusal is passed on otherwise. A refused action leaves the store unchanged; an
      accepted one stores the game as the engine left it, with no pending kill and in the
      day, or ended when the night's deaths finished it. */
  lemma WitchActionEndsNight(s: Session, games: map<string, GameDoc>, heal: bool, poisonTarget: Option<string>)
    requires Indexed(games) && Coherent(s, games) && HasGame(s) && s.game.value.phase == NightWitch
    ensures var g := s.game.value;
            var unknown := poisonTarget.Some? && poisonTarget.value != "" && FindPlayerByName(g.players, poisonTarget.value).None?;
            var out := GameEngine.WitchOutcome(g, heal, PoisonChoice(g, poisonTarget));
            var r := WitchActionStep(s, games, heal, poisonTarget);
            && (unknown ==> r == Refuse(s, games, NotAPlayer(poisonTarget.value)))
            && (r.outcome.Done? <==> !unknown && out.1.Ok?)
            && (!unknown && out.1.Err? ==> r.outcome == EngineRefusal(out.1.error))
            && (!r.outcome.Done? ==> r.games == games)
            && (r.outcome.Done? ==>
                  && r.games[g.code] == Settled(out.0)
                  && r.games[g.code].lastKilled == None
                  && r.games[g.code].phase in {Day, Ended})
  {
    var g := s.game.value;
    var r := WitchActionStep(s, games, heal, poisonTarget);
    assert r == WitchTurn(s, games, g, heal, poisonTarget);
    var id := PoisonChoice(g, poisonTarget);
    var named := poisonTarget.Some? && poisonTarget.value != "";
    if named && FindPlayerByName(g.players, poisonTarget.value).None? {
      assert r == Refuse(s, games, NotAPlayer(poisonTarget.value));
    } else {
      if named {
        assert r == WitchApplied(s, games, g, heal, id, FindPlayerByName(g.players, poisonTarget.value).value.name);
      } else {
        assert r == WitchApplied(s, games, g, heal, id, "");
      }
      var out := GameEngine.WitchOutcome(g, heal, id);
      GameEngine.WitchEvolves(g, heal, id);
      GameEngine.WitchOutcomeState(g, heal, id);
    }
  }

  /** Who is dead in the stored game after an accepted witch action: exactly those dead
      before, the first holder of an accepted poison target's id, and the first holder of
      the unhealed pending kill's id; nobody else's status changes. */
  lemma WitchActionKills(s: Session, games: map<string, GameDoc>, heal: bool, poisonTarget: Option<string>)
    requires Indexed(games) && Coherent(s, games) && HasGame(s) && s.game.value.phase == NightWitch
    ensures var g := s.game.value;
            var r := WitchActionStep(s, games, heal, poisonTarget);
            r.outcome.Done? ==>
              && |r.games[g.code].players| == |g.players|
              && forall k :: 0 <= k < |g.players| ==>
                   && r.games[g.code].players[k] == g.players[k].(status := r.games[g.code].players[k].status)
                   && (r.games[g.code].players[k].status == Dead <==> GameEngine.DiesAt(g, heal, PoisonChoice(g, poisonTarget), true, k))
  {
    var g := s.game.value;
    WitchActionEndsNight(s, games, heal, poisonTarget);
    GameEngine.WitchOutcomeStatuses(g, heal, PoisonChoice(g, poisonTarget));
  }

  /** Announcing the day is the witch passing: only in her turn, and when accepted the
      stored game has no pending kill, the potions as they were, and is in the day unless
      the night's kill finished it. */
  lemma AdvanceToDayPasses(s: Session, games: map<string, GameDoc>)
    requires Indexed(games) && Coherent(s, games)
    ensures var r := AdvanceToDayStep(s, games);
            && (HasGame(s) && s.game.value.phase != NightWitch ==>
                  r == Refuse(s, games, DayBeforeWitch))
            && (r.outcome.Done? ==>
                  var g := s.game.value;
                  && r.games[g.code].lastKilled == None
                  && r.games[g.code].potions == g.potions
                  && r.games[g.code].phase in {Day, Ended})
  {
    var r := AdvanceToDayStep(s, games);
    if HasGame(s) && s.game.value.phase != NightWitch {
      assert r == Refuse(s, games, DayBeforeWitch);
    } else if HasGame(s) {
      AdvanceToDaySettles(s, games);
      GameEngine.WitchOutcomeState(s.game.value, false, None);
    }
  }

  /** In the witch's turn the day comes exactly when there is no pending kill or a player
      holds its id; otherwise the engine's "not found" is passed on and the store is
      unchanged. The stored game is then the one the witch's passing leaves, ended when
      the game is over. */
  lemma AdvanceToDaySettles(s: Session, games: map<string, GameDoc>)
    requires Indexed(games) && Coherent(s, games) && HasGame(s) && s.game.value.phase == NightWitch
    ensures var g := s.game.value;
            var r := AdvanceToDayStep(s, games);
            && (r.outcome.Done? <==>
                  g.lastKilled.None? || exists k :: 0 <= k < |g.players| && g.players[k].id == g.lastKilled.value)
            && (!r.outcome.Done? ==> r.games == games && r.outcome == Refused(GameEngine.PlayerNotFound))
            && (r.outcome.Done? ==>
                  r.outcome.message == VillageWakes && r.games[g.code] == Settled(GameEngine.WitchOutcome(g, false, None).0))
  {
    var g := s.game.value;
    GameEngine.WitchRefusesExactly(g, false, None);
    if g.lastKilled.Some? {
      var e := GameEngine.GetPlayer(g.players, g.lastKilled.value);
    }
  }

  /** Who is dead in the stored game once the day comes: exactly those dead before and the
      first holder of the pending kill's id; nobody else's status changes. */
  lemma AdvanceToDayKills(s: Session, games: map<string, GameDoc>)
    requires Indexed(games) && Coherent(s, games) && HasGame(s) && s.game.value.phase == NightWitch
    ensures var g := s.game.value;
            var r := AdvanceToDayStep(s, games);
            r.outcome.Done? ==>
              && |r.games[g.code].players| == |g.players|
              && forall k :: 0 <= k < |g.players| ==>
                   && r.games[g.code].players[k] == g.players[k].(status := r.games[g.code].players[k].status)
                   && (r.games[g.code].players[k].status == Dead <==>
                         g.players[k].status == Dead || (g.lastKilled.Some? && GameEngine.IsFirstWithId(g.players, g.lastKilled.value, k)))
  {
    var g := s.game.value;
    var r := AdvanceToDayStep(s, games);
    AdvanceToDaySettles(s, games);
    if r.outcome.Done? {
      var ps := GameEngine.WitchOutcome(g, false, None).0.players;
      assert r.games[g.code].players == ps;
      GameEngine.WitchOutcomeStatuses(g, false, None);
      forall k | 0 <= k < |g.players|
        ensures ps[k].status == Dead <==>
                  g.players[k].status == Dead || (g.lastKilled.Some? && GameEngine.IsFirstWithId(g.players, g.lastKilled.value, k))
      {
        assert ps[k].status == Dead <==> GameEngine.DiesAt(g, false, None, true, k);
      }
    }
  }

  /** A new night starts only from the day, and then the stored game is in the seer's turn
      unless it is over. */
  lemma StartNextNightFromDay(s: Session, games: map<string, GameDoc>)
    requires Indexed(games) && Coherent(s, games)
    ensures var r := StartNextNightStep(s, games);
            && (r.outcome.Done? <==> HasGame(s) && s.game.value.phase == Day)
            && (!r.outcome.Done? ==> r.games == games)
            && (r.outcome.Done? ==> r.games[s.game.value.code].phase in {NightSeer, Ended})
  {
  }

  /** The order of the night's turns. */
  function NightRank(phase: Phase): nat
  {
    match phase
    case NightSeer => 0
    case NightWolves => 1
    case NightWitch => 2
    case _ => 3
  }

  /** The night sequence runs only at night and, on a context in step with the store,
      moves the stored game forward through the night's turns but never past the witch's,
      leaving the context holding the stored game. */
  lemma RunNightStaysInNight(s: Session, games: map<string, GameDoc>)
    requires Indexed(games) && Coherent(s, games)
    requires HasGame(s) ==> s.game.value == games[s.game.value.code]
    ensures var r := RunNightSequenceStep(s, games);
            && (r.outcome.Done? <==> HasGame(s) && IsNight(s.game.value.phase))
            && (!r.outcome.Done? ==> r.session == s && r.games == games)
            && (r.outcome.Done? ==>
                  var c := s.game.value.code;
                  && IsNight(r.games[c].phase)
                  && NightRank(s.game.value.phase) <= NightRank(r.games[c].phase)
                  && r.session.game == Some(r.games[c]))
  {
    if HasGame(s) && IsNight(s.game.value.phase) {
      var n0 := Night(s, games, s.game.value, []);
      SeerStageAdvances(n0);
      WolvesStageAdvances(SeerStage(n0));
    }
  }

  /** The seer's stage keeps the context in step with the store and can only move the night
      forward, to the wolves' turn at most. */
  lemma SeerStageAdvances(n: Night)
    requires NightReady(n) && n.game == n.games[n.game.code] && IsNight(n.game.phase)
    ensures var r := SeerStage(n);
            && r.game.code == n.game.code && r.game == r.games[n.game.code] && IsNight(r.game.phase)
            && NightRank(n.game.phase) <= NightRank(r.game.phase)
            && (n.game.phase == NightSeer ==> r.game.phase != NightWitch)
  {
  }

  /** The wolves' stage likewise, to the witch's turn at most. */
  lemma WolvesStageAdvances(n: Night)
    requires NightReady(n) && n.game == n.games[n.game.code] && IsNight(n.game.phase)
    ensures var r := WolvesStage(n);
            && r.game.code == n.game.code && r.game == r.games[n.game.code] && IsNight(r.game.phase)
            && NightRank(n.game.phase) <= NightRank(r.game.phase)
  {
  }

  /** The skips cascade: with the seer and every wolf dead, one night sequence started in the
      seer's turn brings the stored game to the witch's turn; with the seer alive it changes
      nothing. */
  lemma RunNightCascades(s: Session, games: map<string, GameDoc>)
    requires Indexed(games) && Coherent(s, games) && HasGame(s)
    requires s.game.value == games[s.game.value.code] && s.game.value.phase == NightSeer
    ensures var r := RunNightSequenceStep(s, games);
            var g := s.game.value;
            && (LivingWithRole(g.players, Seer).Some? ==> r.games == games && r.session == s)
            && (LivingWithRole(g.players, Seer).None? && Wolves(AlivePlayers(g.players)) == [] ==>
                  r.games[g.code].phase == NightWitch)
  {
  }

  /** With a bound code the exchange is appended to the stored chat and the returned history
      is the stored one, grown by exactly the user's message and the reply; without one the
      request's history grows by the same two messages and the store is untouched. */
  lemma PersistAppendsExchange(s: Session, games: map<string, GameDoc>, userMessage: string, chatHistory: seq<ChatMessage>, reply: string)
    requires Indexed(games)
    ensures var r := Persisted(s, games, userMessage, chatHistory, reply);
            var exchange := [ChatMessage(UserTurn, userMessage), ChatMessage(AssistantTurn, reply)];
            && (Bound(s.gameCode) && s.gameCode.value in games ==>
                  var c := s.gameCode.value;
                  && r.1 == games[c].chatHistory + exchange
                  && r.0 == games[c := games[c].(chatHistory := r.1)]
                  && r.2 == Some(r.0[c]))
            && (Bound(s.gameCode) && s.gameCode.value !in games ==> r == (games, [], None))
            && (!Bound(s.gameCode) ==> r == (games, chatHistory + exchange, None))
  {
    if Bound(s.gameCode) && s.gameCode.value in games {
      var c := s.gameCode.value;
      var exchange := [ChatMessage(UserTurn, userMessage), ChatMessage(AssistantTurn, reply)];
      assert games[c].chatHistory + [exchange[0]] + [exchange[1]] == games[c].chatHistory + exchange;
    }
  }

  // ---------------------------------------------------------------------------------------
  // The context object

  /** `AgentContext`: the request's message and history, the bound code, the loaded game
      object and the actions performed. Each tool method does, on these fields, on the game
      object and on the store, exactly what the tool's step function describes. */
  class AgentContext {
    var userMessage: string
    var chatHistory: seq<ChatMessage>
    var gameCode: Option<string>
    var game: Game?
    var executed: seq<string>
    var errors: seq<string>

    /** The fields a tool reads and writes, as a value. */
    function State(): Session
      reads this, game
    {
      Session(gameCode, if game == null then None else Some(game.Doc()), executed)
    }

    /** The request itself is never changed by a tool. */
    twostate predicate RequestKept()
      reads this
    {
      userMessage == old(userMessage) && chatHistory == old(chatHistory) && errors == old(errors)
    }

    constructor(userMessage: string, chatHistory: seq<ChatMessage>, gameCode: Option<string>)
      ensures State() == Session(gameCode, None, [])
      ensures this.userMessage == userMessage && this.chatHistory == chatHistory && errors == []
    {
      this.userMessage := userMessage;
      this.chatHistory := chatHistory;
      this.gameCode := gameCode;
      game := null;
      executed := [];
      errors := [];
    }

    /** `reload_game`, also what `set_current_context` does before the tools run. */
    method ReloadGame(store: Store)
      modifies this
      ensures RequestKept() && State() == Reloaded(old(State()), store.games)
      ensures game == null || fresh(game)
    {
      if gameCode.Some? && gameCode.value != "" {
        game := store.GetGame(gameCode.value);
      } else {
        game := null;
      }
    }

    /** `_finalize_state` on the loaded game. */
    method FinalizeState(store: Store)
      requires game != null && Indexed(store.games)
      modifies this, store, game
      ensures RequestKept() && (State(), store.games) == Finalized(old(State()), old(store.games))
      ensures game == null || fresh(game)
    {
      var g := game;
      var over := GameEngine.IsGameOver(g.players);
      if over.0 && g.phase != Ended {
        g.phase := Ended;
        store.LogEvent(g.code, BuildEvent("game_over", [("winner", WinnerText(over.1))]));
      }
      store.UpsertGame(g);
      gameCode := Some(g.code);
      ReloadGame(store);
    }

    /** Records `message` among the executed actions and replies with it. */
    method Reply(message: string) returns (out: ToolOutcome)
      modifies this
      ensures out == Done(message) && State() == old(State()).(executed := old(State()).executed + [message])
      ensures RequestKept() && game == old(game)
    {
      executed := executed + [message];
      out := Done(message);
    }

    /** A tool that got through: finalize the game and reply. */
    method Close(store: Store, message: string) returns (out: ToolOutcome)
      requires game != null && Indexed(store.games)
      modifies this, store, game
      ensures RequestKept()
      ensures Step(State(), store.games, out) == Finish(old(State()), old(store.games), old(game.Doc()), message)
    {
      FinalizeState(store);
      out := Reply(message);
    }

    /** A tool that got through with one event to log: log it, finalize the game and reply. */
    method Conclude(store: Store, e: Event, message: string) returns (out: ToolOutcome)
      requires game != null && Indexed(store.games)
      modifies this, store, game
      ensures RequestKept()
      ensures Step(State(), store.games, out) == Finish(old(State()), EventLogged(old(store.games), old(game.code), e), old(game.Doc()), message)
    {
      store.LogEvent(game.code, e);
      out := Close(store, message);
    }

    /** An automatic skip: the in-memory game and the stored one move to `phase`, and the
        context reloads. */
    method SkipTo(store: Store, phase: Phase)
      requires Indexed(store.games) && Coherent(State(), store.games) && HasGame(State())
      modifies this, store, game
      ensures RequestKept() && (State(), store.games) == SkippedTo(old(State()), old(store.games), phase)
      ensures game != null && fresh(game)
    {
      game.phase := phase;
      store.SetPhase(game.code, phase);
      ReloadGame(store);
    }

    method CreateGame(store: Store, code: Option<string>, generated: string) returns (out: ToolOutcome)
      requires Indexed(store.games) && Coherent(State(), store.games)
      modifies this, store
      ensures RequestKept()
      ensures Step(State(), store.games, out) == CreateGameStep(old(State()), old(store.games), code, generated)
    {
      var chosen := generated;
      if code.Some? && code.value != "" {
        var candidate := Upper(Strip(code.value));
        if !ValidateGameCode(candidate) {
          return Refused(InvalidRequestedCode);
        }
        chosen := candidate;
      }
      out := CreateUnder(store, chosen);
    }

    /** Stores a fresh game under `c`, logs its creation and binds it. */
    method CreateUnder(store: Store, c: string) returns (out: ToolOutcome)
      requires Indexed(store.games) && Coherent(State(), store.games)
      modifies this, store
      ensures RequestKept()
      ensures Step(State(), store.games, out) == CreatedUnder(old(State()), old(store.games), c)
    {
      var created := store.CreateGame(c);
      if created.Err? {
        return Raised(created.error);
      }
      store.LogEvent(c, GameCreated(c));
      gameCode := Some(c);
      game := created.value;
      out := Reply(Created(c));
    }

    method JoinGame(store: Store, code: string) returns (out: ToolOutcome)
      requires Indexed(store.games) && Coherent(State(), store.games)
      modifies this
      ensures RequestKept()
      ensures Step(State(), store.games, out) == JoinGameStep(old(State()), store.games, code)
    {
      var normalized := Upper(Strip(code));
      if !ValidateGameCode(normalized) {
        return Refused(InvalidJoinCode);
      }
      var g := store.GetGame(normalized);
      if g == null {
        return Refused(UnknownCode);
      }
      gameCode := Some(normalized);
      game := g;
      out := Reply(Joined(normalized));
    }

    method AddPlayer(store: Store, name: string, newId: PlayerId) returns (out: ToolOutcome)
      requires Indexed(store.games) && Coherent(State(), store.games)
      modifies this, store
      ensures RequestKept()
      ensures Step(State(), store.games, out) == AddPlayerStep(old(State()), old(store.games), name, newId)
    {
      if !(gameCode.Some? && gameCode.value != "" && game != null) {
        return Refused(NoActiveGame);
      }
      var g := game;
      var playerName := Strip(name);
      if playerName == "" {
        return Refused(NameMissing);
      }
      if FindPlayerByName(g.players, playerName).Some? {
        return Refused(AlreadyRegistered(playerName));
      }
      out := RegisterAs(store, g.code, playerName, newId);
    }

    /** Stores the player in the game `code`, logs the event and reloads. */
    method RegisterAs(store: Store, code: string, playerName: string, newId: PlayerId) returns (out: ToolOutcome)
      requires Indexed(store.games)
      modifies this, store
      ensures RequestKept()
      ensures Step(State(), store.games, out) == Registered(old(State()), old(store.games), code, playerName, newId)
    {
      ghost var s0, games0 := State(), store.games;
      var added := StoreNewPlayer(store, code, playerName, newId);
      if added.Err? {
        return Raised(added.error);
      }
      ghost var logged := store.games;
      ReloadGame(store);
      assert Registered(s0, games0, code, playerName, newId) == Succeed(State(), logged, JoinsGame(playerName));
      out := Reply(JoinsGame(playerName));
    }

    method RemovePlayer(store: Store, name: string) returns (out: ToolOutcome)
      requires Indexed(store.games) && Coherent(State(), store.games)
      modifies this, store
      ensures RequestKept()
      ensures Step(State(), store.games, out) == RemovePlayerStep(old(State()), old(store.games), name)
    {
      if !(gameCode.Some? && gameCode.value != "" && game != null) {
        return Refused(NoActiveGame);
      }
      var g := game;
      var targetName := Strip(name);
      if targetName == "" {
        return Refused(RemoveWhom);
      }
      var player := FindPlayerByName(g.players, targetName);
      if player.None? {
        return Refused(NotRegistered(targetName));
      }
      assert RemovePlayerStep(State(), store.games, name) == Withdrawn(State(), store.games, g.code, player.value);
      out := Withdraw(store, g.code, player.value);
    }

    /** The removal itself: pull the player, log `player_removed`, reload and reply. */
    method Withdraw(store: Store, code: string, p: Player) returns (out: ToolOutcome)
      requires Indexed(store.games)
      modifies this, store
      ensures RequestKept()
      ensures Step(State(), store.games, out) == Withdrawn(old(State()), old(store.games), code, p)
    {
      store.RemovePlayer(code, p.id);
      store.LogEvent(code, BuildEvent("player_removed", [("name", p.name)]));
      ReloadGame(store);
      out := Reply(RemovedFrom(p.name));
    }

    /** `tool_list_players`, building the lines one player at a time. */
    method ListPlayers() returns (out: ToolOutcome)
      modifies this
      ensures RequestKept()
      ensures (State(), out) == ListPlayersStep(old(State()))
    {
      if !(gameCode.Some? && gameCode.value != "" && game != null) {
        return Refused(NoActiveGame);
      }
      var g := game;
      if g.players == [] {
        return Done(NoPlayersYet);
      }
      var lines := ListLines(g.players, g.phase);
      executed := executed + [PlayersListed];
      out := Done(PlayersHeader + Join("\n", lines));
    }

    method AssignRoles(store: Store, draw: Roles.DrawSource, seed: Option<int>) returns (out: ToolOutcome)
      requires Indexed(store.games) && Coherent(State(), store.games)
      modifies this, store, game
      ensures RequestKept()
      ensures Step(State(), store.games, out) == AssignRolesStep(old(State()), old(store.games), draw, seed)
    {
      if !(gameCode.Some? && gameCode.value != "" && game != null) {
        return Refused(NoActiveGame);
      }
      var g := game;
      if |g.players| < 5 {
        return Refused(TooFewPlayers);
      }
      ghost var s0, d := State(), g.Doc();
      var assignments := GameEngine.AssignRoles(g, draw, seed);
      assert State() == s0.(game := Some(g.Doc()));
      if assignments.Err? {
        return EngineRefusal(assignments.error);
      }
      ghost var logged := EventLogged(store.games, d.code, BuildEvent("roles_assigned", [("players", NatToString(|assignments.value|))]));
      assert AssignRolesStep(s0, store.games, draw, seed) == Finish(State(), logged, g.Doc(), RolesDealt);
      out := Conclude(store, BuildEvent("roles_assigned", [("players", NatToString(|assignments.value|))]), RolesDealt);
    }

    method SeerPeek(store: Store, targetName: string) returns (out: ToolOutcome)
      requires Indexed(store.games) && Coherent(State(), store.games)
      modifies this, store, game
      ensures RequestKept()
      ensures Step(State(), store.games, out) == SeerPeekStep(old(State()), old(store.games), targetName)
    {
      if !(gameCode.Some? && gameCode.value != "" && game != null) {
        return Refused(NoActiveGame);
      }
      var g := game;
      if g.phase != NightSeer {
        return Refused(SeerTurnRefusal(g.phase));
      }
      var target := FindPlayerByName(g.players, targetName);
      if target.None? {
        return Refused(NotAPlayer(targetName));
      }
      out := PeekAt(store, target.value);
    }

    /** The seer's peek at a found target. */
    method PeekAt(store: Store, t: Player) returns (out: ToolOutcome)
      requires Indexed(store.games) && Coherent(State(), store.games) && HasGame(State())
      modifies this, store, game
      ensures RequestKept()
      ensures Step(State(), store.games, out) == SeerPeekAt(old(State()), old(store.games), old(game.Doc()), t)
    {
      var g := game;
      ghost var s0, d := State(), g.Doc();
      var role := GameEngine.SeerPeek(g, t.id);
      ghost var g1 := g.Doc();
      assert State() == s0.(game := Some(g1));
      if role.Err? {
        return EngineRefusal(role.error);
      }
      var e := BuildEvent("seer_peek", [("target", t.name), ("role", RoleName(role.value))]);
      assert SeerPeekAt(s0, store.games, d, t) == Finish(State(), EventLogged(store.games, d.code, e), g1, SeerLearns(t.name, RoleName(role.value)));
      out := Conclude(store, e, SeerLearns(t.name, RoleName(role.value)));
    }

    method WolvesVote(store: Store, targetName: string) returns (out: ToolOutcome)
      requires Indexed(store.games) && Coherent(State(), store.games)
      modifies this, store, game
      ensures RequestKept()
      ensures Step(State(), store.games, out) == WolvesVoteStep(old(State()), old(store.games), targetName)
    {
      if !(gameCode.Some? && gameCode.value != "" && game != null) {
        return Refused(NoActiveGame);
      }
      if game.phase == NightSeer {
        if LivingWithRole(game.players, Seer).Some? {
          return Refused(WolvesBeforeSeer);
        }
        SkipTo(store, NightWolves);
      } else if game.phase != NightWolves {
        return Refused(NotWolvesTurn(game.phase));
      }
      out := WolvesTurnAction(store, targetName);
    }

    /** The wolves' turn once the phase is right. */
    method WolvesTurnAction(store: Store, targetName: string) returns (out: ToolOutcome)
      requires Indexed(store.games) && Coherent(State(), store.games) && HasGame(State())
      modifies this, store, game
      ensures RequestKept()
      ensures Step(State(), store.games, out) == WolvesTurn(old(State()), old(store.games), old(game.Doc()), targetName)
    {
      var g := game;
      var target := FindPlayerByName(g.players, targetName);
      if target.None? {
        return Refused(NotFound(targetName));
      }
      if target.value.status != Alive {
        return Refused(AlreadyDead(target.value.name));
      }
      out := VoteAt(store, target.value);
    }

    /** The engine's vote on the living player `t`, then the `wolves_vote` event. */
    method VoteAt(store: Store, t: Player) returns (out: ToolOutcome)
      requires Indexed(store.games) && Coherent(State(), store.games) && HasGame(State())
      modifies this, store, game
      ensures RequestKept()
      ensures Step(State(), store.games, out) == WolvesVoteAt(old(State()), old(store.games), old(game.Doc()), t)
    {
      var g := game;
      ghost var s0, d := State(), g.Doc();
      var voted := GameEngine.WolvesVote(g, t.id);
      ghost var g1 := g.Doc();
      assert State() == s0.(game := Some(g1));
      if voted.Err? {
        return EngineRefusal(voted.error);
      }
      var e := BuildEvent("wolves_vote", [("target", t.name)]);
      assert WolvesVoteAt(s0, store.games, d, t) == Finish(State(), EventLogged(store.games, d.code, e), g1, WolvesTarget(t.name));
      out := Conclude(store, e, WolvesTarget(t.name));
    }

    method WitchAction(store: Store, heal: bool, poisonTarget: Option<string>) returns (out: ToolOutcome)
      requires Indexed(store.games) && Coherent(State(), store.games)
      modifies this, store, game
      ensures RequestKept()
      ensures Step(State(), store.games, out) == WitchActionStep(old(State()), old(store.games), heal, poisonTarget)
    {
      if !(gameCode.Some? && gameCode.value != "" && game != null) {
        return Refused(NoActiveGame);
      }
      if game.phase == NightSeer {
        return Refused(WitchBeforeSeer);
      } else if game.phase == NightWolves {
        if LivingWithRole(game.players, Wolf).Some? {
          return Refused(WitchBeforeWolves);
        }
        SkipTo(store, NightWitch);
      } else if game.phase != NightWitch {
        return Refused(NotWitchTurn(game.phase));
      }
      out := WitchTurnAction(store, heal, poisonTarget);
    }

    /** The witch's turn once the phase is right. */
    method WitchTurnAction(store: Store, heal: bool, poisonTarget: Option<string>) returns (out: ToolOutcome)
      requires Indexed(store.games) && Coherent(State(), store.games) && HasGame(State())
      modifies this, store, game
      ensures RequestKept()
      ensures Step(State(), store.games, out) == WitchTurn(old(State()), old(store.games), old(game.Doc()), heal, poisonTarget)
    {
      var g := game;
      if poisonTarget.Some? && poisonTarget.value != "" {
        var target := FindPlayerByName(g.players, poisonTarget.value);
        if target.None? {
          return Refused(NotAPlayer(poisonTarget.value));
        }
        out := ApplyPotions(store, heal, Some(target.value.id), target.value.name);
      } else {
        out := ApplyPotions(store, heal, None, "");
      }
    }

    /** The potions applied: the victim's name is looked up before the engine runs, the
        events are logged after. */
    method ApplyPotions(store: Store, heal: bool, poisonId: Option<PlayerId>, poisonedName: string) returns (out: ToolOutcome)
      requires Indexed(store.games) && Coherent(State(), store.games) && HasGame(State())
      modifies this, store, game
      ensures RequestKept()
      ensures Step(State(), store.games, out) == WitchApplied(old(State()), old(store.games), old(game.Doc()), heal, poisonId, poisonedName)
    {
      var g := game;
      ghost var s0, games0, d := State(), store.games, g.Doc();
      var savedName: Option<string> := None;
      if heal && g.lastKilled.Some? {
        var victim := PlayerWithId(g.players, g.lastKilled.value);
        if victim.Some? {
          savedName := Some(victim.value.name);
        }
      }
      assert savedName == SavedName(d, heal);
      var killed := GameEngine.WitchAction(g, heal, poisonId);
      GameEngine.WitchEvolves(d, heal, poisonId);
      ghost var g1 := g.Doc();
      assert State() == s0.(game := Some(g1));
      if killed.Err? {
        return EngineRefusal(killed.error);
      }
      ghost var logged := WitchLogged(games0, d.code, heal, NameOr(savedName, "aucun"), poisonedName, g1.players, killed.value);
      assert WitchApplied(s0, games0, d, heal, poisonId, poisonedName) == Finish(State(), logged, g1, WitchDone);
      out := AnnounceWitch(store, heal, NameOr(savedName, "aucun"), poisonedName, killed.value);
    }

    /** The witch's events are logged, then the game is finalised and the reply given. */
    method AnnounceWitch(store: Store, heal: bool, saved: string, poisoned: string, killed: Option<PlayerId>) returns (out: ToolOutcome)
      requires game != null && Indexed(store.games)
      modifies this, store, game
      ensures RequestKept()
      ensures Step(State(), store.games, out)
              == Finish(old(State()), WitchLogged(old(store.games), old(game.code), heal, saved, poisoned, old(game.players), killed), old(game.Doc()), WitchDone)
    {
      LogWitchEvents(store, game.code, heal, saved, poisoned, game.players, killed);
      out := Close(store, WitchDone);
    }

    method AdvanceToDay(store: Store) returns (out: ToolOutcome)
      requires Indexed(store.games) && Coherent(State(), store.games)
      modifies this, store, game
      ensures RequestKept()
      ensures Step(State(), store.games, out) == AdvanceToDayStep(old(State()), old(store.games))
    {
      if !(gameCode.Some? && gameCode.value != "" && game != null) {
        return Refused(NoActiveGame);
      }
      var g := game;
      if g.phase != NightWitch {
        return Refused(DayBeforeWitch);
      }
      ghost var d := g.Doc();
      var killed := GameEngine.WitchAction(g, false, None);
      GameEngine.WitchEvolves(d, false, None);
      if killed.Err? {
        return EngineRefusal(killed.error);
      }
      if killed.value.Some? {
        var victim := PlayerWithId(g.players, killed.value.value);
        if victim.Some? {
          store.LogEvent(g.code, BuildEvent("player_killed", [("name", victim.value.name)]));
        }
      }
      out := Conclude(store, BuildEvent("night_finished", []), VillageWakes);
    }

    method StartNextNight(store: Store) returns (out: ToolOutcome)
      requires Indexed(store.games) && Coherent(State(), store.games)
      modifies this, store, game
      ensures RequestKept()
      ensures Step(State(), store.games, out) == StartNextNightStep(old(State()), old(store.games))
    {
      if !(gameCode.Some? && gameCode.value != "" && game != null) {
        return Refused(NoActiveGame);
      }
      var g := game;
      var started := GameEngine.StartNextNight(g);
      if started.Err? {
        return EngineRefusal(started.error);
      }
      out := Conclude(store, BuildEvent("night_started", []), NightFalls);
    }

    method GameStatus(store: Store) returns (out: ToolOutcome)
      requires Indexed(store.games) && Coherent(State(), store.games)
      modifies this
      ensures RequestKept()
      ensures Step(State(), store.games, out) == GameStatusStep(old(State()), store.games)
    {
      if !(gameCode.Some? && gameCode.value != "" && game != null) {
        return Refused(NoActiveGame);
      }
      ReloadGame(store);
      var g := game;
      executed := executed + [StatusShown];
      out := Done(StatusText(g.Doc()));
    }

    /** Logs the witch's events, one at a time. */
    method LogWitchEvents(store: Store, code: string, heal: bool, saved: string, poisoned: string,
                          ps: seq<Player>, killed: Option<PlayerId>)
      requires Indexed(store.games)
      modifies store
      ensures store.games == WitchLogged(old(store.games), code, heal, saved, poisoned, ps, killed)
    {
      if heal {
        store.LogEvent(code, BuildEvent("witch_heal", [("saved", saved)]));
      }
      if poisoned != "" {
        store.LogEvent(code, BuildEvent("witch_poison", [("target", poisoned)]));
      }
      if killed.Some? {
        var victim := PlayerWithId(ps, killed.value);
        if victim.Some? {
          store.LogEvent(code, BuildEvent("player_killed", [("name", victim.value.name)]));
        }
      }
    }

    method RunNightSequence(store: Store) returns (out: ToolOutcome)
      requires Indexed(store.games) && Coherent(State(), store.games)
      modifies this, store, game
      ensures RequestKept()
      ensures Step(State(), store.games, out) == RunNightSequenceStep(old(State()), old(store.games))
    {
      if !(gameCode.Some? && gameCode.value != "" && game != null) {
        return Refused(NoActiveGame);
      }
      if !(game.phase == NightSeer || game.phase == NightWolves || game.phase == NightWitch) {
        return Refused(NotNight);
      }
      var messages := WakeSeer(store, []);
      messages := WakeWolves(store, messages);
      var witchLines := WakeWitch(game.Doc());
      messages := messages + witchLines;
      out := Done(Join("\n", messages));
    }

    /** The seer's stage of the night sequence. */
    method WakeSeer(store: Store, messages: seq<string>) returns (m: seq<string>)
      requires Indexed(store.games) && Coherent(State(), store.games) && HasGame(State())
      modifies this, store, game
      ensures RequestKept() && game != null && (game == old(game) || fresh(game))
      ensures Night(State(), store.games, game.Doc(), m) == SeerStage(Night(old(State()), old(store.games), old(game.Doc()), messages))
    {
      m := messages;
      if game.phase == NightSeer {
        var seer := LivingWithRole(game.players, Seer);
        if seer.Some? {
          m := m + [SeerWakes(seer.value.name),
                    SeerUsage];
        } else {
          m := m + [SeerGone];
          SkipTo(store, NightWolves);
        }
      }
    }

    /** The wolves' stage of the night sequence. */
    method WakeWolves(store: Store, messages: seq<string>) returns (m: seq<string>)
      requires Indexed(store.games) && Coherent(State(), store.games) && HasGame(State())
      modifies this, store, game
      ensures RequestKept() && game != null && (game == old(game) || fresh(game))
      ensures Night(State(), store.games, game.Doc(), m) == WolvesStage(Night(old(State()), old(store.games), old(game.Doc()), messages))
    {
      m := messages;
      if game.phase == NightWolves {
        var wolves := Wolves(AlivePlayers(game.players));
        if wolves != [] {
          m := m + [WolvesWake(Join(", ", Names(wolves))),
                    WolvesUsage];
        } else {
          m := m + [WolvesGone];
          SkipTo(store, NightWitch);
        }
      }
    }

    /** `persist_interaction`: the exchange is appended to the stored chat of the bound game
        and read back with it, or, without a bound code, to a copy of the request's history;
        the response carries the reply, the code, the errors and the actions performed. */
    method PersistInteraction(store: Store, reply: string) returns (resp: AgentResponse)
      requires Indexed(store.games)
      modifies store
      ensures (store.games, resp.chatHistory, resp.snapshot) == Persisted(State(), old(store.games), userMessage, chatHistory, reply)
      ensures resp.reply == reply && resp.gameCode == gameCode && resp.errors == errors && resp.executedActions == executed
    {
      var history: seq<ChatMessage>;
      var snapshot: Option<GameDoc> := None;
      if gameCode.Some? && gameCode.value != "" {
        store.AppendChatMessage(gameCode.value, ChatMessage(UserTurn, userMessage));
        store.AppendChatMessage(gameCode.value, ChatMessage(AssistantTurn, reply));
        ghost var c := gameCode.value;
        assert store.games == ChatAppended(ChatAppended(old(store.games), c, ChatMessage(UserTurn, userMessage)), c, ChatMessage(AssistantTurn, reply));
        var stored := store.GetGame(gameCode.value);
        if stored != null {
          snapshot := Some(stored.Doc());
          history := stored.chatHistory;
        } else {
          history := [];
        }
      } else {
        history := chatHistory + [ChatMessage(UserTurn, userMessage)];
        history := history + [ChatMessage(AssistantTurn, reply)];
        assert history == chatHistory + [ChatMessage(UserTurn, userMessage), ChatMessage(AssistantTurn, reply)];
      }
      resp := AgentResponse(reply, gameCode, history, errors, executed, snapshot);
    }
  }
}
