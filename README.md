# Loup-Garou game master — Dafny model

This project models the rules core of the Loup-Garou (Werewolf) game-master assistant.
It covers the following:

- **Validation.** The player, event and game records, with the validators for names, roles, statuses and phases.
- **Helpers.** Game-code validation, alive and role counts, name lookup, the public view of a player, and event formatting.
- **Dealing.** The role quotas and the seeded shuffle that deals them.
- **Game engine.** Seer peek, wolves' vote, witch's potions, next night and end of game.
- **Store.** The game store, as a map from room code to stored game document.
- **Tools.** The tools the conversational agent calls on a request's `AgentContext`, with the context's finalisation and the persistence of the exchange.
- **Narration.** The pure part of the narrator: the narration context built from a game, the rendering of the players, the mock narration and the user message sent to the language model.

The files and modules mirror the source:

| file | module | models |
|---|---|---|
| `strings.dfy` | `Strings` | the `str` operations the core relies on: `strip`, `upper`, `lower`, `capitalize`, `replace`, `join`, `str(int)`, `str(bool)` |
| `schemas.dfy` | `Schemas` | `schemas.py`: enums for roles, statuses and phases with their validators; the `Game` class mutated in place by the engine; `GameDoc`, the stored document |
| `utils.dfy` | `Utils` | `utils.py` |
| `roles.dfy` | `Roles` | `roles.py`: the shuffle is CPython's in-place Fisher–Yates pass over an `array`, drawing from an abstract `DrawSource` |
| `store.dfy` | `Store` | `db.py`: a `Store` class whose `games` map the methods reassign |
| `game_engine.dfy` | `GameEngine` | `game_engine.py`: each operation is a method on `Game`, proved equal to a function on `GameDoc` |
| `agent_runtime.dfy` | `AgentRuntime` | `agent_runtime.py`: each tool is a function `Step` from the context state and the stored games, and a method of the `AgentContext` class proved to match it |
| `llm_gm.dfy` | `LlmGm` | `context_from_game`, `_render_players`, `_mock_narration` and `_build_user_message` |

Things the model fixes or restricts:

- **Player ids** form a subset type of non-empty strings. The source generates them with uuid7, so Python truthiness on an id means it is present.
- **Tool outcomes.** A tool ends with one of three outcomes:
  - `Done(reply)`;
  - `Refused(message)`, for an `AgentToolError`;
  - `Raised(message)`, for an exception the tool does not catch. This covers the duplicate-code `ValueError` of `create_game` and the pydantic rejection of an over-long name.
- **Coherent.** Tools are modelled for a context that agrees with the store: a loaded game is the one the bound code names, and that code is stored. `set_current_context` establishes this by reloading, and every tool keeps it, as each `*Step` function's `ensures` states.

`_finalize_state` writes the whole in-memory game back with `$set`. The stored history therefore becomes the in-memory history. Events logged with `log_event` since the context last reloaded are replaced, for example `seer_peek`, `wolves_vote` and `game_over`. The model does exactly this: see `AgentRuntime.Finalized` and `AgentRuntime.AssignRolesDeals`, whose resulting store is the `Finalized` write applied over the logged store, and `AgentRuntime.FinalizeOverwritesHistory`, which proves that the stored history is the in-memory one.

## Model

| member | source | states |
|---|---|---|
| Strings.Strip | lg_app/services/agent_runtime.py:71 | the result is a slice of the input; everything cut on either side is whitespace; the result neither starts nor ends with whitespace |
| Strings.StripIdempotent | lg_app/services/schemas.py:22-28 | stripping twice is stripping once |
| Strings.StripEmptyIff | lg_app/services/agent_runtime.py:103-105 | a name strips to empty exactly when it is all whitespace |
| Strings.Upper | lg_app/services/agent_runtime.py:87 | same length, each character upper-cased |
| Strings.UpperIdempotent | lg_app/services/agent_runtime.py:87 | upper-casing twice is upper-casing once |
| Strings.Join | lg_app/services/llm_gm.py:39 | joining nothing gives the empty string; joining one part gives that part |
| Strings.JoinEndsWithLast | lg_app/services/llm_gm.py:39 | a join ends with its last part |
| Strings.NatToStringRoundTrip | lg_app/services/agent_runtime.py:159 | the decimal digits written for a count read back as that count |
| Schemas.ValidateRole | lg_app/services/schemas.py:30-36 | accepts exactly the four role names, and the accepted role prints back as the input |
| Schemas.ValidateStatus | lg_app/services/schemas.py:38-44 | accepts exactly "alive" and "dead", and the accepted status prints back as the input |
| Schemas.ValidatePhase | lg_app/services/schemas.py:69-82 | accepts exactly the six phase names, and the accepted phase prints back as the input |
| Schemas.NamesRoundTrip | lg_app/services/schemas.py:30-44 | every role, status and phase name is accepted back as itself |
| Schemas.ValidateName | lg_app/services/schemas.py:20-28 | accepted exactly when the stripped name has 1 to 40 characters; the stored name is the stripped one |
| Schemas.ValidateNameIdempotent | lg_app/services/schemas.py:20-28 | an accepted name validates again to itself |
| Schemas.NewPlayer | lg_app/services/schemas.py:14-18 | a player is created exactly when the name validates, as a living villager with the stripped name |
| Schemas.NewGameDoc | lg_app/services/schemas.py:59-67 | a new game is in the lobby with no players, history or chat, no victim and both potions unused |
| Schemas.Game.FromDoc | lg_app/services/db.py:39-42 | the loaded game's fields are those of the document |
| Utils.ValidateGameCodeIff | lg_app/services/utils.py:17-18 | a code is valid iff it has 6 characters, all ASCII upper-case letters or digits |
| Utils.UpperKeepsCodeValid | lg_app/services/agent_runtime.py:71-72 | upper-casing a valid code keeps it valid and is idempotent |
| Utils.AlivePlayers | lg_app/services/utils.py:21-22 | a player is kept exactly when it is in the list and alive |
| Utils.AlivePlayersAppend | lg_app/services/utils.py:21-22 | the filter distributes over concatenation, so order is preserved |
| Utils.CountRole | lg_app/services/utils.py:25-26 | the count is the multiplicity of the role among the players' roles |
| Utils.CountWolves | lg_app/services/utils.py:29-30 | the count is the multiplicity of the wolf role |
| Utils.WolfSplit | lg_app/services/game_engine.py:119-122 | wolves and non-wolves partition the players, and there are as many wolves as the wolf count |
| Utils.RoleCountsSum | lg_app/services/utils.py:25-26 | the four role counts add up to the number of players |
| Utils.FindPlayerByName | lg_app/services/utils.py:33-38 | none exactly when no name matches case-insensitively after stripping; otherwise the first matching player |
| Utils.FoundPlayerMatches | lg_app/services/utils.py:33-38 | a found player is in the list and its name matches the query |
| Utils.FindIgnoresQueryForm | lg_app/services/utils.py:33-38 | two queries equal after stripping and lower-casing find the same player |
| Utils.ToPublicPlayer | lg_app/services/utils.py:41-51 | id, name and status are kept; the role is shown only when revealed, and is otherwise "hidden", which is not a role |
| Utils.BuildEvent | lg_app/services/utils.py:54-55 | the event carries the given type and payload |
| Utils.PayloadEntries | lg_app/services/utils.py:60 | one `key: value` text per payload entry, in the payload's order |
| Utils.FormatEvent | lg_app/services/utils.py:58-61 | the text starts with the type's title; it is the title alone exactly when the payload is empty, and otherwise the title is followed by " (", the payload's `key: value` entries joined by ", " in order, and ")" |
| Roles.WolfCount | lg_app/services/roles.py:12-17 | 1 to 3 wolves: one up to 6 players, three from 10 |
| Roles.WolfCountMonotone | lg_app/services/roles.py:12-17 | more players never means fewer wolves |
| Roles.RoleDistribution | lg_app/services/roles.py:20-38 | refused below 5 players; otherwise one seer, a witch from 6 players, the wolf count, villagers for the rest, all summing to the player count |
| Roles.BagCounts | lg_app/services/roles.py:46-48 | the bag holds each role exactly its quota of times |
| Roles.BuildBag | lg_app/services/roles.py:46-48 | the loop builds the bag of the distribution |
| Roles.Shuffle | lg_app/services/roles.py:50-52 | the in-place pass leaves the array equal to `Shuffled` of its old contents |
| Roles.Shuffled | lg_app/services/roles.py:50-52 | a shuffle is a permutation and keeps the elements distinct |
| Roles.SwapPermutes | lg_app/services/roles.py:51-52 | each swap is a permutation |
| Roles.PairingFacts | lg_app/services/roles.py:54 | the mapping's keys are the ids, and each id gets the role at its shuffled position |
| Roles.LookupPermutation | lg_app/services/roles.py:54 | looking up a permuted key list gives a permuted value list |
| Roles.AssignmentKeys | lg_app/services/roles.py:41-55 | every player id, and nothing else, receives a role |
| Roles.AssignmentTokens | lg_app/services/roles.py:41-55 | for distinct ids, the roles dealt are exactly the tokens in the bag |
| Roles.AssignmentQuotas | lg_app/services/roles.py:41-55 | for distinct ids, the dealt roles are one seer, a witch from 6 players, the wolf count, and villagers for the rest |
| Roles.AssignRoles | lg_app/services/roles.py:41-55 | refused exactly below 5 players, with the source's message; otherwise the assignment, keyed by exactly the ids |
| Store.WithoutId | lg_app/services/db.py:83-88 | `$pull` keeps exactly the players with a different id |
| Store.WithoutIdIdempotent | lg_app/services/db.py:83-88 | pulling the same id twice is pulling it once |
| Store.Upserted | lg_app/services/db.py:63-70 | the code is stored, with the game; every other code is unchanged |
| Store.Store.CreateGame | lg_app/services/db.py:45-52 | a duplicate code raises and stores nothing; otherwise a fresh lobby game is stored under the code |
| Store.Store.GetGame | lg_app/services/db.py:55-60 | none exactly for an unknown code; otherwise a fresh copy of the stored game |
| Store.Store.UpsertGame | lg_app/services/db.py:63-70 | the store becomes `Upserted` of the old store |
| Store.Store.AddPlayer | lg_app/services/db.py:73-80 | an invalid name raises and stores nothing; otherwise a living villager with the new id is pushed to the game's players |
| Store.Store.RemovePlayer | lg_app/services/db.py:83-88 | the game's players lose the id; a missing code changes nothing |
| Store.Store.SetPhase | lg_app/services/db.py:126-131 | only the phase of that game changes |
| Store.Store.LogEvent | lg_app/services/db.py:156-161 | the event is appended to that game's history |
| Store.Store.AppendChatMessage | lg_app/services/db.py:164-169 | the message is appended to that game's chat history |
| GameEngine.GetPlayer | lg_app/services/game_engine.py:26-30 | fails with the source's message exactly when no player has the id; otherwise the first index with it |
| GameEngine.EnsureAlive | lg_app/services/game_engine.py:33-35 | refuses exactly dead players |
| GameEngine.LivingTarget | lg_app/services/game_engine.py:26-35 | succeeds exactly when the first player with the id is alive; the error is "not found" or "must be alive" |
| GameEngine.AssignRolesOutcome | lg_app/services/game_engine.py:14-23 | refused outside the lobby or below 5 players, leaving the game unchanged; otherwise every player is alive with the dealt role and the phase is night_seer |
| GameEngine.AssignRoles | lg_app/services/game_engine.py:14-23 | the method leaves the game and result given by `AssignRolesOutcome` |
| GameEngine.SeerPeekOutcome | lg_app/services/game_engine.py:38-44 | refused outside night_seer or for a missing or dead target, leaving the game unchanged; otherwise returns the target's role and moves to night_wolves |
| GameEngine.SeerPeek | lg_app/services/game_engine.py:38-44 | the method leaves the game and result given by `SeerPeekOutcome` |
| GameEngine.WolvesVoteOutcome | lg_app/services/game_engine.py:47-54 | refused outside night_wolves or for a missing or dead target; otherwise records the victim and moves to night_witch |
| GameEngine.WolvesVote | lg_app/services/game_engine.py:47-54 | the method leaves the game and result given by `WolvesVoteOutcome` |
| GameEngine.WitchAction | lg_app/services/game_engine.py:57-96 | the in-place method leaves the game and result given by `WitchOutcome` |
| GameEngine.WitchRefusesExactly | lg_app/services/game_engine.py:57-96 | the witch's action fails exactly when one of the source's checks refuses, with that check's message |
| GameEngine.WitchOutcomeState | lg_app/services/game_engine.py:57-96 | a potion is marked used exactly when its use was accepted; success ends in day with no victim and reports the poisoned or unhealed victim; failure keeps the phase, but a heal already applied stays applied |
| GameEngine.WitchOutcomeStatuses | lg_app/services/game_engine.py:76-94 | only statuses change, and a player is dead afterwards exactly when dead before, poisoned, or the unhealed victim |
| GameEngine.WitchEvolves | lg_app/services/game_engine.py:57-96 | code, players' ids, names and roles, and used potions are never undone |
| GameEngine.WitchKeepsRecord | lg_app/services/game_engine.py:57-96 | the witch's action never changes the code, the history or the chat history |
| GameEngine.WitchPoisonAndWolvesBothKill | lg_app/services/game_engine.py:76-94 | without a heal, both the poisoned player and the wolves' victim die |
| GameEngine.WitchHealThenPoisonVictim | lg_app/services/game_engine.py:62-94 | healing and then poisoning the same victim still kills them, and uses both potions |
| GameEngine.WitchRefusedPoisonKeepsHeal | lg_app/services/game_engine.py:62-82 | a refused poison after an accepted heal keeps the heal applied and the phase unchanged |
| GameEngine.StartNightOutcome | lg_app/services/game_engine.py:99-102 | allowed exactly from day, and then only the phase becomes night_seer |
| GameEngine.StartNextNight | lg_app/services/game_engine.py:99-102 | the method leaves the game and result given by `StartNightOutcome` |
| GameEngine.IsGameOver | lg_app/services/game_engine.py:105-116 | the village wins exactly when no wolf is alive; the wolves win exactly when living wolves at least equal the others; otherwise the game goes on |
| GameEngine.LivingRolesSummary | lg_app/services/game_engine.py:119-122 | living wolves and living non-wolves, which add up to the living players |
| GameEngine.DealtGameNotOver | lg_app/services/game_engine.py:14-23 | a freshly dealt game of distinct players has the quota counts and is not over |
| AgentRuntime.Reloaded | lg_app/services/agent_runtime.py:25-30 | the game is the stored one under a bound code, else none; code and actions are kept |
| AgentRuntime.Finalized | lg_app/services/agent_runtime.py:57-65 | the game is written back, and ended if the game is over; every other code is unchanged; the context binds the code and reloads it |
| AgentRuntime.FinalizeIdempotent | lg_app/services/agent_runtime.py:57-65 | finalising the finalised state changes nothing |
| AgentRuntime.FinalizeEndsFinishedGames | lg_app/services/agent_runtime.py:58-61 | the stored phase is ended exactly when the game is over or had already ended; players are unchanged |
| AgentRuntime.FinalizeOverwritesHistory | lg_app/services/agent_runtime.py:57-65 | the stored history becomes the in-memory one, so a game ended here keeps no `game_over` event unless the in-memory history had one |
| AgentRuntime.CreateGameBindsCode | lg_app/services/agent_runtime.py:68-82 | an invalid requested code is refused, and a taken code raises, both changing nothing; otherwise a new lobby game is stored with its game_created event and the context binds it |
| AgentRuntime.CreatedUnderBinds | lg_app/services/agent_runtime.py:77-82 | creating under a chosen code is never refused; it raises exactly when the code is taken, changing nothing; otherwise the lobby game with its game_created event is stored and bound |
| AgentRuntime.JoinGameStep | lg_app/services/agent_runtime.py:85-97 | succeeds exactly when the normalised code is valid and stored; it then binds that code and its stored game, and never writes the store |
| AgentRuntime.AddPlayerRegisters | lg_app/services/agent_runtime.py:100-113 | succeeds exactly with a game, a stripped name of 1 to 40 characters and no player of that name; then the villager and the player_added event are stored and reloaded |
| AgentRuntime.StoreNewPlayer | lg_app/services/agent_runtime.py:108-109 | fails exactly when the name does not validate, with the validator's message and the store unchanged; otherwise the new villager and then the player_added event are pushed |
| AgentRuntime.RemovePlayerStep | lg_app/services/agent_runtime.py:116-130 | succeeds exactly with a game and a name that finds a player; then exactly that player's id is pulled |
| AgentRuntime.ShownRole | lg_app/services/agent_runtime.py:141 | the role is masked exactly for a living player of a game not ended |
| AgentRuntime.ListPlayersStep | lg_app/services/agent_runtime.py:133-145 | refused without a game; an empty lobby is reported without recording an action; otherwise one line per player, with the action recorded |
| AgentRuntime.ListLines | lg_app/services/agent_runtime.py:138-142 | the loop builds one line per player, in order, each that player's `PlayerLine` |
| AgentRuntime.AssignRolesDeals | lg_app/services/agent_runtime.py:148-164 | refused without a game, below 5 players, or outside the lobby, changing nothing; otherwise the dealt game is finalised over the store carrying the roles_assigned event |
| AgentRuntime.SeerPeekNeverSkips | lg_app/services/agent_runtime.py:172-178 | outside night_seer the seer's tool is refused with the message for the phase |
| AgentRuntime.SeerPeekReveals | lg_app/services/agent_runtime.py:167-191 | in night_seer the peek succeeds exactly when the name finds a player and the first player with its id is alive; an unknown name and the engine's refusals are refused, storing nothing; a success reveals that player's role and stores the game in night_wolves, or ended |
| AgentRuntime.WolvesVoteWaitsForSeer | lg_app/services/agent_runtime.py:199-202 | in night_seer with a living seer the wolves are refused and nothing changes |
| AgentRuntime.WolvesVoteSkipPersists | lg_app/services/agent_runtime.py:203-216 | with the seer dead the phase skip to night_wolves is stored even when the vote is then refused |
| AgentRuntime.WolvesVoteRecordsVictim | lg_app/services/agent_runtime.py:212-225 | in night_wolves the vote succeeds exactly when the name finds a living player whose id's first holder is alive; the stored game then has that id as the pending kill and is in night_witch, or ended |
| AgentRuntime.WolvesVoteRefusals | lg_app/services/agent_runtime.py:212-220 | in night_wolves an unknown name is refused as not found and a dead player as already eliminated; the engine's refusal is passed on; none of these writes the store |
| AgentRuntime.WitchWaitsForSeer | lg_app/services/agent_runtime.py:233-234 | in night_seer the witch is refused |
| AgentRuntime.WitchSkipsOnlyWithoutWolves | lg_app/services/agent_runtime.py:235-244 | in night_wolves the witch is refused while a wolf lives; otherwise the skip to night_witch is stored even if the potions then fail |
| AgentRuntime.WitchApplied | lg_app/services/agent_runtime.py:255-275 | failure leaves the store unchanged; success stores no victim and day or ended (the success condition and the deaths are in `WitchActionEndsNight` and `WitchActionKills`) |
| AgentRuntime.WitchActionEndsNight | lg_app/services/agent_runtime.py:245-275 | in night_witch a poison name that finds nobody is refused; otherwise the action succeeds exactly when the engine accepts the potions, whose refusal is passed on; a refusal stores nothing, a success stores the game the engine left, with no victim, in day or ended |
| AgentRuntime.WitchActionKills | lg_app/services/agent_runtime.py:245-275 | after a successful witch action a stored player is dead exactly when dead before, the accepted poison target, or the unhealed victim; only statuses change |
| AgentRuntime.AdvanceToDayPasses | lg_app/services/agent_runtime.py:278-295 | refused outside night_witch; success clears the victim, keeps the potions and reaches day or ended |
| AgentRuntime.AdvanceToDaySettles | lg_app/services/agent_runtime.py:278-295 | in night_witch the day comes exactly when there is no pending kill or a player has its id; otherwise "not found" is refused and nothing is stored; on success the game the witch's passing leaves is stored, ended if over |
| AgentRuntime.AdvanceToDayKills | lg_app/services/agent_runtime.py:278-295 | once the day comes, a stored player is dead exactly when dead before or the first player with the pending kill's id; only statuses change |
| AgentRuntime.StartNextNightFromDay | lg_app/services/agent_runtime.py:360-371 | succeeds exactly from day, reaching night_seer or ended; a failure changes nothing |
| AgentRuntime.GameStatusStep | lg_app/services/agent_runtime.py:374-388 | refused without a game; otherwise reloads, reports the stored game's status and records the action, without writing |
| AgentRuntime.RunNightStaysInNight | lg_app/services/agent_runtime.py:298-357 | runs exactly in a night phase; the game stays in the night and never moves back |
| AgentRuntime.SeerStageAdvances | lg_app/services/agent_runtime.py:308-320 | the seer's stage only moves forward, and never past night_wolves |
| AgentRuntime.WolvesStageAdvances | lg_app/services/agent_runtime.py:322-335 | the wolves' stage only moves forward within the night |
| AgentRuntime.RunNightCascades | lg_app/services/agent_runtime.py:309-335 | a living seer stops the sequence without writing; a dead seer and no living wolf cascade to night_witch |
| AgentRuntime.WakeWitch | lg_app/services/agent_runtime.py:338-355 | the lines announced for the witch's stage are those of `WitchCall` |
| AgentRuntime.NoActiveGameRefused | lg_app/services/agent_runtime.py:51-54 | every game tool is refused with the same message when no game is loaded |
| AgentRuntime.CreatedGameJoinable | lg_app/services/agent_runtime.py:68-97 | a created room can be joined by its normalised code and yields the stored game |
| AgentRuntime.PersistAppendsExchange | lg_app/services/agent_runtime.py:418-449 | with a stored code the two messages are appended to the stored chat, which is returned with the snapshot; with an unstored code the history is empty; with no code the exchange is appended to the request's history |
| AgentRuntime.AgentContext.constructor | lg_app/services/agent_runtime.py:16-23 | a new context binds the requested code, holds no game and has no actions |
| AgentRuntime.AgentContext.ReloadGame | lg_app/services/agent_runtime.py:25-30 | the context becomes `Reloaded` of its old state |
| AgentRuntime.AgentContext.FinalizeState | lg_app/services/agent_runtime.py:57-65 | context and store become `Finalized` of the old ones |
| AgentRuntime.AgentContext.CreateGame | lg_app/services/agent_runtime.py:68-82 | context, store and outcome are those of `CreateGameStep` |
| AgentRuntime.AgentContext.CreateUnder | lg_app/services/agent_runtime.py:77-82 | context, store and outcome are those of `CreatedUnder` |
| AgentRuntime.AgentContext.JoinGame | lg_app/services/agent_runtime.py:85-97 | context and outcome are those of `JoinGameStep` |
| AgentRuntime.AgentContext.AddPlayer | lg_app/services/agent_runtime.py:100-113 | context, store and outcome are those of `AddPlayerStep` |
| AgentRuntime.AgentContext.RegisterAs | lg_app/services/agent_runtime.py:108-113 | context, store and outcome are those of `Registered` |
| AgentRuntime.AgentContext.RemovePlayer | lg_app/services/agent_runtime.py:116-130 | context, store and outcome are those of `RemovePlayerStep` |
| AgentRuntime.AgentContext.ListPlayers | lg_app/services/agent_runtime.py:133-145 | the loop's context and outcome are those of `ListPlayersStep` |
| AgentRuntime.AgentContext.AssignRoles | lg_app/services/agent_runtime.py:148-164 | context, store and outcome are those of `AssignRolesStep` |
| AgentRuntime.AgentContext.SeerPeek | lg_app/services/agent_runtime.py:167-191 | context, store and outcome are those of `SeerPeekStep` |
| AgentRuntime.AgentContext.PeekAt | lg_app/services/agent_runtime.py:183-191 | context, store and outcome are those of `SeerPeekAt` |
| AgentRuntime.AgentContext.WolvesVote | lg_app/services/agent_runtime.py:194-225 | context, store and outcome are those of `WolvesVoteStep` |
| AgentRuntime.AgentContext.VoteAt | lg_app/services/agent_runtime.py:217-225 | context, store and outcome are those of `WolvesVoteAt` |
| AgentRuntime.AgentContext.WitchAction | lg_app/services/agent_runtime.py:228-275 | context, store and outcome are those of `WitchActionStep` |
| AgentRuntime.AgentContext.LogWitchEvents | lg_app/services/agent_runtime.py:264-271 | the store becomes `WitchLogged` of the old one: the heal, poison and kill events, each only when it applies |
| AgentRuntime.AgentContext.AdvanceToDay | lg_app/services/agent_runtime.py:278-295 | context, store and outcome are those of `AdvanceToDayStep` |
| AgentRuntime.AgentContext.RunNightSequence | lg_app/services/agent_runtime.py:298-357 | context, store and outcome are those of `RunNightSequenceStep` |
| AgentRuntime.AgentContext.WakeSeer | lg_app/services/agent_runtime.py:309-320 | context, store and messages are those of `SeerStage` |
| AgentRuntime.AgentContext.WakeWolves | lg_app/services/agent_runtime.py:323-335 | context, store and messages are those of `WolvesStage` |
| AgentRuntime.AgentContext.StartNextNight | lg_app/services/agent_runtime.py:360-371 | context, store and outcome are those of `StartNextNightStep` |
| AgentRuntime.AgentContext.GameStatus | lg_app/services/agent_runtime.py:374-388 | context and outcome are those of `GameStatusStep` |
| AgentRuntime.AgentContext.PersistInteraction | lg_app/services/agent_runtime.py:418-449 | store, returned history and snapshot are those of `Persisted`; reply, code, errors and actions are copied into the response |
| LlmGm.ContextFromGame | lg_app/services/llm_gm.py:129-165 | without a game the phase is "inactive", with no players, events or potions; with one, its phase name and potions |
| LlmGm.BuildContext | lg_app/services/llm_gm.py:138-147 | the loop builds `ContextFromGame` |
| LlmGm.BuildEntries | lg_app/services/llm_gm.py:138-147 | the loop builds `PlayerEntries`: one entry per player, in order |
| LlmGm.EntriesHideRoles | lg_app/services/llm_gm.py:139-147 | each entry keeps id, name and status, and shows the role exactly for the dead or once the game has ended |
| LlmGm.ContextHidesRoles | lg_app/services/llm_gm.py:138-147 | one entry per player with its id, name and status; the role is shown exactly for the dead or once the game has ended, and is then the player's role |
| LlmGm.ContextRecentEvents | lg_app/services/llm_gm.py:149-150 | the last five events (fewer if fewer exist), formatted in order; the last event, or the default text for an empty history |
| LlmGm.RecentEventsAre | lg_app/services/llm_gm.py:149 | the last five events (fewer if fewer exist), formatted in order |
| LlmGm.ContextWinner | lg_app/services/llm_gm.py:151-164 | a winner is present exactly when the game is over: the village when no wolf lives, the wolves when they match the others |
| LlmGm.RenderPlayers | lg_app/services/llm_gm.py:33-39 | the loop's text is `PlayersText` |
| LlmGm.PlayersTextEmptyIff | lg_app/services/llm_gm.py:39 | "Aucun joueur" appears exactly for an empty list |
| LlmGm.RenderedRolesHidden | lg_app/services/llm_gm.py:37 | a player's rendered role is "?" exactly when it is not revealed, and otherwise the role's name |
| LlmGm.MockNarration | lg_app/services/llm_gm.py:42-49 | starts with the phase header and ends with the last event |
| LlmGm.UserMessageLines | lg_app/services/llm_gm.py:66-93 | six lines with recent events, five without, the last being the phase's instruction |
| LlmGm.UserMessageShape | lg_app/services/llm_gm.py:72-93 | at most the last three events, in order, as bullets; exactly one instruction line, the last |
| LlmGm.EndedGameAnnouncesWinner | lg_app/services/llm_gm.py:87-89 | for the "ended" phase the instruction announces the winner the context names, or "inconnu" when it names none |

## Left out

- The MongoDB client, URI, collection and indexes are left out: the store is the `games` map. So are the `db.py` functions no core code calls: `list_players`, `set_role`, `bulk_assign_roles`, `set_status`, `set_last_killed`, `clear_last_killed`, `set_potion_used` and `overwrite_chat_history`.
- The langchain agent, its tool wrappers and the capture of tool errors into `errors` are left out. The Gemini call and its retry, the Streamlit app, `fix_model.py`, `agent_tools.py` and `main.py` are left out too. These are I/O or foreign libraries.
- Randomness:
  - the Mersenne Twister behind `random.Random(seed)` is not modelled: `DrawSource` stands for the values `_randbelow` returns;
  - `generate_game_code` (SystemRandom) and `uuid7` are inputs of the tools.
- Timestamps, the `ContextVar` holding the current context, and concurrent requests are left out.
- Case mapping covers ASCII letters only, with no Unicode case rules.
- Players are values: the engine replaces the player list rather than mutating shared `Player` objects. No player object is shared, so nothing observable differs.
- Pydantic's exceptions are the `Raised` outcome, carrying the validator's message. Their exact text is not modelled.
- Narration contexts are always complete records. A dict with missing keys passed to `_mock_narration` or `_build_user_message` is not modelled. Neither is a player without a role in `_render_players`.
- AgentRuntime.Coherent is a precondition of the tools, not something proved about arbitrary contexts. `set_current_context` establishes it, and every tool preserves it.
- Roles.AssignmentQuotas and Roles.AssignmentTokens assume distinct player ids. For repeated ids the dict comprehension keeps the last role, which the model computes but about which no quota is stated.
- LlmGm.MockNarration states the fixed head and the last-event tail. It does not state the rendered players between them, which `RenderPlayers` and `PlayersTextEmptyIff` cover.
- AgentRuntime.SeerPeekStep, AgentRuntime.WolvesVoteStep, AgentRuntime.WitchActionStep, AgentRuntime.AdvanceToDayStep, AgentRuntime.StartNextNightStep and AgentRuntime.RunNightSequenceStep state only that the store keeps its codes and the context stays coherent. When each succeeds, how each refuses and what each stores is stated by the lemmas in the table: SeerPeekReveals, WolvesVoteRecordsVictim, WolvesVoteRefusals, WitchActionEndsNight, WitchActionKills, AdvanceToDaySettles, AdvanceToDayKills, StartNextNightFromDay and RunNightStaysInNight.
