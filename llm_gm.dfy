/** The game master's narration inputs: the context built from a game for the language
    model, where roles stay hidden until a player dies or the game ends, and the texts built
    from that context (the user message sent to the model and the narration used when no
    model is available). The model call itself is not part of this module. */
module LlmGm {
  import opened Strings
  import opened Schemas
  import opened Utils
  import GameEngine

  /** The context `context_from_game` returns. `potions` is absent without a game, and
      `winner` is present only when the game is over. */
  datatype NarrationContext = NarrationContext(
    phase: string,
    players: seq<PublicPlayer>,
    recentEvents: seq<string>,
    lastEvent: string,
    potions: Option<PotionState>,
    winner: Option<string>)

  /** A player's role is revealed to the narrator once the player is dead or the game has
      ended. */
  predicate Revealed(p: Player, phase: Phase)
  {
    p.status == Dead || phase == Ended
  }

  /** The players' entries, in order. */
  function PlayerEntries(ps: seq<Player>, phase: Phase): (r: seq<PublicPlayer>)
    ensures |r| == |ps|
    ensures forall k :: 0 <= k < |ps| ==> r[k] == ToPublicPlayer(ps[k], Revealed(ps[k], phase))
  {
    if ps == [] then [] else [ToPublicPlayer(ps[0], Revealed(ps[0], phase))] + PlayerEntries(ps[1..], phase)
  }

  /** `s[-n:]`: the last `n` elements, or all of them when there are fewer. */
  function LastN<T>(s: seq<T>, n: nat): (r: seq<T>)
    ensures |r| == if |s| < n then |s| else n
    ensures r == s[|s| - |r|..]
  {
    if |s| <= n then s else s[|s| - n..]
  }

  /** Each event formatted, in order. */
  function FormatEvents(es: seq<Event>): (r: seq<string>)
    ensures |r| == |es|
    ensures forall k :: 0 <= k < |es| ==> r[k] == FormatEvent(es[k])
  {
    if es == [] then [] else [FormatEvent(es[0])] + FormatEvents(es[1..])
  }

  const NoRecentEvent: string := "Pas de nouvel événement."

  /** The last five events of a history (or all of them), formatted. */
  function RecentEvents(h: seq<Event>): seq<string>
  {
    if h != [] then FormatEvents(LastN(h, 5)) else []
  }

  /** `context_from_game`. */
  function ContextFromGame(game: Option<GameDoc>): (c: NarrationContext)
    ensures game.None? ==> c.phase == "inactive" && c.players == [] && c.recentEvents == [] && c.potions.None?
    ensures game.Some? ==> c.phase == PhaseName(game.value.phase) && c.potions == Some(game.value.potions)
  {
    match game
    case None => NarrationContext("inactive", [], [], "Aucune partie active.", None, None)
    case Some(g) =>
      var recent := RecentEvents(g.history);
      NarrationContext(PhaseName(g.phase), PlayerEntries(g.players, g.phase), recent, LastEvent(recent),
                       Some(g.potions), Winner(g.players))
  }

  /** The last formatted event, or the default text when there is none. */
  function LastEvent(recent: seq<string>): string
  {
    if recent != [] then recent[|recent| - 1] else NoRecentEvent
  }

  /** The `winner` entry: present only once the game is over. */
  function Winner(ps: seq<Player>): Option<string>
  {
    var over := GameEngine.IsGameOver(ps);
    if over.0 then over.1 else None
  }

  /** `context_from_game`, building the player entries one player at a time. */
  method BuildContext(game: Option<GameDoc>) returns (c: NarrationContext)
    ensures c == ContextFromGame(game)
  {
    if game.None? {
      return NarrationContext("inactive", [], [], "Aucune partie active.", None, None);
    }
    var g := game.value;
    var entries := BuildEntries(g.players, g.phase);
    var recent := if g.history != [] then FormatEvents(LastN(g.history, 5)) else [];
    var last := if recent != [] then recent[|recent| - 1] else NoRecentEvent;
    assert recent == RecentEvents(g.history) && last == LastEvent(recent);
    var over := GameEngine.IsGameOver(g.players);
    c := NarrationContext(PhaseName(g.phase), entries, recent, last, Some(g.potions), None);
    if over.0 {
      c := c.(winner := over.1);
    }
    assert c.winner == Winner(g.players);
  }

  /** The loop of `context_from_game` over the players: one public entry each, in order,
      the role revealed for the dead and once the game has ended. */
  method BuildEntries(ps: seq<Player>, phase: Phase) returns (entries: seq<PublicPlayer>)
    ensures entries == PlayerEntries(ps, phase)
  {
    entries := [];
    var i := 0;
    while i < |ps|
      invariant 0 <= i <= |ps| && |entries| == i
      invariant forall k :: 0 <= k < i ==> entries[k] == ToPublicPlayer(ps[k], Revealed(ps[k], phase))
    {
      entries := entries + [ToPublicPlayer(ps[i], ps[i].status == Dead || phase == Ended)];
      i := i + 1;
    }
  }

  /** Every player gets an entry with its id, name and status; the entry names the real
      role exactly when the player is dead or the game has ended, and "hidden" otherwise. */
  lemma ContextHidesRoles(g: GameDoc)
    ensures var c := ContextFromGame(Some(g));
            && |c.players| == |g.players|
            && forall k :: 0 <= k < |g.players| ==>
                 && c.players[k].id == g.players[k].id && c.players[k].name == g.players[k].name
                 && ValidateStatus(c.players[k].status) == Ok(g.players[k].status)
                 && (c.players[k].role != "hidden" <==> g.players[k].status == Dead || g.phase == Ended)
                 && (c.players[k].role != "hidden" ==> ValidateRole(c.players[k].role) == Ok(g.players[k].role))
  {
    var c := ContextFromGame(Some(g));
    assert c.players == PlayerEntries(g.players, g.phase);
    EntriesHideRoles(g.players, g.phase);
  }

  /** Each public entry keeps the player's id, name and status, and shows the role exactly
      when it is revealed. */
  lemma EntriesHideRoles(ps: seq<Player>, phase: Phase)
    ensures var es := PlayerEntries(ps, phase);
            forall k :: 0 <= k < |ps| ==>
              && es[k].id == ps[k].id && es[k].name == ps[k].name
              && ValidateStatus(es[k].status) == Ok(ps[k].status)
              && (es[k].role != "hidden" <==> ps[k].status == Dead || phase == Ended)
              && (es[k].role != "hidden" ==> ValidateRole(es[k].role) == Ok(ps[k].role))
  {
    var es := PlayerEntries(ps, phase);
    forall k | 0 <= k < |ps|
      ensures es[k].role != "hidden" <==> ps[k].status == Dead || phase == Ended
    {
      assert es[k] == ToPublicPlayer(ps[k], Revealed(ps[k], phase));
    }
  }

  /** The recent events are the last five (or fewer) of the history, formatted, in order;
      the last event is the final one, or the default text for an empty history. */
  lemma ContextRecentEvents(g: GameDoc)
    ensures var c := ContextFromGame(Some(g));
            var n := |c.recentEvents|;
            && n == (if |g.history| < 5 then |g.history| else 5)
            && (forall k :: 0 <= k < n ==> c.recentEvents[k] == FormatEvent(g.history[|g.history| - n + k]))
            && (g.history == [] ==> c.lastEvent == NoRecentEvent)
            && (g.history != [] ==> c.lastEvent == FormatEvent(g.history[|g.history| - 1]))
  {
    var c := ContextFromGame(Some(g));
    assert c.recentEvents == RecentEvents(g.history) && c.lastEvent == LastEvent(c.recentEvents);
    RecentEventsAre(g.history);
  }

  /** `RecentEvents` keeps the last five (or fewer) events, formatted and in order. */
  lemma RecentEventsAre(h: seq<Event>)
    ensures var r := RecentEvents(h);
            var n := |r|;
            && n == (if |h| < 5 then |h| else 5)
            && (forall k :: 0 <= k < n ==> r[k] == FormatEvent(h[|h| - n + k]))
            && (h != [] ==> r[n - 1] == FormatEvent(h[|h| - 1]))
  {
    if h != [] {
      var tail := LastN(h, 5);
      var n := |tail|;
      forall k | 0 <= k < n
        ensures RecentEvents(h)[k] == FormatEvent(h[|h| - n + k])
      {
        assert tail[k] == h[|h| - n + k];
      }
    }
  }

  /** A winner is announced exactly when the game is over, and it is the side that won. */
  lemma ContextWinner(g: GameDoc)
    ensures var c := ContextFromGame(Some(g));
            var wolves := CountWolves(AlivePlayers(g.players));
            && (c.winner.Some? <==> GameEngine.IsGameOver(g.players).0)
            && (c.winner == Some("village") <==> wolves == 0)
            && (c.winner == Some("wolves") <==> wolves > 0 && wolves >= |AlivePlayers(g.players)| - wolves)
  {
  }

  // ---------------------------------------------------------------------------------------
  // _render_players and _mock_narration

  /** The role `_render_players` prints: "?" for a hidden one. */
  function RoleShown(p: PublicPlayer): string
  {
    if p.role == "hidden" then "?" else p.role
  }

  /** `name (status, rôle: role)`. */
  function Fragment(p: PublicPlayer): (r: string)
    ensures r != [] && r[|r| - 1] == ')'
  {
    p.name + " (" + p.status + ", rôle: " + RoleShown(p) + ")"
  }

  function Fragments(ps: seq<PublicPlayer>): (r: seq<string>)
    ensures |r| == |ps| && forall k :: 0 <= k < |ps| ==> r[k] == Fragment(ps[k])
  {
    if ps == [] then [] else [Fragment(ps[0])] + Fragments(ps[1..])
  }

  const NoPlayers: string := "Aucun joueur"

  /** `_render_players`: the fragments joined by commas, "Aucun joueur" for no players. */
  function PlayersText(ps: seq<PublicPlayer>): string
  {
    if ps != [] then Join(", ", Fragments(ps)) else NoPlayers
  }

  /** `_render_players`, one fragment at a time. */
  method RenderPlayers(ps: seq<PublicPlayer>) returns (text: string)
    ensures text == PlayersText(ps)
  {
    var fragments: seq<string> := [];
    var i := 0;
    while i < |ps|
      invariant 0 <= i <= |ps|
      invariant |fragments| == i
      invariant forall k :: 0 <= k < i ==> fragments[k] == Fragment(ps[k])
    {
      fragments := fragments + [Fragment(ps[i])];
      i := i + 1;
    }
    assert fragments == Fragments(ps);
    text := if fragments != [] then Join(", ", fragments) else NoPlayers;
  }

  /** "Aucun joueur" is printed exactly when there are no players. */
  lemma PlayersTextEmptyIff(ps: seq<PublicPlayer>)
    ensures PlayersText(ps) == NoPlayers <==> ps == []
  {
    if ps != [] {
      var fs := Fragments(ps);
      JoinEndsWithLast(", ", fs);
      var j := Join(", ", fs);
      var last := fs[|fs| - 1];
      assert j[|j| - 1] == j[|j| - |last|..][|last| - 1] == last[|last| - 1] == ')';
      assert NoPlayers[|NoPlayers| - 1] == 'r';
    }
  }

  /** In the context of a game, `_render_players` prints a player's role exactly when the
      player is dead or the game has ended, and "?" otherwise. */
  lemma RenderedRolesHidden(g: GameDoc)
    ensures var ps := ContextFromGame(Some(g)).players;
            forall k :: 0 <= k < |ps| ==>
              (RoleShown(ps[k]) == "?" <==> !Revealed(g.players[k], g.phase))
              && (Revealed(g.players[k], g.phase) ==> RoleShown(ps[k]) == RoleName(g.players[k].role))
  {
  }

  /** `_mock_narration`. */
  function MockNarration(c: NarrationContext): (r: string)
    ensures var head := "[Narration mock] Phase actuelle: " + c.phase + ". Joueurs: ";
            |head| <= |r| && r[..|head|] == head
    ensures var tail := ". Dernier événement: " + c.lastEvent;
            |tail| <= |r| && r[|r| - |tail|..] == tail
  {
    var head := "[Narration mock] Phase actuelle: " + c.phase + ". Joueurs: ";
    var tail := ". Dernier événement: " + c.lastEvent;
    var r := head + PlayersText(c.players) + tail;
    assert r[..|head|] == head;
    assert r[|r| - |tail|..] == tail;
    r
  }

  // ---------------------------------------------------------------------------------------
  // _build_user_message

  /** `name (role)` for each living player, in order. */
  function AliveEntries(ps: seq<PublicPlayer>): (r: seq<string>)
    ensures |r| <= |ps|
  {
    if ps == [] then []
    else (if ps[0].status == "alive" then [ps[0].name + " (" + ps[0].role + ")"] else []) + AliveEntries(ps[1..])
  }

  /** The names of the dead players, in order. */
  function DeadNames(ps: seq<PublicPlayer>): (r: seq<string>)
    ensures |r| <= |ps|
  {
    if ps == [] then []
    else (if ps[0].status == "dead" then [ps[0].name] else []) + DeadNames(ps[1..])
  }

  function ListOrNone(names: seq<string>): string
  {
    if names != [] then Join(", ", names) else "aucun"
  }

  /** `- event` for each event, in order. */
  function Bullets(events: seq<string>): (r: seq<string>)
    ensures |r| == |events|
    ensures forall k :: 0 <= k < |events| ==> r[k] == "- " + events[k]
  {
    if events == [] then [] else ["- " + events[0]] + Bullets(events[1..])
  }

  const Expected: string := "Action attendue: "
  const GameOver: string := "Fin de partie: "

  /** The one line telling the model what the phase expects. */
  function PhaseInstruction(phase: string, winner: Option<string>): (r: string)
    ensures IsInstruction(r)
  {
    if phase == "night_seer" then Expected + "inviter la Voyante à sonder un joueur."
    else if phase == "night_wolves" then Expected + "inviter les Loups-garous à choisir une cible."
    else if phase == "night_witch" then Expected + "rappeler à la Sorcière ses potions disponibles."
    else if phase == "day" then Expected + "annoncer les événements de la nuit et lancer les discussions."
    else if phase == "ended" then GameOver + "annoncer la victoire de " + (if winner.Some? then winner.value else "inconnu") + "."
    else Expected + "accueillir les joueurs et préparer la suite."
  }

  predicate StartsWith(s: string, prefix: string)
  {
    |prefix| <= |s| && s[..|prefix|] == prefix
  }

  /** A line that gives the model its instruction. */
  predicate IsInstruction(line: string)
  {
    StartsWith(line, Expected) || StartsWith(line, GameOver)
  }

  /** The phase and the players, living and dead. */
  function HeaderLines(c: NarrationContext): (lines: seq<string>)
    ensures |lines| == 3 && forall k :: 0 <= k < 3 ==> !IsInstruction(lines[k])
  {
    var lines := ["Phase en cours: " + c.phase,
                  "Joueurs vivants: " + ListOrNone(AliveEntries(c.players)),
                  "Joueurs éliminés: " + ListOrNone(DeadNames(c.players))];
    NotInstruction(lines[0]);
    NotInstruction(lines[1]);
    NotInstruction(lines[2]);
    lines
  }

  /** The last three recent events, or a line saying there are none. */
  function EventLines(c: NarrationContext): (lines: seq<string>)
    ensures |lines| == if c.recentEvents != [] then 2 else 1
    ensures forall k :: 0 <= k < |lines| ==> !IsInstruction(lines[k])
    ensures c.recentEvents != [] ==> lines[1] == Join("\n", Bullets(LastN(c.recentEvents, 3)))
  {
    if c.recentEvents != [] then
      var bullets := Bullets(LastN(c.recentEvents, 3));
      var lines := ["Événements récents:", Join("\n", bullets)];
      JoinStartsWithFirst("\n", bullets);
      assert lines[1][0] == bullets[0][0] == '-';
      NotInstruction(lines[0]);
      NotInstruction(lines[1]);
      lines
    else
      var lines := ["Aucun événement récent."];
      NotInstruction(lines[0]);
      lines
  }

  /** A line whose first character rules out both instruction prefixes. */
  lemma NotInstruction(s: string)
    requires s != [] && s[0] != 'F' && (s[0] != 'A' || (|s| > 1 && s[1] != 'c'))
    ensures !IsInstruction(s)
  {
    assert Expected[0] == 'A' && Expected[1] == 'c' && GameOver[0] == 'F';
  }

  /** The lines of `_build_user_message`: the phase, the living and the dead players, the
      last three recent events (or a line saying there are none), then the instruction. */
  function UserMessageLines(c: NarrationContext): (lines: seq<string>)
    ensures |lines| == if c.recentEvents != [] then 6 else 5
    ensures lines[|lines| - 1] == PhaseInstruction(c.phase, c.winner)
  {
    HeaderLines(c) + EventLines(c) + [PhaseInstruction(c.phase, c.winner)]
  }

  /** `_build_user_message`. */
  function BuildUserMessage(c: NarrationContext): string
  {
    Join("\n", UserMessageLines(c))
  }

  /** The message lists the last three recent events at most, in order, each as a bullet,
      and exactly one of its lines is an instruction: the last one. */
  lemma UserMessageShape(c: NarrationContext)
    ensures var lines := UserMessageLines(c);
            && (c.recentEvents != [] ==>
                  var shown := LastN(c.recentEvents, 3);
                  && |shown| <= 3 && shown == c.recentEvents[|c.recentEvents| - |shown|..]
                  && lines[4] == Join("\n", Bullets(shown)))
            && (forall k :: 0 <= k < |lines| ==> (IsInstruction(lines[k]) <==> k == |lines| - 1))
  {
    var h, e := HeaderLines(c), EventLines(c);
    assert UserMessageLines(c) == h + e + [PhaseInstruction(c.phase, c.winner)];
    OnlyLastInstructs(h, e, PhaseInstruction(c.phase, c.winner));
  }

  /** Lines that give no instruction, followed by one that does: only the last instructs. */
  lemma OnlyLastInstructs(h: seq<string>, e: seq<string>, last: string)
    requires forall k :: 0 <= k < |h| ==> !IsInstruction(h[k])
    requires forall k :: 0 <= k < |e| ==> !IsInstruction(e[k])
    requires IsInstruction(last)
    ensures var lines := h + e + [last];
            forall k :: 0 <= k < |lines| ==> (IsInstruction(lines[k]) <==> k == |lines| - 1)
  {
    var lines := h + e + [last];
    forall k | 0 <= k < |lines|
      ensures IsInstruction(lines[k]) <==> k == |lines| - 1
    {
      if k < |h| {
        assert lines[k] == h[k];
      } else if k < |h| + |e| {
        assert lines[k] == e[k - |h|];
      }
    }
  }

  /** In the context of an ended game (whose phase name is "ended"), the instruction
      announces the side that won, or "inconnu" when no side has won; `ContextWinner`
      says which side the context names. */
  lemma EndedGameAnnouncesWinner(winner: Option<string>)
    ensures winner.Some? ==>
              PhaseInstruction(PhaseName(Ended), winner) == GameOver + "annoncer la victoire de " + winner.value + "."
    ensures winner.None? ==>
              PhaseInstruction(PhaseName(Ended), winner) == GameOver + "annoncer la victoire de " + "inconnu" + "."
  {
  }
}
