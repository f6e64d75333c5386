/** The game store: the `games` collection as a map from a game's code to its document.
    Each operation is the one document update the driver performs; an update addressed to a
    code that is not stored matches nothing and changes nothing. */
module Store {
  import opened Schemas

  /** The error `create_game` raises for a code already in use. */
  const CodeInUse := "Un salon avec ce code existe deja."

  /** The player list with every entry whose id is `id` taken out (`$pull` by id). */
  function WithoutId(ps: seq<Player>, id: string): (r: seq<Player>)
    ensures |r| <= |ps|
    ensures forall p :: p in r <==> p in ps && p.id != id
  {
    if ps == [] then []
    else (if ps[0].id == id then [] else [ps[0]]) + WithoutId(ps[1..], id)
  }

  /** Removing by an id nobody has removes nothing. */
  lemma {:induction false} WithoutAbsentId(ps: seq<Player>, id: string)
    requires forall k :: 0 <= k < |ps| ==> ps[k].id != id
    ensures WithoutId(ps, id) == ps
  {
    if ps != [] {
      WithoutAbsentId(ps[1..], id);
    }
  }

  /** Removing twice is removing once. */
  lemma {:induction false} WithoutIdIdempotent(ps: seq<Player>, id: string)
    ensures WithoutId(WithoutId(ps, id), id) == WithoutId(ps, id)
  {
    if ps != [] {
      WithoutIdIdempotent(ps[1..], id);
      var rest := WithoutId(ps[1..], id);
      if ps[0].id != id {
        var r := [ps[0]] + rest;
        assert WithoutId(ps, id) == r;
        assert r[0] == ps[0] && r[1..] == rest;
        assert WithoutId(r, id) == [ps[0]] + WithoutId(rest, id);
      } else {
        assert WithoutId(ps, id) == [] + rest == rest;
      }
    }
  }

  /** The unique index on `code`: every document sits under its own code. */
  ghost predicate Indexed(games: map<string, GameDoc>)
  {
    forall c :: c in games ==> games[c].code == c
  }

  /** `update_one({"code": code}, ...)` with a document change `d'` of the stored document: a
      missing code matches nothing. */
  function Updated(games: map<string, GameDoc>, code: string, d': GameDoc): (r: map<string, GameDoc>)
    requires code in games ==> d'.code == code
    ensures r.Keys == games.Keys
    ensures Indexed(games) ==> Indexed(r)
    ensures forall c :: c in games && c != code ==> r[c] == games[c]
  {
    if code in games then games[code := d'] else games
  }

  /** `$set` of every field with `upsert=True`: the game's document replaces whatever is
      stored under its code, or is inserted. */
  function Upserted(games: map<string, GameDoc>, d: GameDoc): (r: map<string, GameDoc>)
    ensures r.Keys == games.Keys + {d.code}
    ensures Indexed(games) ==> Indexed(r)
    ensures r[d.code] == d && forall c :: c in games && c != d.code ==> r[c] == games[c]
  {
    games[d.code := d]
  }

  /** `$push` of a player. */
  function PlayerPushed(games: map<string, GameDoc>, code: string, p: Player): (r: map<string, GameDoc>)
    requires Indexed(games)
    ensures Indexed(r) && r.Keys == games.Keys
    ensures code in games ==> r[code].players == games[code].players + [p] && r[code] == games[code].(players := r[code].players)
  {
    Updated(games, code, if code in games then games[code].(players := games[code].players + [p]) else NewGameDoc(code))
  }

  /** `$pull` of the players with an id. */
  function PlayerPulled(games: map<string, GameDoc>, code: string, id: string): (r: map<string, GameDoc>)
    requires Indexed(games)
    ensures Indexed(r) && r.Keys == games.Keys
    ensures code in games ==> r[code].players == WithoutId(games[code].players, id) && r[code] == games[code].(players := r[code].players)
  {
    Updated(games, code, if code in games then games[code].(players := WithoutId(games[code].players, id)) else NewGameDoc(code))
  }

  /** `$set` of the phase. */
  function PhaseSet(games: map<string, GameDoc>, code: string, phase: Phase): (r: map<string, GameDoc>)
    requires Indexed(games)
    ensures Indexed(r) && r.Keys == games.Keys
    ensures code in games ==> r[code] == games[code].(phase := phase)
  {
    Updated(games, code, if code in games then games[code].(phase := phase) else NewGameDoc(code))
  }

  /** `$push` of an event to the history. */
  function EventLogged(games: map<string, GameDoc>, code: string, e: Event): (r: map<string, GameDoc>)
    requires Indexed(games)
    ensures Indexed(r) && r.Keys == games.Keys
    ensures code in games ==> r[code] == games[code].(history := games[code].history + [e])
  {
    Updated(games, code, if code in games then games[code].(history := games[code].history + [e]) else NewGameDoc(code))
  }

  /** `$push` of a chat message. */
  function ChatAppended(games: map<string, GameDoc>, code: string, m: ChatMessage): (r: map<string, GameDoc>)
    requires Indexed(games)
    ensures Indexed(r) && r.Keys == games.Keys
    ensures code in games ==> r[code] == games[code].(chatHistory := games[code].chatHistory + [m])
  {
    Updated(games, code, if code in games then games[code].(chatHistory := games[code].chatHistory + [m]) else NewGameDoc(code))
  }

  class Store {
    var games: map<string, GameDoc>

    constructor()
      ensures Indexed(games) && games == map[]
    {
      games := map[];
    }

    /** `create_game`: refused when the code is taken; otherwise a fresh default game is
        stored and returned. */
    method CreateGame(code: string) returns (r: Result<Game, string>)
      requires Indexed(games)
      modifies this
      ensures Indexed(games)
      ensures r.Err? <==> code in old(games)
      ensures r.Err? ==> r.error == CodeInUse && games == old(games)
      ensures r.Ok? ==> fresh(r.value) && r.value.Doc() == NewGameDoc(code)
                        && games == old(games)[code := NewGameDoc(code)]
    {
      if code in games {
        return Err(CodeInUse);
      }
      games := games[code := NewGameDoc(code)];
      var g := new Game.FromDoc(NewGameDoc(code));
      r := Ok(g);
    }

    /** `get_game`: a fresh object holding the stored document, or null when there is
        none. */
    method GetGame(code: string) returns (g: Game?)
      ensures g == null <==> code !in games
      ensures g != null ==> fresh(g) && g.Doc() == games[code]
    {
      if code !in games {
        return null;
      }
      g := new Game.FromDoc(games[code]);
    }

    /** `upsert_game`. */
    method UpsertGame(g: Game)
      modifies this
      ensures games == Upserted(old(games), g.Doc())
    {
      games := games[g.code := g.Doc()];
    }

    /** `add_player`: the new player (fresh id, validated name, default role and status)
        goes to the end of the list. The name is validated before the store is touched, so
        a refused name changes nothing. */
    method AddPlayer(code: string, name: string, newId: PlayerId) returns (r: Result<PlayerId, string>)
      requires Indexed(games)
      modifies this
      ensures r.Err? <==> ValidateName(name).Err?
      ensures r.Err? ==> r.error == ValidateName(name).error && games == old(games)
      ensures r.Ok? ==> r.value == newId && games == PlayerPushed(old(games), code, NewPlayer(newId, name).value)
    {
      var player := NewPlayer(newId, name);
      if player.Err? {
        return Err(player.error);
      }
      if code in games {
        games := games[code := games[code].(players := games[code].players + [player.value])];
      }
      r := Ok(newId);
    }

    /** `remove_player`. */
    method RemovePlayer(code: string, id: string)
      requires Indexed(games)
      modifies this
      ensures games == PlayerPulled(old(games), code, id)
    {
      if code in games {
        games := games[code := games[code].(players := WithoutId(games[code].players, id))];
      }
    }

    /** `set_phase`. */
    method SetPhase(code: string, phase: Phase)
      requires Indexed(games)
      modifies this
      ensures games == PhaseSet(old(games), code, phase)
    {
      if code in games {
        games := games[code := games[code].(phase := phase)];
      }
    }

    /** `log_event`. */
    method LogEvent(code: string, e: Event)
      requires Indexed(games)
      modifies this
      ensures games == EventLogged(old(games), code, e)
    {
      if code in games {
        games := games[code := games[code].(history := games[code].history + [e])];
      }
    }

    /** `append_chat_message`. */
    method AppendChatMessage(code: string, m: ChatMessage)
      requires Indexed(games)
      modifies this
      ensures games == ChatAppended(old(games), code, m)
    {
      if code in games {
        games := games[code := games[code].(chatHistory := games[code].chatHistory + [m])];
      }
    }
  }
}
