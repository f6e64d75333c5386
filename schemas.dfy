/** The records of a game (`PotionState`, `Player`, `Event`, `ChatMessage`, `Game`) with
    their defaults, and the validators that keep a name, a role, a status and a phase inside
    their closed sets. Timestamps (`created_at`, `Event.timestamp`) are not modelled. */
module Schemas {
  import opened Strings

  datatype Option<T> = None | Some(value: T)

  datatype Result<T, E> = Ok(value: T) | Err(error: E)

  /** Player ids are uuid7 strings: never empty, so a Python truth test on an id is a
      presence test. */
  type PlayerId = s: string | |s| > 0 witness "0"

  datatype Role = Seer | Witch | Wolf | Villager

  datatype Status = Alive | Dead

  datatype Phase = Lobby | NightSeer | NightWolves | NightWitch | Day | Ended

  function RoleName(r: Role): string
  {
    match r
    case Seer => "seer"
    case Witch => "witch"
    case Wolf => "wolf"
    case Villager => "villager"
  }

  function StatusName(s: Status): string
  {
    match s
    case Alive => "alive"
    case Dead => "dead"
  }

  function PhaseName(p: Phase): string
  {
    match p
    case Lobby => "lobby"
    case NightSeer => "night_seer"
    case NightWolves => "night_wolves"
    case NightWitch => "night_witch"
    case Day => "day"
    case Ended => "ended"
  }

  /** `Player.validate_role`: accepts exactly the four role names. */
  function ValidateRole(value: string): (r: Result<Role, string>)
    ensures r.Ok? <==> value in {"seer", "witch", "wolf", "villager"}
    ensures r.Ok? ==> RoleName(r.value) == value
  {
    if value == "seer" then Ok(Seer)
    else if value == "witch" then Ok(Witch)
    else if value == "wolf" then Ok(Wolf)
    else if value == "villager" then Ok(Villager)
    else Err("Rôle invalide: " + value)
  }

  /** `Player.validate_status`: accepts exactly "alive" and "dead". */
  function ValidateStatus(value: string): (r: Result<Status, string>)
    ensures r.Ok? <==> value in {"alive", "dead"}
    ensures r.Ok? ==> StatusName(r.value) == value
  {
    if value == "alive" then Ok(Alive)
    else if value == "dead" then Ok(Dead)
    else Err("Statut invalide: " + value)
  }

  /** `Game.validate_phase`: accepts exactly the six phase names. */
  function ValidatePhase(value: string): (r: Result<Phase, string>)
    ensures r.Ok? <==> value in {"lobby", "night_seer", "night_wolves", "night_witch", "day", "ended"}
    ensures r.Ok? ==> PhaseName(r.value) == value
  {
    if value == "lobby" then Ok(Lobby)
    else if value == "night_seer" then Ok(NightSeer)
    else if value == "night_wolves" then Ok(NightWolves)
    else if value == "night_witch" then Ok(NightWitch)
    else if value == "day" then Ok(Day)
    else if value == "ended" then Ok(Ended)
    else Err("Phase inconnue: " + value)
  }

  /** Every role, status and phase survives a trip through its name and its validator, so the
      enumerations are exactly the values the validators admit. */
  lemma NamesRoundTrip(r: Role, s: Status, p: Phase)
    ensures ValidateRole(RoleName(r)) == Ok(r)
    ensures ValidateStatus(StatusName(s)) == Ok(s)
    ensures ValidatePhase(PhaseName(p)) == Ok(p)
  {
  }

  /** `Player.validate_name`: the stripped name, refused when empty or over 40 characters. */
  function ValidateName(value: string): (r: Result<string, string>)
    ensures r.Ok? <==> 1 <= |Strip(value)| <= 40
    ensures r.Ok? ==> r.value == Strip(value)
  {
    var v := Strip(value);
    if v == [] then Err("Le nom du joueur ne peut pas être vide.")
    else if |v| > 40 then Err("Le nom du joueur doit contenir 40 caractères maximum.")
    else Ok(v)
  }

  /** An accepted name is accepted again unchanged: validation is idempotent. */
  lemma {:induction false} ValidateNameIdempotent(value: string)
    requires ValidateName(value).Ok?
    ensures ValidateName(ValidateName(value).value) == ValidateName(value)
  {
    StripIdempotent(value);
  }

  datatype PotionState = PotionState(healUsed: bool, poisonUsed: bool)

  const NoPotionsUsed: PotionState := PotionState(false, false)

  /** A player as stored; `role` defaults to villager and `status` to alive. */
  datatype Player = Player(id: PlayerId, name: string, role: Role, status: Status)

  /** `Player(id=..., name=...)`: validates the name and applies the defaults. */
  function NewPlayer(id: PlayerId, name: string): (r: Result<Player, string>)
    ensures r.Ok? <==> ValidateName(name).Ok?
    ensures r.Err? ==> r.error == ValidateName(name).error
    ensures r.Ok? ==> r.value.id == id && r.value.name == Strip(name)
                      && r.value.role == Villager && r.value.status == Alive
  {
    match ValidateName(name)
    case Ok(n) => Ok(Player(id, n, Villager, Alive))
    case Err(e) => Err(e)
  }

  /** An event: a type and an ordered payload of key/value pairs. */
  datatype Event = Event(kind: string, payload: seq<(string, string)>)

  datatype ChatRole = UserTurn | AssistantTurn | SystemTurn

  datatype ChatMessage = ChatMessage(role: ChatRole, content: string)

  /** A game as the store holds it (`Game.model_dump()`). */
  datatype GameDoc = GameDoc(
    code: string,
    phase: Phase,
    players: seq<Player>,
    history: seq<Event>,
    lastKilled: Option<PlayerId>,
    potions: PotionState,
    chatHistory: seq<ChatMessage>)

  /** `Game(code=code)`: every field but the code at its default. */
  function NewGameDoc(code: string): (d: GameDoc)
    ensures d.code == code && d.phase == Lobby
    ensures d.players == [] && d.history == [] && d.chatHistory == []
    ensures d.lastKilled == None && !d.potions.healUsed && !d.potions.poisonUsed
  {
    GameDoc(code, Lobby, [], [], None, NoPotionsUsed, [])
  }

  /** The in-memory `Game` object, whose fields the game engine and the dispatcher update
      in place; `Doc()` is what `model_dump()` gives. */
  class Game {
    var code: string
    var phase: Phase
    var players: seq<Player>
    var history: seq<Event>
    var lastKilled: Option<PlayerId>
    var potions: PotionState
    var chatHistory: seq<ChatMessage>

    function Doc(): GameDoc
      reads this
    {
      GameDoc(code, phase, players, history, lastKilled, potions, chatHistory)
    }

    /** `Game.model_validate(document)`: a fresh object holding the document's values. */
    constructor FromDoc(d: GameDoc)
      ensures Doc() == d
    {
      code := d.code;
      phase := d.phase;
      players := d.players;
      history := d.history;
      lastKilled := d.lastKilled;
      potions := d.potions;
      chatHistory := d.chatHistory;
    }
  }
}
