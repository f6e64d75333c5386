/** Small pure helpers shared by the engine, the dispatcher and the narrator: game-code
    validation, player filters and counts, name lookup, the public view of a player and
    event formatting. `generate_game_code` draws from the system RNG and is not modelled. */
module Utils {
  import opened Strings
  import opened Schemas

  /** `string.ascii_uppercase + string.digits`. */
  const GameCodeAlphabet: string := "ABCDEFGHIJKLMNOPQRSTUVWXYZ0123456789"

  predicate IsAsciiAlnum(c: char)
  {
    'A' <= c <= 'Z' || 'a' <= c <= 'z' || '0' <= c <= '9'
  }

  lemma AlphabetMembership(c: char)
    ensures c in GameCodeAlphabet <==> 'A' <= c <= 'Z' || '0' <= c <= '9'
  {
  }

  /** `validate_game_code`: six characters, each in the alphabet once upper-cased. */
  predicate ValidateGameCode(code: string)
  {
    |code| == 6 && forall c :: c in Upper(code) ==> c in GameCodeAlphabet
  }

  /** A valid code is exactly six ASCII letters, of either case, or digits: lower-case input
      is accepted. */
  lemma ValidateGameCodeIff(code: string)
    ensures ValidateGameCode(code) <==> |code| == 6 && forall i :: 0 <= i < |code| ==> IsAsciiAlnum(code[i])
  {
    var upper := Upper(code);
    forall i | 0 <= i < |code|
      ensures upper[i] in GameCodeAlphabet <==> IsAsciiAlnum(code[i])
    {
      AlphabetMembership(upper[i]);
    }
    if |code| == 6 && forall i :: 0 <= i < |code| ==> IsAsciiAlnum(code[i]) {
      forall c | c in upper ensures c in GameCodeAlphabet {
        var i :| 0 <= i < |upper| && upper[i] == c;
      }
    }
  }

  /** A code that validates is still valid, and unchanged, once upper-cased: the dispatcher's
      normalisation never turns a valid code into an invalid one. */
  lemma {:induction false} UpperKeepsCodeValid(code: string)
    requires ValidateGameCode(code)
    ensures ValidateGameCode(Upper(code))
    ensures Upper(Upper(code)) == Upper(code)
  {
    ValidateGameCodeIff(code);
    ValidateGameCodeIff(Upper(code));
  }

  /** `alive_players`: the players whose status is alive. */
  function AlivePlayers(ps: seq<Player>): (r: seq<Player>)
    ensures |r| <= |ps|
    ensures forall p :: p in r <==> p in ps && p.status == Alive
  {
    if ps == [] then []
    else (if ps[0].status == Alive then [ps[0]] else []) + AlivePlayers(ps[1..])
  }

  /** Filtering keeps the original order: it distributes over concatenation. */
  lemma {:induction false} AlivePlayersAppend(a: seq<Player>, b: seq<Player>)
    ensures AlivePlayers(a + b) == AlivePlayers(a) + AlivePlayers(b)
  {
    if a == [] {
      assert a + b == b;
    } else {
      assert (a + b)[0] == a[0] && (a + b)[1..] == a[1..] + b;
      AlivePlayersAppend(a[1..], b);
    }
  }

  /** When everybody is alive nothing is filtered out. */
  lemma {:induction false} AlivePlayersAllAlive(ps: seq<Player>)
    requires forall i :: 0 <= i < |ps| ==> ps[i].status == Alive
    ensures AlivePlayers(ps) == ps
  {
    if ps != [] {
      AlivePlayersAllAlive(ps[1..]);
    }
  }

  /** The roles of `ps`, in order. */
  function RolesOf(ps: seq<Player>): (r: seq<Role>)
    ensures |r| == |ps| && forall i :: 0 <= i < |ps| ==> r[i] == ps[i].role
  {
    if ps == [] then [] else [ps[0].role] + RolesOf(ps[1..])
  }

  /** `count_role`: how many players hold `role`, i.e. its multiplicity among their roles. */
  function CountRole(ps: seq<Player>, role: Role): (n: nat)
    ensures n <= |ps|
    ensures n == multiset(RolesOf(ps))[role]
  {
    if ps == [] then 0
    else
      assert RolesOf(ps) == [ps[0].role] + RolesOf(ps[1..]);
      (if ps[0].role == role then 1 else 0) + CountRole(ps[1..], role)
  }

  /** `count_wolves`: the wolves' multiplicity among the players' roles. */
  function CountWolves(ps: seq<Player>): (n: nat)
    ensures n <= |ps| && n == multiset(RolesOf(ps))[Wolf]
  {
    CountRole(ps, Wolf)
  }

  /** The players who are not wolves: the other side of the count. */
  function NonWolves(ps: seq<Player>): (r: seq<Player>)
    ensures forall p :: p in r <==> p in ps && p.role != Wolf
  {
    if ps == [] then []
    else (if ps[0].role != Wolf then [ps[0]] else []) + NonWolves(ps[1..])
  }

  /** The wolves among `ps`. */
  function Wolves(ps: seq<Player>): (r: seq<Player>)
    ensures forall p :: p in r <==> p in ps && p.role == Wolf
  {
    if ps == [] then []
    else (if ps[0].role == Wolf then [ps[0]] else []) + Wolves(ps[1..])
  }

  /** Wolves and non-wolves split the players: the two filters add up to the whole, and the
      wolf filter has exactly `count_wolves` players. */
  lemma {:induction false} WolfSplit(ps: seq<Player>)
    ensures |Wolves(ps)| == CountWolves(ps)
    ensures |Wolves(ps)| + |NonWolves(ps)| == |ps|
  {
    if ps != [] {
      WolfSplit(ps[1..]);
    }
  }

  /** The four role counts add up to the number of players. */
  lemma {:induction false} RoleCountsSum(ps: seq<Player>)
    ensures CountRole(ps, Seer) + CountRole(ps, Witch) + CountRole(ps, Wolf) + CountRole(ps, Villager) == |ps|
  {
    if ps != [] {
      RoleCountsSum(ps[1..]);
    }
  }

  /** The comparison key of a name: stripped and lower-cased. */
  function NameKey(name: string): string
  {
    Lower(Strip(name))
  }

  predicate NameMatches(p: Player, name: string)
  {
    NameKey(p.name) == NameKey(name)
  }

  /** `i` is the position of the first player whose name matches `name`. */
  predicate IsFirstMatch(ps: seq<Player>, name: string, i: int)
  {
    0 <= i < |ps| && NameMatches(ps[i], name) && forall j :: 0 <= j < i ==> !NameMatches(ps[j], name)
  }

  /** `find_player_by_name`: the first player whose name matches `name` once both are
      stripped and lower-cased, or None when nobody matches. */
  function FindPlayerByName(ps: seq<Player>, name: string): (r: Option<Player>)
    ensures r.None? <==> forall i :: 0 <= i < |ps| ==> !NameMatches(ps[i], name)
    ensures r.Some? ==> exists i :: IsFirstMatch(ps, name, i) && ps[i] == r.value
  {
    if ps == [] then None
    else if NameMatches(ps[0], name) then
      assert IsFirstMatch(ps, name, 0);
      Some(ps[0])
    else
      var r := FindPlayerByName(ps[1..], name);
      FirstMatchShift(ps, name, r);
      r
  }

  lemma FirstMatchShift(ps: seq<Player>, name: string, r: Option<Player>)
    requires ps != [] && !NameMatches(ps[0], name)
    requires r.None? <==> forall i :: 0 <= i < |ps[1..]| ==> !NameMatches(ps[1..][i], name)
    requires r.Some? ==> exists i :: IsFirstMatch(ps[1..], name, i) && ps[1..][i] == r.value
    ensures r.None? <==> forall i :: 0 <= i < |ps| ==> !NameMatches(ps[i], name)
    ensures r.Some? ==> exists i :: IsFirstMatch(ps, name, i) && ps[i] == r.value
  {
    if r.Some? {
      var k :| IsFirstMatch(ps[1..], name, k) && ps[1..][k] == r.value;
      forall j | 0 <= j < k + 1 ensures !NameMatches(ps[j], name) {
        if j > 0 {
          assert ps[j] == ps[1..][j - 1];
        }
      }
      assert ps[k + 1] == ps[1..][k];
      assert IsFirstMatch(ps, name, k + 1);
    } else {
      forall i | 0 <= i < |ps| ensures !NameMatches(ps[i], name) {
        if i > 0 {
          assert ps[i] == ps[1..][i - 1];
        }
      }
    }
  }

  /** A found player is one of the players and its name matches the query. */
  lemma FoundPlayerMatches(ps: seq<Player>, name: string)
    requires FindPlayerByName(ps, name).Some?
    ensures FindPlayerByName(ps, name).value in ps
    ensures NameMatches(FindPlayerByName(ps, name).value, name)
  {
  }

  /** The lookup ignores case and surrounding whitespace in the query. */
  lemma FindIgnoresQueryForm(ps: seq<Player>, a: string, b: string)
    requires NameKey(a) == NameKey(b)
    ensures FindPlayerByName(ps, a) == FindPlayerByName(ps, b)
  {
    if ps != [] {
      FindIgnoresQueryForm(ps[1..], a, b);
    }
  }

  /** The public view of a player: `to_public_player`. */
  datatype PublicPlayer = PublicPlayer(id: string, name: string, status: string, role: string)

  /** `to_public_player`: id, name and status copied; the role shown only when revealed,
      "hidden" otherwise, and "hidden" is not a role the validator would accept. */
  function ToPublicPlayer(p: Player, revealRole: bool): (r: PublicPlayer)
    ensures r.id == p.id && r.name == p.name && ValidateStatus(r.status) == Ok(p.status)
    ensures revealRole ==> ValidateRole(r.role) == Ok(p.role)
    ensures !revealRole ==> r.role == "hidden" && ValidateRole(r.role).Err?
  {
    PublicPlayer(p.id, p.name, StatusName(p.status), if revealRole then RoleName(p.role) else "hidden")
  }

  /** `build_event`: an event with the given type and payload (its timestamp is not
      modelled). */
  function BuildEvent(kind: string, payload: seq<(string, string)>): (e: Event)
    ensures e.kind == kind && e.payload == payload
  {
    Event(kind, payload)
  }

  /** The title of an event type: underscores become spaces, then `capitalize()`. */
  function EventTitle(kind: string): (t: string)
    ensures |t| == |kind|
    ensures forall i :: 0 <= i < |t| ==> t[i] != '_'
  {
    Capitalize(ReplaceChar(kind, '_', ' '))
  }

  /** `key: value` for each payload entry, in order. */
  function PayloadEntries(payload: seq<(string, string)>): (r: seq<string>)
    ensures |r| == |payload|
    ensures forall i :: 0 <= i < |r| ==> r[i] == payload[i].0 + ": " + payload[i].1 && |r[i]| >= 2
  {
    if payload == [] then []
    else [payload[0].0 + ": " + payload[0].1] + PayloadEntries(payload[1..])
  }

  /** `format_event`: the title, followed by " (key: value, ...)" when the payload is
      non-empty. */
  function FormatEvent(e: Event): (s: string)
    ensures |s| >= |e.kind| && s[..|e.kind|] == EventTitle(e.kind)
    ensures e.payload == [] <==> s == EventTitle(e.kind)
    ensures e.payload != [] ==> |s| > |e.kind| + 2 && s[|e.kind|..|e.kind| + 2] == " (" && s[|s| - 1] == ')'
    ensures e.payload != [] ==> s[|e.kind| + 2..|s| - 1] == Join(", ", PayloadEntries(e.payload))
  {
    var base := EventTitle(e.kind);
    var entries := PayloadEntries(e.payload);
    var details := Join(", ", entries);
    assert details == [] <==> e.payload == [] by {
      JoinEmpty(", ", entries);
      if |entries| == 1 {
        assert |entries[0]| >= 2;
      }
    }
    if details != [] then base + " (" + details + ")" else base
  }
}
