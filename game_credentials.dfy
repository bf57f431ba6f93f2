/**
 * The game-credential resolver exercised by
 * src/reactors/downloads/get-game-credentials.spec.ts: for a game, which API
 * key and which download key (if any) to use, given the active session, the
 * remembered sessions and the download-key table. The script fixes every
 * rule below except the press shortcut, whose only call runs on an empty key
 * table; the shortcut follows the wording of that call's assertion.
 *
 * Precedence: logged out gives no credentials at all; a press user asking for
 * a game in the press system needs no download key; otherwise the active
 * profile's own key for the game wins; otherwise a key owned by a remembered
 * profile is used together with that profile's API key; otherwise the active
 * API key alone. The table is read afresh on every call.
 */
module GameCredentials {
  import opened Wrappers

  /** `credentials.me`: the profile a session belongs to. */
  datatype Profile = Profile(id: int, pressUser: bool)

  /** `session.credentials`: the active API key and its profile. */
  datatype Credentials = Credentials(key: string, me: Profile)

  /** An entry of `rememberedSessions`, keyed by profile id. */
  datatype RememberedSession = RememberedSession(key: string, me: Profile, lastConnected: int)

  /** A row of the download-key table. */
  datatype DownloadKey = DownloadKey(id: int, gameId: int, ownerId: int)

  datatype Game = Game(id: int, inPressSystem: bool)

  /** The resolver's answer, when there is one. */
  datatype GameCredentials = GameCredentials(apiKey: string, downloadKey: Option<DownloadKey>)

  type Remembered = map<int, RememberedSession>

  /** The first key in table order for `gameId` owned by `ownerId`. */
  function OwnKey(keys: seq<DownloadKey>, gameId: int, ownerId: int): (r: Option<DownloadKey>)
    ensures r.Some? ==> r.value in keys && r.value.gameId == gameId && r.value.ownerId == ownerId
    decreases |keys|
  {
    if keys == [] then None
    else if keys[0].gameId == gameId && keys[0].ownerId == ownerId then Some(keys[0])
    else OwnKey(keys[1..], gameId, ownerId)
  }

  /** The first key in table order for `gameId` whose owner has a remembered session. */
  function RememberedKey(keys: seq<DownloadKey>, gameId: int, remembered: Remembered): (r: Option<DownloadKey>)
    ensures r.Some? ==> r.value in keys && r.value.gameId == gameId && r.value.ownerId in remembered
    decreases |keys|
  {
    if keys == [] then None
    else if keys[0].gameId == gameId && keys[0].ownerId in remembered then Some(keys[0])
    else RememberedKey(keys[1..], gameId, remembered)
  }

  /** `getGameCredentials`, over a snapshot of the session, remembered sessions and table. */
  function Resolve(credentials: Option<Credentials>, remembered: Remembered, keys: seq<DownloadKey>, game: Game)
    : (r: Option<GameCredentials>)
    ensures r.None? <==> credentials.None?
    ensures r.Some? && r.value.downloadKey.Some? ==>
      r.value.downloadKey.value in keys && r.value.downloadKey.value.gameId == game.id
  {
    match credentials
    case None => None
    case Some(c) =>
      if c.me.pressUser && game.inPressSystem then Some(GameCredentials(c.key, None))
      else match OwnKey(keys, game.id, c.me.id)
        case Some(k) => Some(GameCredentials(c.key, Some(k)))
        case None =>
          match RememberedKey(keys, game.id, remembered)
          case Some(k) => Some(GameCredentials(remembered[k.ownerId].key, Some(k)))
          case None => Some(GameCredentials(c.key, None))
  }

  /** The game a lookup by id resolves for: the stored game, or a bare `{id}` outside the press system. */
  function GameById(games: map<int, Game>, gameId: int): (g: Game)
    ensures gameId in games ==> g == games[gameId]
    ensures gameId !in games ==> g == Game(gameId, false)
  {
    if gameId in games then games[gameId] else Game(gameId, false)
  }

  /** `getGameCredentialsForId`. */
  function ResolveForId(credentials: Option<Credentials>, remembered: Remembered, keys: seq<DownloadKey>,
                        games: map<int, Game>, gameId: int): (r: Option<GameCredentials>)
    ensures r.None? <==> credentials.None?
    ensures r.Some? && r.value.downloadKey.Some? ==> r.value.downloadKey.value in keys
  {
    Resolve(credentials, remembered, keys, GameById(games, gameId))
  }

  // ---- Properties of the resolver ----

  ghost predicate HasKeyFor(keys: seq<DownloadKey>, gameId: int, owners: iset<int>) {
    exists i :: 0 <= i < |keys| && keys[i].gameId == gameId && keys[i].ownerId in owners
  }

  lemma {:induction false} OwnKeyFound(keys: seq<DownloadKey>, gameId: int, ownerId: int)
    ensures OwnKey(keys, gameId, ownerId).Some? <==> HasKeyFor(keys, gameId, iset{ownerId})
    decreases |keys|
  {
    if keys != [] {
      OwnKeyFound(keys[1..], gameId, ownerId);
      if HasKeyFor(keys[1..], gameId, iset{ownerId}) {
        var i :| 0 <= i < |keys[1..]| && keys[1..][i].gameId == gameId && keys[1..][i].ownerId in iset{ownerId};
        assert keys[i + 1] == keys[1..][i];
      }
      if HasKeyFor(keys, gameId, iset{ownerId}) && !(keys[0].gameId == gameId && keys[0].ownerId == ownerId) {
        var i :| 0 <= i < |keys| && keys[i].gameId == gameId && keys[i].ownerId in iset{ownerId};
        assert i > 0 && keys[1..][i - 1] == keys[i];
      }
    }
  }

  lemma {:induction false} RememberedKeyFound(keys: seq<DownloadKey>, gameId: int, remembered: Remembered)
    ensures RememberedKey(keys, gameId, remembered).Some?
      <==> HasKeyFor(keys, gameId, iset id | id in remembered)
    decreases |keys|
  {
    var owners := iset id | id in remembered;
    if keys != [] {
      RememberedKeyFound(keys[1..], gameId, remembered);
      if HasKeyFor(keys[1..], gameId, owners) {
        var i :| 0 <= i < |keys[1..]| && keys[1..][i].gameId == gameId && keys[1..][i].ownerId in owners;
        assert keys[i + 1] == keys[1..][i];
      }
      if HasKeyFor(keys, gameId, owners) && !(keys[0].gameId == gameId && keys[0].ownerId in remembered) {
        var i :| 0 <= i < |keys| && keys[i].gameId == gameId && keys[i].ownerId in owners;
        assert i > 0 && keys[1..][i - 1] == keys[i];
      }
    }
  }

  /** Logged out, the whole answer is null, whatever the tables hold. */
  lemma LoggedOutGivesNull(remembered: Remembered, keys: seq<DownloadKey>, game: Game)
    ensures Resolve(None, remembered, keys, game) == None
  {
  }

  /** Logged in with no download key for the game: the active API key alone, for every press setting. */
  lemma NoKeysGivesActiveKeyOnly(c: Credentials, remembered: Remembered, keys: seq<DownloadKey>, game: Game)
    requires forall i :: 0 <= i < |keys| ==> keys[i].gameId != game.id
    ensures Resolve(Some(c), remembered, keys, game) == Some(GameCredentials(c.key, None))
  {
    OwnKeyFound(keys, game.id, c.me.id);
    RememberedKeyFound(keys, game.id, remembered);
  }

  /** A press user needs no download key for a game in the press system. */
  lemma PressAccessNeedsNoKey(c: Credentials, remembered: Remembered, keys: seq<DownloadKey>, game: Game)
    requires c.me.pressUser && game.inPressSystem
    ensures Resolve(Some(c), remembered, keys, game) == Some(GameCredentials(c.key, None))
  {
  }

  /**
   * Outside the press shortcut, a key the active profile owns for the game is
   * paired with the active API key, whatever other profiles own or remember.
   */
  lemma OwnKeyWins(c: Credentials, remembered: Remembered, keys: seq<DownloadKey>, game: Game, k: DownloadKey)
    requires !(c.me.pressUser && game.inPressSystem)
    requires k in keys && k.gameId == game.id && k.ownerId == c.me.id
    ensures var r := Resolve(Some(c), remembered, keys, game);
      && r.Some? && r.value.apiKey == c.key && r.value.downloadKey.Some?
      && r.value.downloadKey.value.ownerId == c.me.id
      && r.value.downloadKey.value.gameId == game.id
      && r.value.downloadKey == OwnKey(keys, game.id, c.me.id)
    ensures forall other: Remembered :: Resolve(Some(c), other, keys, game) == Resolve(Some(c), remembered, keys, game)
  {
    var i :| 0 <= i < |keys| && keys[i] == k;
    assert keys[i].ownerId in iset{c.me.id};
    OwnKeyFound(keys, game.id, c.me.id);
  }

  /**
   * With no key of its own, a key owned by a remembered profile is used with
   * THAT profile's remembered API key.
   */
  lemma RememberedKeyUsesItsApiKey(c: Credentials, remembered: Remembered, keys: seq<DownloadKey>, game: Game, k: DownloadKey)
    requires !(c.me.pressUser && game.inPressSystem)
    requires forall i :: 0 <= i < |keys| && keys[i].gameId == game.id ==> keys[i].ownerId != c.me.id
    requires k in keys && k.gameId == game.id && k.ownerId in remembered
    ensures var r := Resolve(Some(c), remembered, keys, game);
      && r.Some? && r.value.downloadKey.Some?
      && r.value.downloadKey.value.ownerId in remembered
      && r.value.downloadKey.value.gameId == game.id
      && r.value.apiKey == remembered[r.value.downloadKey.value.ownerId].key
  {
    OwnKeyFound(keys, game.id, c.me.id);
    var i :| 0 <= i < |keys| && keys[i] == k;
    assert keys[i].ownerId in (iset id | id in remembered);
    RememberedKeyFound(keys, game.id, remembered);
  }

  /** Keys whose owners have no remembered session (and are not active) are ignored. */
  lemma UnrememberedOwnersIgnored(c: Credentials, remembered: Remembered, keys: seq<DownloadKey>, game: Game)
    requires forall i :: 0 <= i < |keys| && keys[i].gameId == game.id ==>
      keys[i].ownerId != c.me.id && keys[i].ownerId !in remembered
    ensures Resolve(Some(c), remembered, keys, game) == Some(GameCredentials(c.key, None))
  {
    OwnKeyFound(keys, game.id, c.me.id);
    RememberedKeyFound(keys, game.id, remembered);
  }

  /**
   * Soundness of every answer: a download key returned is a current row for
   * the game, owned by the active profile (with the active API key) or by a
   * remembered one (with its API key); an answer without one carries the
   * active API key.
   */
  lemma ResolvedKeyIsUsable(c: Credentials, remembered: Remembered, keys: seq<DownloadKey>, game: Game)
    ensures var r := Resolve(Some(c), remembered, keys, game);
      && r.Some?
      && (r.value.downloadKey.None? ==> r.value.apiKey == c.key)
      && (r.value.downloadKey.Some? ==>
            var k := r.value.downloadKey.value;
            && k in keys && k.gameId == game.id
            && ((k.ownerId == c.me.id && r.value.apiKey == c.key)
                || (k.ownerId in remembered && r.value.apiKey == remembered[k.ownerId].key)))
  {
  }

  /** The table is the only source of keys: a row removed is not answered by the next call. */
  lemma RemovedKeyNotReturned(c: Credentials, remembered: Remembered, keys: seq<DownloadKey>, game: Game, id: int)
    ensures var r := Resolve(Some(c), remembered, Without(keys, id), game);
      r.Some? && (r.value.downloadKey.Some? ==> r.value.downloadKey.value.id != id)
  {
    ResolvedKeyIsUsable(c, remembered, Without(keys, id), game);
  }

  /** Looking up by id agrees with resolving the game itself. */
  lemma ByIdAgreesWithGame(credentials: Option<Credentials>, remembered: Remembered, keys: seq<DownloadKey>,
                           games: map<int, Game>, game: Game)
    requires game.id in games ==> games[game.id] == game
    requires game.id !in games ==> !game.inPressSystem
    ensures ResolveForId(credentials, remembered, keys, games, game.id) == Resolve(credentials, remembered, keys, game)
  {
  }

  // ---- The download-key table ----

  /** `persist`: insert the row, or replace the row with the same id in place. */
  function Upsert(rows: seq<DownloadKey>, k: DownloadKey): (r: seq<DownloadKey>)
    ensures k in r
    ensures forall x :: x in r ==> x == k || (x in rows && x.id != k.id)
    ensures forall x :: x in rows && x.id != k.id ==> x in r
    decreases |rows|
  {
    if rows == [] then [k]
    else if rows[0].id == k.id then [k] + Without(rows[1..], k.id)
    else [rows[0]] + Upsert(rows[1..], k)
  }

  /** `remove`: drop the rows with the given id. */
  function Without(rows: seq<DownloadKey>, id: int): (r: seq<DownloadKey>)
    ensures forall x :: x in r <==> x in rows && x.id != id
    decreases |rows|
  {
    if rows == [] then []
    else if rows[0].id == id then Without(rows[1..], id)
    else [rows[0]] + Without(rows[1..], id)
  }

  class DownloadKeyRepository {
    var rows: seq<DownloadKey>

    constructor()
      ensures rows == []
    {
      rows := [];
    }

    method Persist(k: DownloadKey) returns (saved: DownloadKey)
      modifies this
      ensures rows == Upsert(old(rows), k)
      ensures saved == k
    {
      rows := Upsert(rows, k);
      saved := k;
    }

    method Remove(id: int)
      modifies this
      ensures rows == Without(old(rows), id)
    {
      rows := Without(rows, id);
    }
  }

  // ---- The session state the test script mutates ----

  class SessionState {
    var credentials: Option<Credentials>
    var rememberedSessions: Remembered

    constructor()
      ensures credentials == None && rememberedSessions == map[]
    {
      credentials, rememberedSessions := None, map[];
    }

    /** `state.session.credentials = c`. */
    method SetCredentials(c: Option<Credentials>)
      modifies this
      ensures credentials == c && rememberedSessions == old(rememberedSessions)
    {
      credentials := c;
    }

    /** `state.rememberedSessions[s.me.id] = s`. */
    method Remember(s: RememberedSession)
      modifies this
      ensures rememberedSessions == old(rememberedSessions)[s.me.id := s]
      ensures credentials == old(credentials)
    {
      rememberedSessions := rememberedSessions[s.me.id := s];
    }

    /** `delete state.rememberedSessions[id]`. */
    method Forget(id: int)
      modifies this
      ensures rememberedSessions == old(rememberedSessions) - {id}
      ensures credentials == old(credentials)
    {
      rememberedSessions := rememberedSessions - {id};
    }
  }

  /** `getGameCredentials(ctx, game)` against the current state and table. */
  function GetGameCredentials(session: SessionState, db: DownloadKeyRepository, game: Game): (r: Option<GameCredentials>)
    reads session, db
    ensures r.None? <==> session.credentials.None?
    ensures r.Some? && r.value.downloadKey.Some? ==> r.value.downloadKey.value in db.rows
  {
    Resolve(session.credentials, session.rememberedSessions, db.rows, game)
  }

  // ---- The `getGameCredentials` case of the test script ----

  const Credentials19: Credentials := Credentials("api-key-19", Profile(19, true))
  const Credentials75: Credentials := Credentials("api-key-75", Profile(75, false))
  const Key190: DownloadKey := DownloadKey(190, 728, 19)
  const Key750: DownloadKey := DownloadKey(750, 728, 75)

  /**
   * The case's first half: logged out, then logged in as 19 with 19 and 75
   * remembered, trying the press settings while the table is empty.
   * `now` stands for `Date.now()`.
   */
  method PressSettingsSteps(session: SessionState, db: DownloadKeyRepository, game: Game, now: int)
    returns (answers: seq<Option<GameCredentials>>, game': Game)
    requires session.credentials == None && session.rememberedSessions == map[]
    requires db.rows == [] && game.id == 728
    modifies session
    ensures answers == [
      None,
      Some(GameCredentials("api-key-19", None)),
      Some(GameCredentials("api-key-19", None)),
      Some(GameCredentials("api-key-19", None))
    ]
    ensures session.credentials == Some(Credentials19)
    ensures session.rememberedSessions.Keys == {19, 75}
    ensures session.rememberedSessions[19].key == "api-key-19"
    ensures session.rememberedSessions[75].key == "api-key-75"
    ensures game' == Game(728, false)
  {
    var a0 := GetGameCredentials(session, db, game);

    var session19 := RememberedSession(Credentials19.key, Credentials19.me, now);
    var session75 := RememberedSession(Credentials75.key, Credentials75.me, now);
    session.SetCredentials(Some(Credentials19));
    session.Remember(session19);
    session.Remember(session75);

    game' := game.(inPressSystem := true);
    var a1 := GetGameCredentials(session, db, game');

    // the script flips `pressUser` on the profile object the active and the remembered session share
    var notPress := Credentials19.(me := Credentials19.me.(pressUser := false));
    session.SetCredentials(Some(notPress));
    session.Remember(session19.(me := notPress.me));
    var a2 := GetGameCredentials(session, db, game');
    assert a2 == Some(GameCredentials("api-key-19", None)) by {
      NoKeysGivesActiveKeyOnly(notPress, session.rememberedSessions, [], game');
    }

    session.SetCredentials(Some(Credentials19));
    session.Remember(session19);
    game' := game'.(inPressSystem := false);
    var a3 := GetGameCredentials(session, db, game');
    assert a3 == Some(GameCredentials("api-key-19", None)) by {
      NoKeysGivesActiveKeyOnly(Credentials19, session.rememberedSessions, [], game');
    }
    answers := [a0, a1, a2, a3];
  }

  /**
   * The case's second half: keys 190 (of 19) and 750 (of 75) are stored,
   * the active session switches to 75, key 750 is removed, 19 is forgotten.
   */
  method DownloadKeySteps(session: SessionState, db: DownloadKeyRepository, game: Game)
    returns (answers: seq<Option<GameCredentials>>)
    requires session.credentials == Some(Credentials19)
    requires session.rememberedSessions.Keys == {19, 75}
    requires session.rememberedSessions[19].key == "api-key-19"
    requires session.rememberedSessions[75].key == "api-key-75"
    requires db.rows == [] && game == Game(728, false)
    modifies session, db
    ensures answers == [
      Some(GameCredentials("api-key-19", Some(Key190))),
      Some(GameCredentials("api-key-75", Some(Key750))),
      Some(GameCredentials("api-key-19", Some(Key190))),
      Some(GameCredentials("api-key-75", None)),
      Some(GameCredentials("api-key-75", None))
    ]
  {
    var dk190 := db.Persist(DownloadKey(190, game.id, 19));
    var dk750 := db.Persist(DownloadKey(750, game.id, 75));
    assert db.rows == [Key190, Key750];
    var a4 := GetGameCredentials(session, db, game);

    session.SetCredentials(Some(Credentials75));
    var a5 := GetGameCredentials(session, db, game);
    assert a5 == Some(GameCredentials("api-key-75", Some(Key750))) by {
      assert db.rows[1..] == [Key750];
      assert OwnKey([Key750], 728, 75) == Some(Key750);
    }

    db.Remove(750);
    assert db.rows == [Key190] by {
      assert [Key190, Key750][1..] == [Key750] && [Key750][1..] == [];
      assert Without([Key750], 750) == [];
    }
    var a6 := GetGameCredentials(session, db, game);

    session.Forget(19);
    var a7 := GetGameCredentials(session, db, game);
    assert a7 == Some(GameCredentials("api-key-75", None)) by {
      UnrememberedOwnersIgnored(Credentials75, session.rememberedSessions, [Key190], game);
    }

    // the game was never stored, so the lookup by id resolves the bare id
    var a8 := ResolveForId(session.credentials, session.rememberedSessions, db.rows, map[], game.id);
    answers := [a4, a5, a6, a7, a8];
  }

  /** The `getGameCredentials` case: the answers of its nine calls, in order. */
  method GetGameCredentialsCase(now: int) returns (answers: seq<Option<GameCredentials>>)
    ensures answers == [
      None,
      Some(GameCredentials("api-key-19", None)),
      Some(GameCredentials("api-key-19", None)),
      Some(GameCredentials("api-key-19", None)),
      Some(GameCredentials("api-key-19", Some(DownloadKey(190, 728, 19)))),
      Some(GameCredentials("api-key-75", Some(DownloadKey(750, 728, 75)))),
      Some(GameCredentials("api-key-19", Some(DownloadKey(190, 728, 19)))),
      Some(GameCredentials("api-key-75", None)),
      Some(GameCredentials("api-key-75", None))
    ]
  {
    var session := new SessionState();
    var db := new DownloadKeyRepository();
    var first, game := PressSettingsSteps(session, db, Game(728, false), now);
    var second := DownloadKeySteps(session, db, game);
    answers := first + second;
  }
}
