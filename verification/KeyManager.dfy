/** The in-memory API key manager. */
module KeyManager {
  import opened Common
  import opened PyText
  import opened ApiKeys

  /** The fingerprint under which a key is stored: the hexadecimal SHA-256 of its text.  Any
      function may stand for it; where a lemma needs it, it is free of collisions on the keys
      at hand. */
  type KeyHash = string -> string

  ghost predicate CollisionFree(h: KeyHash, keys: seq<string>) {
    forall k, l | k in keys && l in keys && h(k) == h(l) :: k == l
  }

  datatype ApiKey = ApiKey(
    keyHash: string,
    scopes: set<string>,
    createdAt: int,
    expiresAt: Option<int>,
    lastUsedAt: Option<int>,
    tenantId: Option<string>,
    description: Option<string>)

  type Keys = map<string, ApiKey>

  predicate IsExpired(k: ApiKey, now: int) {
    k.expiresAt.Some? && now > k.expiresAt.value
  }

  /** A key as `from_settings` makes it. */
  function Loaded(h: KeyHash, s: Setting, now: int): ApiKey {
    ApiKey(h(s.key), s.scopes, now, None, None, None, None)
  }

  /** Settings loaded in order; a repeated key replaces the earlier one. */
  function LoadedKeys(h: KeyHash, settings: seq<Setting>, now: int): Keys {
    if settings == [] then map[] else
    var last := settings[|settings| - 1];
    LoadedKeys(h, settings[..|settings| - 1], now)[h(last.key) := Loaded(h, last, now)]
  }

  /** What `validate` answers. */
  function Answer(keys: Keys, hash: string, plaintext: string, now: int): Option<ApiKey> {
    if plaintext == "" || hash !in keys || IsExpired(keys[hash], now) then None
    else Some(keys[hash].(lastUsedAt := Some(now)))
  }

  predicate Accepts(keys: Keys, h: KeyHash, plaintext: string, now: int) {
    Answer(keys, h(plaintext), plaintext, now).Some?
  }

  function Validated(keys: Keys, hash: string, plaintext: string, now: int): Keys {
    match Answer(keys, hash, plaintext, now)
    case None => keys
    case Some(updated) => keys[hash := updated]
  }

  /** What a new key is given. */
  datatype Terms = Terms(
    scopes: set<string>, expiresAt: Option<int>, tenantId: Option<string>, description: Option<string>)

  function Added(keys: Keys, hash: string, terms: Terms, now: int): Keys {
    if hash in keys then keys else
    var scopes := if terms.scopes == {} then {READ} else terms.scopes;
    keys[hash := ApiKey(hash, scopes, now, terms.expiresAt, None, terms.tenantId, terms.description)]
  }

  // ----- the manager -------------------------------------------------------------------

  class ApiKeyManager {
    const h: KeyHash
    var keys: Keys

    /** `from_settings`, with one clock reading for all its keys. */
    constructor FromSettings(h: KeyHash, text: string, now: int)
      ensures this.h == h && keys == LoadedKeys(h, Settings(Split(text, ',')), now)
    {
      this.h, this.keys := h, map[];
      new;
      var settings := ParseSettings(text);
      for i := 0 to |settings|
        invariant keys == LoadedKeys(h, settings[..i], now)
      {
        LoadOneMore(h, settings, i, now);
        keys := keys[h(settings[i].key) := Loaded(h, settings[i], now)];
      }
      assert settings[..|settings|] == settings;
    }

    method Validate(plaintext: string, now: int) returns (answer: Option<ApiKey>)
      modifies this`keys
      ensures answer == Answer(old(keys), h(plaintext), plaintext, now)
      ensures keys == Validated(old(keys), h(plaintext), plaintext, now)
      ensures answer.Some? ==> h(plaintext) in keys && answer.value == keys[h(plaintext)]
    {
      if plaintext == "" {
        return None;
      }
      var hash := h(plaintext);
      if hash !in keys {
        return None;
      }
      var found := keys[hash];
      if IsExpired(found, now) {
        return None;
      }
      var updated := ApiKey(
        found.keyHash, found.scopes, found.createdAt, found.expiresAt, Some(now), found.tenantId, found.description);
      keys := keys[hash := updated];
      return Some(updated);
    }

    /** A key that exists already is refused. */
    method AddKey(plaintext: string, terms: Terms, now: int) returns (added: Option<ApiKey>)
      modifies this`keys
      ensures added.None? <==> h(plaintext) in old(keys)
      ensures keys == Added(old(keys), h(plaintext), terms, now)
      ensures added.Some? ==> h(plaintext) in keys && keys[h(plaintext)] == added.value
    {
      var hash := h(plaintext);
      if hash in keys {
        return None;
      }
      var scopes := if terms.scopes == {} then {READ} else terms.scopes;
      var apiKey := ApiKey(hash, scopes, now, terms.expiresAt, None, terms.tenantId, terms.description);
      keys := keys[hash := apiKey];
      return Some(apiKey);
    }

    method RevokeKey(hash: string) returns (revoked: bool)
      modifies this`keys
      ensures revoked <==> hash in old(keys)
      ensures keys == old(keys) - {hash}
    {
      if hash in keys {
        keys := keys - {hash};
        return true;
      }
      return false;
    }
  }

  lemma {:induction false} LoadOneMore(h: KeyHash, settings: seq<Setting>, i: nat, now: int)
    requires i < |settings|
    ensures LoadedKeys(h, settings[..i + 1], now)
         == LoadedKeys(h, settings[..i], now)[h(settings[i].key) := Loaded(h, settings[i], now)]
  {
    assert settings[..i + 1][..i] == settings[..i];
  }

  // ----- loaded keys -------------------------------------------------------------------

  /** The manager holds the fingerprints of exactly the keys in the settings. */
  lemma {:induction false} LoadedDomain(h: KeyHash, settings: seq<Setting>, now: int)
    ensures forall hash :: hash in LoadedKeys(h, settings, now) <==>
                           exists i :: 0 <= i < |settings| && h(settings[i].key) == hash
    ensures forall hash | hash in LoadedKeys(h, settings, now) :: LoadedKeys(h, settings, now)[hash].expiresAt.None?
  {
    if settings != [] {
      var n := |settings| - 1;
      LoadedDomain(h, settings[..n], now);
      forall hash
        ensures hash in LoadedKeys(h, settings, now) <==> exists i :: 0 <= i < |settings| && h(settings[i].key) == hash
      {
        if i :| 0 <= i < n && h(settings[i].key) == hash {
          assert settings[..n][i] == settings[i];
        }
        if i :| 0 <= i < n && h(settings[..n][i].key) == hash {
          assert settings[i] == settings[..n][i];
        }
        assert h(settings[n].key) == hash ==> hash in LoadedKeys(h, settings, now);
      }
    }
  }

  /** Keys that are all different keep their own scopes. */
  lemma {:induction false} LoadedScopes(h: KeyHash, settings: seq<Setting>, now: int, i: nat)
    requires i < |settings|
    requires forall a, b | 0 <= a < b < |settings| :: h(settings[a].key) != h(settings[b].key)
    ensures h(settings[i].key) in LoadedKeys(h, settings, now)
    ensures LoadedKeys(h, settings, now)[h(settings[i].key)] == Loaded(h, settings[i], now)
  {
    var n := |settings| - 1;
    if i < n {
      LoadedScopes(h, settings[..n], now, i);
      assert h(settings[i].key) != h(settings[n].key);
    }
  }

  /** A key is accepted after loading if and only if the settings hold it, to the character. */
  lemma {:induction false} LoadedAccepts(h: KeyHash, settings: seq<Setting>, loaded: int, plaintext: string, now: int)
    requires CollisionFree(h, KeysOf(settings) + [plaintext])
    ensures Accepts(LoadedKeys(h, settings, loaded), h, plaintext, now) <==> plaintext != "" && plaintext in KeysOf(settings)
  {
    LoadedDomain(h, settings, loaded);
    KeysOfAt(settings);
    forall i | 0 <= i < |settings| ensures h(settings[i].key) == h(plaintext) <==> settings[i].key == plaintext {
      assert KeysOf(settings)[i] in KeysOf(settings) + [plaintext] && plaintext in KeysOf(settings) + [plaintext];
    }
  }

  lemma {:induction false} KeysOfAt(settings: seq<Setting>)
    ensures forall i | 0 <= i < |settings| :: KeysOf(settings)[i] == settings[i].key
    ensures forall k :: k in KeysOf(settings) <==> exists i :: 0 <= i < |settings| && settings[i].key == k
  {
    if settings != [] {
      var n := |settings| - 1;
      KeysOfAt(settings[..n]);
      assert forall i | 0 <= i < |settings| :: KeysOf(settings)[i] == settings[i].key;
    }
  }

  ghost predicate DistinctKeys(grants: seq<Grant>) {
    forall a, b | 0 <= a < b < |grants| :: grants[a].key != grants[b].key
  }

  lemma {:induction false} DistinctHashes(h: KeyHash, grants: seq<Grant>, a: nat, b: nat)
    requires DistinctKeys(grants) && CollisionFree(h, KeysOf(AllGranted(grants))) && a < b < |grants|
    ensures h(AllGranted(grants)[a].key) != h(AllGranted(grants)[b].key)
  {
    var settings := AllGranted(grants);
    KeysOfAt(settings);
    assert settings[a].key in KeysOf(settings) && settings[b].key in KeysOf(settings);
    assert settings[a].key == grants[a].key && settings[b].key == grants[b].key;
  }

  /** Distinct well-formed keys survive the trip through the settings text: the manager loaded from
      it holds each with exactly its scopes and accepts it, and holds no other fingerprint; the
      other parser lists exactly these keys. */
  lemma {:induction false} SettingsRoundTrip(h: KeyHash, grants: seq<Grant>, loaded: int, now: int, i: nat,
                                             hash: string)
    requires DistinctKeys(grants) && forall g | g in grants :: IsWellFormed(g)
    requires CollisionFree(h, KeysOf(AllGranted(grants)))
    ensures var keys := LoadedKeys(h, Settings(Split(PrintAll(grants), ',')), loaded);
            && (i < |grants| ==>
                  && h(grants[i].key) in keys && Accepts(keys, h, grants[i].key, now)
                  && IsLoaded(keys[h(grants[i].key)], h, grants[i], loaded))
            && (hash in keys <==> exists j :: 0 <= j < |grants| && h(AllGranted(grants)[j].key) == hash)
    ensures ListedKeys(Split(PrintAll(grants), ',')) == KeysOf(AllGranted(grants))
  {
    PrintedSettingsReadBack(grants);
    LoadedDomain(h, AllGranted(grants), loaded);
    if i < |grants| {
      GrantHolds(h, grants, loaded, now, i);
    }
  }

  /** As loaded: with the scopes printed or, for a bare key, all rights; without expiry and unused. */
  predicate IsLoaded(k: ApiKey, h: KeyHash, g: Grant, loaded: int) {
    && k.scopes == (match g case Grant(_, scopes) => (set s | s in scopes) case Bare(_) => {"admin"})
    && k.keyHash == h(g.key) && k.createdAt == loaded && k.expiresAt.None? && k.lastUsedAt.None?
    && k.tenantId.None? && k.description.None?
  }

  lemma {:induction false} GrantHolds(h: KeyHash, grants: seq<Grant>, loaded: int, now: int, i: nat)
    requires DistinctKeys(grants) && (forall g | g in grants :: IsWellFormed(g)) && i < |grants|
    requires CollisionFree(h, KeysOf(AllGranted(grants)))
    ensures var keys := LoadedKeys(h, AllGranted(grants), loaded);
            && h(grants[i].key) in keys && Accepts(keys, h, grants[i].key, now)
            && IsLoaded(keys[h(grants[i].key)], h, grants[i], loaded)
  {
    var settings := AllGranted(grants);
    forall a, b | 0 <= a < b < |settings| ensures h(settings[a].key) != h(settings[b].key) {
      DistinctHashes(h, grants, a, b);
    }
    LoadedScopes(h, settings, loaded, i);
    assert grants[i] in grants;
  }

  /** Without white space before a colon, every key that `valid_api_keys` lists is accepted, but for
      an empty one. */
  lemma {:induction false} ListedKeysAreAccepted(h: KeyHash, text: string, loaded: int, now: int, key: string)
    requires NoSpaceBeforeColons(Split(text, ',')) && key in ListedKeys(Split(text, ',')) && key != ""
    requires CollisionFree(h, KeysOf(Settings(Split(text, ','))) + [key])
    ensures Accepts(LoadedKeys(h, Settings(Split(text, ',')), loaded), h, key, now)
  {
    ParsersAgreeWhen(Split(text, ','));
    LoadedAccepts(h, Settings(Split(text, ',')), loaded, key, now);
  }

  lemma {:induction false} OneSegment(text: string)
    requires ',' !in text && IsTrimmed(text) && text != ""
    ensures Settings(Split(text, ',')) == [SettingOf(text)] && ListedKeys(Split(text, ',')) == [ListedKey(text)]
  {
    SplitFirst(text, ',', "");
    TrimmedStripsToItself(text);
    var segments := [text];
    assert Settings(segments[..0]) == [] && ListedKeys(segments[..0]) == [];
  }

  lemma {:induction false} SpacedKey(text: string)
    requires text == "k :read"
    ensures Settings(Split(text, ',')) == [SettingOf(text)] && SettingOf(text).key == "k "
    ensures ListedKeys(Split(text, ',')) == ["k"]
  {
    OneSegment(text);
    FindIs(text, ':', 2);
    assert text[..2] == "k ";
    StripOneSpace();
  }

  /** With it, one need not be: of "k :read" the manager stores `k` and a space, while the other
      parser lists `k`. */
  lemma {:induction false} ListedKeyRefused(h: KeyHash, loaded: int, now: int, text: string)
    requires text == "k :read" && CollisionFree(h, ["k "] + ["k"])
    ensures ListedKeys(Split(text, ',')) == ["k"]
    ensures !Accepts(LoadedKeys(h, Settings(Split(text, ',')), loaded), h, "k", now)
  {
    SpacedKey(text);
    var only := SettingOf(text);
    KeysOfAt([only]);
    assert KeysOf([only]) == ["k "];
    LoadedAccepts(h, [only], loaded, "k", now);
  }

  lemma {:induction false} StripOneSpace()
    ensures Strip("k ") == "k"
  {
    assert "k "[0..] == "k " && "k "[..1] == "k";
    assert Leading("k ") == 0 && Ending("k ") == 1;
  }

  // ----- runs --------------------------------------------------------------------------

  datatype Step =
    | Validate(plaintext: string, now: int)
    | Add(plaintext: string, terms: Terms, now: int)
    | Revoke(hash: string)

  function Apply(h: KeyHash, keys: Keys, step: Step): Keys {
    match step
    case Validate(plaintext, now) => Validated(keys, h(plaintext), plaintext, now)
    case Add(plaintext, terms, now) => Added(keys, h(plaintext), terms, now)
    case Revoke(hash) => keys - {hash}
  }

  function Run(h: KeyHash, keys: Keys, steps: seq<Step>): Keys
    decreases |steps|
  {
    if steps == [] then keys else Run(h, Apply(h, keys, steps[0]), steps[1..])
  }

  predicate Revokes(step: Step, hash: string) {
    step.Revoke? && step.hash == hash
  }

  predicate Adds(h: KeyHash, step: Step, hash: string) {
    step.Add? && h(step.plaintext) == hash
  }

  /** Until it is revoked a stored key keeps its scopes, expiry and all else but the time of last
      use, over every run of the manager's operations. */
  lemma {:induction false} StoredKeyStaysAsItIs(h: KeyHash, keys: Keys, steps: seq<Step>, hash: string)
    requires hash in keys && forall i | 0 <= i < |steps| :: !Revokes(steps[i], hash)
    ensures hash in Run(h, keys, steps)
    ensures Run(h, keys, steps)[hash] == keys[hash].(lastUsedAt := Run(h, keys, steps)[hash].lastUsedAt)
    decreases |steps|
  {
    if steps != [] {
      var next := Apply(h, keys, steps[0]);
      assert !Revokes(steps[0], hash);
      assert hash in next && next[hash] == keys[hash].(lastUsedAt := next[hash].lastUsedAt);
      StoredKeyStaysAsItIs(h, next, steps[1..], hash);
    }
  }

  /** A key that is not stored, having been revoked or never added, stays so until it is added. */
  lemma {:induction false} AbsentKeyStaysAbsent(h: KeyHash, keys: Keys, steps: seq<Step>, hash: string)
    requires hash !in keys && forall i | 0 <= i < |steps| :: !Adds(h, steps[i], hash)
    ensures hash !in Run(h, keys, steps)
    decreases |steps|
  {
    if steps != [] {
      assert !Adds(h, steps[0], hash);
      AbsentKeyStaysAbsent(h, Apply(h, keys, steps[0]), steps[1..], hash);
    }
  }

  /** After revoking a key's fingerprint the key is refused until it is added again, whatever else
      is done in between. */
  lemma {:induction false} RevokedKeyStaysRefused(h: KeyHash, keys: Keys, steps: seq<Step>, plaintext: string, now: int)
    requires forall i | 0 <= i < |steps| :: !Adds(h, steps[i], h(plaintext))
    ensures !Accepts(Run(h, keys, [Revoke(h(plaintext))] + steps), h, plaintext, now)
  {
    var all := [Revoke(h(plaintext))] + steps;
    assert all[1..] == steps;
    AbsentKeyStaysAbsent(h, keys - {h(plaintext)}, steps, h(plaintext));
  }

  /** A key that is added is accepted up to and including the moment it expires, and until it is
      revoked, with the scopes it was given or else to read; whatever is done in between. */
  lemma {:induction false} AddedKeyIsAcceptedUntil(h: KeyHash, keys: Keys, plaintext: string, terms: Terms, added: int,
                                                   steps: seq<Step>, now: int)
    requires plaintext != "" && h(plaintext) !in keys
    requires forall i | 0 <= i < |steps| :: !Revokes(steps[i], h(plaintext))
    ensures var after := Run(h, keys, [Add(plaintext, terms, added)] + steps);
            && (Accepts(after, h, plaintext, now) <==> (terms.expiresAt.Some? ==> now <= terms.expiresAt.value))
            && h(plaintext) in after
            && after[h(plaintext)].scopes == (if terms.scopes == {} then {"read"} else terms.scopes)
            && after[h(plaintext)].createdAt == added && after[h(plaintext)].tenantId == terms.tenantId
            && after[h(plaintext)].description == terms.description
  {
    var all := [Add(plaintext, terms, added)] + steps;
    assert all[1..] == steps;
    StoredKeyStaysAsItIs(h, Added(keys, h(plaintext), terms, added), steps, h(plaintext));
  }

  /** An expired key is refused from then on: it cannot be used or added over, only revoked. */
  lemma {:induction false} ExpiredKeyStaysRefused(h: KeyHash, keys: Keys, steps: seq<Step>, plaintext: string,
                                                  past: int, now: int)
    requires h(plaintext) in keys && keys[h(plaintext)].expiresAt.Some?
    requires keys[h(plaintext)].expiresAt.value < past <= now
    requires forall i | 0 <= i < |steps| :: !Revokes(steps[i], h(plaintext))
    ensures !Accepts(Run(h, keys, steps), h, plaintext, now)
  {
    StoredKeyStaysAsItIs(h, keys, steps, h(plaintext));
  }
}
