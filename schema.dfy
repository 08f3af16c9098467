/**
 * The zod schemas of packages/workshop-utils/src/db.server.ts (lines 8-71)
 * as validate-and-default functions over JSON values.
 *
 * Each `ValidateX` mirrors one schema: it either rejects the value or
 * returns the value zod's `parse` would return (defaults filled in, unknown
 * keys stripped, except under `onboarding`, which passes them through).
 * A key that is missing from the input is passed in as `None` (zod sees
 * `undefined`); `.optional()` lets `undefined` through but not `null`;
 * `.default(d)` replaces `undefined` by `d` and then validates `d` too.
 *
 * Each schema also has a normal-form predicate `IsX` that says, declaratively,
 * what a validated value looks like. Two facts tie them together: everything
 * a validator returns is in normal form, and every normal form validates to
 * itself. Idempotence of validation follows.
 */
module Schema {
  import opened Wrappers
  import opened JsonValues

  /** A validation failure, with the path to the offending object or field. */
  datatype Error = Invalid(path: seq<string>)

  /** Puts a key in front of the path of a failure coming from a nested schema. */
  function Under<T>(k: string, r: Result<T, Error>): (s: Result<T, Error>)
    ensures s.Ok? <==> r.Ok?
    ensures r.Ok? ==> s == r
  {
    match r
    case Ok(_) => r
    case Err(Invalid(p)) => Err(Invalid([k] + p))
  }

  // ---------------------------------------------------------------- leaves

  /** The primitive zod schemas the store uses for single fields. */
  datatype Leaf = LString | LNumber | LBoolean | LNullableString

  predicate Accepts(kind: Leaf, v: Json)
  {
    match kind
    case LString => v.JStr?
    case LNumber => v.JNum?
    case LBoolean => v.JBool?
    case LNullableString => v.JStr? || v.JNull?
  }

  /**
   * Validates the `.optional()` leaves `leaves` of an object: a leaf that is
   * absent stays absent, a present one must be accepted by its kind (so
   * `null` is refused unless the kind is nullable). Keys that are not leaves
   * are left to the caller.
   */
  function OptionalLeaves(o: map<string, Json>, leaves: map<string, Leaf>): (r: Result<map<string, Json>, Error>)
    ensures r.Ok? <==> forall k :: k in o && k in leaves ==> Accepts(leaves[k], o[k])
    ensures r.Ok? ==> r.value.Keys == o.Keys * leaves.Keys
    ensures r.Ok? ==> forall k :: k in r.value ==> r.value[k] == o[k]
  {
    if forall k :: k in o && k in leaves ==> Accepts(leaves[k], o[k]) then
      Ok(map k | k in o && k in leaves :: o[k])
    else
      Err(Invalid([]))
  }

  // -------------------------------------------------------------- TokenSet

  const TokenSetKeys: set<string> := {"access_token", "token_type", "scope"}

  /** Line 8-12: three required strings; anything else in the object is dropped. */
  predicate IsTokenSet(j: Json)
  {
    j.JObj? && j.fields.Keys == TokenSetKeys
    && forall k :: k in j.fields ==> j.fields[k].JStr?
  }

  function ValidateTokenSet(v: Json): (r: Result<Json, Error>)
    ensures r.Ok? <==> v.JObj? && forall k :: k in TokenSetKeys ==> k in v.fields && v.fields[k].JStr?
    ensures r.Ok? ==> IsTokenSet(r.value)
    ensures r.Ok? ==> forall k :: k in TokenSetKeys ==> r.value.fields[k] == v.fields[k]
  {
    if !v.JObj? then Err(Invalid([]))
    else if !("access_token" in v.fields && v.fields["access_token"].JStr?) then Err(Invalid(["access_token"]))
    else if !("token_type" in v.fields && v.fields["token_type"].JStr?) then Err(Invalid(["token_type"]))
    else if !("scope" in v.fields && v.fields["scope"].JStr?) then Err(Invalid(["scope"]))
    else
      Ok(JObj(map["access_token" := v.fields["access_token"],
                  "token_type" := v.fields["token_type"],
                  "scope" := v.fields["scope"]]))
  }

  // -------------------------------------------------------------- Subtitle

  const SubtitleModes: set<string> := {"disabled", "hidden", "showing"}

  predicate IsSubtitleId(v: Json) { v.JNull? || v.JStr? }

  predicate IsSubtitleMode(v: Json) { v.JNull? || (v.JStr? && v.s in SubtitleModes) }

  /** Lines 20-31: `id` and `mode` are always present after validation. */
  predicate IsSubtitle(j: Json)
  {
    j.JObj? && j.fields.Keys == {"id", "mode"}
    && IsSubtitleId(j.fields["id"]) && IsSubtitleMode(j.fields["mode"])
  }

  /** The subtitle that `.default({})` produces: `{id: null, mode: "disabled"}`. */
  const DefaultSubtitle: Json := JObj(map["id" := JNull, "mode" := JStr("disabled")])

  /** A subtitle object with its two defaults filled in and everything else dropped. */
  function FillSubtitle(o: map<string, Json>): Json
  {
    JObj(map["id" := if "id" in o then o["id"] else JNull,
             "mode" := if "mode" in o then o["mode"] else JStr("disabled")])
  }

  function ValidateSubtitle(v: Option<Json>): (r: Result<Json, Error>)
    ensures v.None? ==> r == Ok(DefaultSubtitle)
    ensures r.Ok? <==> v.None? || (v.value.JObj?
                        && ("id" in v.value.fields ==> IsSubtitleId(v.value.fields["id"]))
                        && ("mode" in v.value.fields ==> IsSubtitleMode(v.value.fields["mode"])))
    ensures r.Ok? ==> IsSubtitle(r.value)
    ensures r.Ok? && v.Some? ==> r.value == FillSubtitle(v.value.fields)
  {
    var w := if v.None? then JObj(map[]) else v.value;
    if !w.JObj? then Err(Invalid([]))
    else if "id" in w.fields && !IsSubtitleId(w.fields["id"]) then Err(Invalid(["id"]))
    else if "mode" in w.fields && !IsSubtitleMode(w.fields["mode"]) then Err(Invalid(["mode"]))
    else Ok(FillSubtitle(w.fields))
  }

  // ------------------------------------------------------ PlayerPreferences

  /** The optional leaves of PlayerPreferencesSchema (lines 15-19, 32-35). */
  const PlayerLeaves: map<string, Leaf> := map[
    "minResolution" := LNumber, "maxResolution" := LNumber,
    "volumeRate" := LNumber, "playbackRate" := LNumber,
    "autoplay" := LBoolean, "muted" := LBoolean, "theater" := LBoolean,
    "defaultView" := LString, "activeSidebarTab" := LNumber]

  const PlayerKeys: set<string> := PlayerLeaves.Keys + {"subtitle"}

  /** A validated player object: `subtitle` always present, other leaves optional. */
  predicate IsPlayer(j: Json)
  {
    j.JObj? && "subtitle" in j.fields && j.fields.Keys <= PlayerKeys
    && IsSubtitle(j.fields["subtitle"])
    && forall k :: k in j.fields && k in PlayerLeaves ==> Accepts(PlayerLeaves[k], j.fields[k])
  }

  /** The player preferences that `.default({})` produces. */
  const DefaultPlayer: Json := JObj(map["subtitle" := DefaultSubtitle])

  function ValidatePlayer(v: Option<Json>): (r: Result<Json, Error>)
    ensures v.None? ==> r == Ok(DefaultPlayer)
    ensures v.Some? ==> (r.Ok? <==>
      && v.value.JObj?
      && (forall k :: k in v.value.fields && k in PlayerLeaves ==> Accepts(PlayerLeaves[k], v.value.fields[k]))
      && ValidateSubtitle(Get(v.value.fields, "subtitle")).Ok?)
    ensures r.Ok? ==> IsPlayer(r.value)
    ensures r.Ok? && v.Some? ==>
      && v.value.JObj?
      && ValidateSubtitle(Get(v.value.fields, "subtitle")).Ok?
      && (forall k :: k in PlayerLeaves ==> (k in r.value.fields <==> k in v.value.fields))
      && (forall k :: k in PlayerLeaves && k in v.value.fields ==> r.value.fields[k] == v.value.fields[k])
      && r.value.fields["subtitle"] == ValidateSubtitle(Get(v.value.fields, "subtitle")).value
  {
    var w := if v.None? then JObj(map[]) else v.value;
    if !w.JObj? then Err(Invalid([]))
    else match OptionalLeaves(w.fields, PlayerLeaves)
      case Err(e) => Err(e)
      case Ok(leaves) =>
        match Under("subtitle", ValidateSubtitle(Get(w.fields, "subtitle")))
        case Err(e) => Err(e)
        case Ok(sub) => Ok(JObj(leaves["subtitle" := sub]))
  }

  // ---------------------------------------------------- PresencePreferences

  /** Lines 40-45: exactly one boolean, `optOut`. */
  predicate IsPresence(j: Json)
  {
    j.JObj? && j.fields.Keys == {"optOut"} && j.fields["optOut"].JBool?
  }

  const DefaultPresence: Json := JObj(map["optOut" := JBool(false)])

  function ValidatePresence(v: Option<Json>): (r: Result<Json, Error>)
    ensures v.None? ==> r == Ok(DefaultPresence)
    ensures v.Some? ==> (r.Ok? <==> v.value.JObj? && "optOut" in v.value.fields && v.value.fields["optOut"].JBool?)
    ensures r.Ok? ==> IsPresence(r.value)
    ensures r.Ok? && v.Some? ==> r.value.fields["optOut"] == v.value.fields["optOut"]
  {
    var w := if v.None? then DefaultPresence else v.value;
    if !w.JObj? then Err(Invalid([]))
    else if !("optOut" in w.fields && w.fields["optOut"].JBool?) then Err(Invalid(["optOut"]))
    else Ok(JObj(map["optOut" := w.fields["optOut"]]))
  }

  // --------------------------------------------------------------- AuthInfo

  const AuthInfoKeys: set<string> := {"id", "tokenSet", "email", "name"}

  /** Lines 47-52: `name` is the only optional field, and it may be null. */
  predicate IsAuthInfo(j: Json)
  {
    j.JObj? && j.fields.Keys <= AuthInfoKeys
    && "id" in j.fields && j.fields["id"].JStr?
    && "tokenSet" in j.fields && IsTokenSet(j.fields["tokenSet"])
    && "email" in j.fields && j.fields["email"].JStr?
    && ("name" in j.fields ==> Accepts(LNullableString, j.fields["name"]))
  }

  function ValidateAuthInfo(v: Json): (r: Result<Json, Error>)
    ensures r.Ok? <==>
      && v.JObj?
      && "id" in v.fields && v.fields["id"].JStr?
      && "tokenSet" in v.fields && ValidateTokenSet(v.fields["tokenSet"]).Ok?
      && "email" in v.fields && v.fields["email"].JStr?
      && ("name" in v.fields ==> Accepts(LNullableString, v.fields["name"]))
    ensures r.Ok? ==> IsAuthInfo(r.value)
    ensures r.Ok? ==>
      && r.value.fields["id"] == v.fields["id"]
      && r.value.fields["email"] == v.fields["email"]
      && r.value.fields["tokenSet"] == ValidateTokenSet(v.fields["tokenSet"]).value
      && Get(r.value.fields, "name") == Get(v.fields, "name")
  {
    if !v.JObj? then Err(Invalid([]))
    else if !("id" in v.fields && v.fields["id"].JStr?) then Err(Invalid(["id"]))
    else if "tokenSet" !in v.fields then Err(Invalid(["tokenSet"]))
    else match Under("tokenSet", ValidateTokenSet(v.fields["tokenSet"]))
      case Err(e) => Err(e)
      case Ok(tokens) =>
        if !("email" in v.fields && v.fields["email"].JStr?) then Err(Invalid(["email"]))
        else match OptionalLeaves(v.fields, map["name" := LNullableString])
          case Err(e) => Err(e)
          case Ok(name) =>
            Ok(JObj(map["id" := v.fields["id"], "tokenSet" := tokens, "email" := v.fields["email"]] + name))
  }

  // ------------------------------------------------------------- Onboarding

  predicate IsStringArray(v: Json)
  {
    v.JArr? && forall i :: 0 <= i < |v.items| ==> v.items[i].JStr?
  }

  /** Lines 55-61: a string list under `tourVideosWatched`, anything else kept. */
  predicate IsOnboarding(j: Json)
  {
    j.JObj? && "tourVideosWatched" in j.fields && IsStringArray(j.fields["tourVideosWatched"])
  }

  const DefaultOnboarding: Json := JObj(map["tourVideosWatched" := JArr([])])

  function ValidateOnboarding(v: Option<Json>): (r: Result<Json, Error>)
    ensures v.None? ==> r == Ok(DefaultOnboarding)
    ensures v.Some? ==> (r.Ok? <==> v.value.JObj? && ("tourVideosWatched" in v.value.fields ==> IsStringArray(v.value.fields["tourVideosWatched"])))
    ensures r.Ok? ==> IsOnboarding(r.value)
    ensures r.Ok? && v.Some? ==>
      && r.value.fields.Keys == v.value.fields.Keys + {"tourVideosWatched"}
      && (forall k :: k in v.value.fields ==> r.value.fields[k] == v.value.fields[k])
      && ("tourVideosWatched" !in v.value.fields ==> r.value.fields["tourVideosWatched"] == JArr([]))
  {
    var w := if v.None? then DefaultOnboarding else v.value;
    if !w.JObj? then Err(Invalid([]))
    else
      var watched := if "tourVideosWatched" in w.fields then w.fields["tourVideosWatched"] else JArr([]);
      if !IsStringArray(watched) then Err(Invalid(["tourVideosWatched"]))
      else
        assert v.None? ==> w.fields["tourVideosWatched" := watched] == DefaultOnboarding.fields;
        Ok(JObj(w.fields["tourVideosWatched" := watched]))
  }

  // ------------------------------------------------------------ Preferences

  /** Lines 62-68: both sub-objects are always present after validation. */
  predicate IsPreferences(j: Json)
  {
    j.JObj? && j.fields.Keys == {"player", "presence"}
    && IsPlayer(j.fields["player"]) && IsPresence(j.fields["presence"])
  }

  const DefaultPreferences: Json := JObj(map["player" := DefaultPlayer, "presence" := DefaultPresence])

  function ValidatePreferences(v: Option<Json>): (r: Result<Json, Error>)
    ensures v.None? ==> r == Ok(DefaultPreferences)
    ensures r.Ok? ==> IsPreferences(r.value)
    ensures r.Ok? ==> v.None? || v.value.JObj?
    ensures r.Ok? && v.Some? ==>
      && ValidatePlayer(Get(v.value.fields, "player")).Ok?
      && ValidatePresence(Get(v.value.fields, "presence")).Ok?
      && r.value.fields["player"] == ValidatePlayer(Get(v.value.fields, "player")).value
      && r.value.fields["presence"] == ValidatePresence(Get(v.value.fields, "presence")).value
    ensures v.Some? ==>
      (r.Ok? <==> v.value.JObj?
                  && ValidatePlayer(Get(v.value.fields, "player")).Ok?
                  && ValidatePresence(Get(v.value.fields, "presence")).Ok?)
  {
    var w := if v.None? then JObj(map[]) else v.value;
    if !w.JObj? then Err(Invalid([]))
    else match Under("player", ValidatePlayer(Get(w.fields, "player")))
      case Err(e) => Err(e)
      case Ok(player) =>
        match Under("presence", ValidatePresence(Get(w.fields, "presence")))
        case Err(e) => Err(e)
        case Ok(presence) => Ok(JObj(map["player" := player, "presence" := presence]))
  }

  // ------------------------------------------------------------------- Data

  const DataKeys: set<string> := {"onboarding", "preferences", "authInfo", "clientId"}

  /** Lines 54-71: the whole stored document after validation. */
  predicate IsDocument(j: Json)
  {
    j.JObj? && j.fields.Keys <= DataKeys
    && "onboarding" in j.fields && IsOnboarding(j.fields["onboarding"])
    && "preferences" in j.fields && IsPreferences(j.fields["preferences"])
    && ("authInfo" in j.fields ==> IsAuthInfo(j.fields["authInfo"]))
    && ("clientId" in j.fields ==> j.fields["clientId"].JStr?)
  }

  /** What `DataSchema.parse({})` returns. */
  const DefaultDocument: Json := JObj(map["onboarding" := DefaultOnboarding, "preferences" := DefaultPreferences])

  /** Validates `authInfo: AuthInfoSchema.optional()`: absent stays absent. */
  function OptionalAuthInfo(v: Option<Json>): (r: Result<Option<Json>, Error>)
    ensures v.None? ==> r == Ok(None)
    ensures v.Some? ==> (r.Ok? <==> ValidateAuthInfo(v.value).Ok?)
    ensures v.Some? && r.Ok? ==> r.value == Some(ValidateAuthInfo(v.value).value)
  {
    if v.None? then Ok(None)
    else match ValidateAuthInfo(v.value)
      case Err(e) => Err(e)
      case Ok(a) => Ok(Some(a))
  }

  /** `o` with `k: v` added when `v` is present, unchanged otherwise. */
  function With(o: map<string, Json>, k: string, v: Option<Json>): (r: map<string, Json>)
    ensures r.Keys == if v.Some? then o.Keys + {k} else o.Keys
    ensures v.Some? ==> r[k] == v.value
    ensures forall j :: j in o && j != k ==> r[j] == o[j]
  {
    if v.Some? then o[k := v.value] else o
  }

  /** `clientId: z.string().optional()` (line 70). */
  predicate ClientIdOk(v: Option<Json>)
  {
    v.None? || v.value.JStr?
  }

  /**
   * The four top-level fields, each validated by its own schema, put back
   * together; keys other than these four are dropped.
   */
  function Assemble(onboarding: Result<Json, Error>, preferences: Result<Json, Error>,
                    authInfo: Result<Option<Json>, Error>, clientId: Option<Json>): (r: Result<Json, Error>)
    requires onboarding.Ok? ==> IsOnboarding(onboarding.value)
    requires preferences.Ok? ==> IsPreferences(preferences.value)
    requires authInfo.Ok? && authInfo.value.Some? ==> IsAuthInfo(authInfo.value.value)
    ensures r.Ok? <==> onboarding.Ok? && preferences.Ok? && authInfo.Ok? && ClientIdOk(clientId)
    ensures r.Ok? ==> IsDocument(r.value)
    ensures r.Ok? ==>
      && r.value.fields["onboarding"] == onboarding.value
      && r.value.fields["preferences"] == preferences.value
      && Get(r.value.fields, "authInfo") == authInfo.value
      && Get(r.value.fields, "clientId") == clientId
  {
    if onboarding.Err? then Under("onboarding", onboarding)
    else if preferences.Err? then Under("preferences", preferences)
    else if authInfo.Err? then Err(Invalid(["authInfo"] + authInfo.error.path))
    else if !ClientIdOk(clientId) then Err(Invalid(["clientId"]))
    else
      AssembledIsDocument(onboarding.value, preferences.value, authInfo.value, clientId);
      Ok(JObj(Assembled(onboarding.value, preferences.value, authInfo.value, clientId)))
  }

  /** The four validated fields as one object, the optional two only when present. */
  function Assembled(onboarding: Json, preferences: Json, authInfo: Option<Json>, clientId: Option<Json>): map<string, Json>
  {
    With(With(map["onboarding" := onboarding, "preferences" := preferences], "authInfo", authInfo), "clientId", clientId)
  }

  lemma AssembledIsDocument(onboarding: Json, preferences: Json, authInfo: Option<Json>, clientId: Option<Json>)
    requires IsOnboarding(onboarding) && IsPreferences(preferences)
    requires authInfo.Some? ==> IsAuthInfo(authInfo.value)
    requires ClientIdOk(clientId)
    ensures var m := Assembled(onboarding, preferences, authInfo, clientId);
      && IsDocument(JObj(m))
      && m["onboarding"] == onboarding && m["preferences"] == preferences
      && Get(m, "authInfo") == authInfo && Get(m, "clientId") == clientId
  {
    var base := map["onboarding" := onboarding, "preferences" := preferences];
    var m1 := With(base, "authInfo", authInfo);
    var m := With(m1, "clientId", clientId);
    assert m1.Keys <= DataKeys && m1["onboarding"] == onboarding && m1["preferences"] == preferences;
    assert Get(m1, "authInfo") == authInfo;
    assert m.Keys <= DataKeys && m["onboarding"] == onboarding && m["preferences"] == preferences;
    assert Get(m, "authInfo") == authInfo && Get(m, "clientId") == clientId;
  }

  function ValidateData(v: Json): (r: Result<Json, Error>)
    ensures r.Ok? ==> IsDocument(r.value)
    ensures r.Ok? ==> v.JObj?
  {
    if !v.JObj? then Err(Invalid([]))
    else
      Assemble(ValidateOnboarding(Get(v.fields, "onboarding")),
               ValidatePreferences(Get(v.fields, "preferences")),
               OptionalAuthInfo(Get(v.fields, "authInfo")),
               Get(v.fields, "clientId"))
  }
}

/** Properties of the schema layer: normal forms, idempotence, defaults, rejections. */
module SchemaFacts {
  import opened Wrappers
  import opened JsonValues
  import opened Schema

  /** How `ValidateData` decides, field by field (a helper for the proofs below). */
  lemma ValidateDataParts(v: Json)
    requires v.JObj?
    ensures ValidateData(v) == Assemble(ValidateOnboarding(Get(v.fields, "onboarding")),
                                        ValidatePreferences(Get(v.fields, "preferences")),
                                        OptionalAuthInfo(Get(v.fields, "authInfo")),
                                        Get(v.fields, "clientId"))
  {
  }

  /** The four fields of `o` validate, one by one, to the fields of the document `d`. */
  predicate ComponentsValidateTo(o: map<string, Json>, d: map<string, Json>)
  {
    && OnboardingValidatesTo(o, d)
    && PreferencesValidateTo(o, d)
    && AuthInfoValidatesTo(o, d)
    && Get(o, "clientId") == Get(d, "clientId")
  }

  predicate OnboardingValidatesTo(o: map<string, Json>, d: map<string, Json>)
  {
    "onboarding" in d && ValidateOnboarding(Get(o, "onboarding")) == Ok(d["onboarding"])
  }

  predicate PreferencesValidateTo(o: map<string, Json>, d: map<string, Json>)
  {
    "preferences" in d && ValidatePreferences(Get(o, "preferences")) == Ok(d["preferences"])
  }

  predicate AuthInfoValidatesTo(o: map<string, Json>, d: map<string, Json>)
  {
    OptionalAuthInfo(Get(o, "authInfo")) == Ok(Get(d, "authInfo"))
  }

  /** A document that parses hands each of its four fields to its own schema. */
  lemma ValidatedComponents(o: map<string, Json>)
    requires ValidateData(JObj(o)).Ok?
    ensures ComponentsValidateTo(o, ValidateData(JObj(o)).value.fields)
  {
    ValidateDataParts(JObj(o));
  }

  /** A document is rejected exactly when one of its four fields is. */
  lemma RejectedWhenAPartIs(o: map<string, Json>)
    ensures ValidateData(JObj(o)).Err? <==>
      || ValidateOnboarding(Get(o, "onboarding")).Err?
      || ValidatePreferences(Get(o, "preferences")).Err?
      || OptionalAuthInfo(Get(o, "authInfo")).Err?
      || !ClientIdOk(Get(o, "clientId"))
  {
    ValidateDataParts(JObj(o));
  }

  /** The default player preferences are in normal form. */
  lemma DefaultPlayerIsPlayer()
    ensures IsPlayer(DefaultPlayer)
  {
    assert DefaultPlayer.fields.Keys == {"subtitle"};
  }

  /** The default preferences are in normal form. */
  lemma DefaultPreferencesIsPreferences()
    ensures IsPreferences(DefaultPreferences)
  {
    DefaultPlayerIsPlayer();
    assert DefaultPreferences.fields["player"] == DefaultPlayer;
    assert DefaultPreferences.fields["presence"] == DefaultPresence;
  }

  /** The default document is in normal form. */
  lemma DefaultDocumentIsDocument()
    ensures IsDocument(DefaultDocument)
  {
    DefaultPreferencesIsPreferences();
    assert DefaultDocument.fields["preferences"] == DefaultPreferences;
    assert DefaultDocument.fields["onboarding"] == DefaultOnboarding;
  }

  lemma TokenSetFixedPoint(j: Json)
    requires IsTokenSet(j)
    ensures ValidateTokenSet(j) == Ok(j)
  {
    var r := ValidateTokenSet(j).value;
    assert r.fields == j.fields;
  }

  lemma SubtitleFixedPoint(j: Json)
    requires IsSubtitle(j)
    ensures ValidateSubtitle(Some(j)) == Ok(j)
  {
    assert FillSubtitle(j.fields).fields == j.fields;
  }

  lemma PlayerFixedPoint(j: Json)
    requires IsPlayer(j)
    ensures ValidatePlayer(Some(j)) == Ok(j)
  {
    SubtitleFixedPoint(j.fields["subtitle"]);
    var r := ValidatePlayer(Some(j)).value;
    assert r.fields.Keys == j.fields.Keys;
    assert r.fields == j.fields;
  }

  lemma PresenceFixedPoint(j: Json)
    requires IsPresence(j)
    ensures ValidatePresence(Some(j)) == Ok(j)
  {
    assert ValidatePresence(Some(j)).value.fields == j.fields;
  }

  lemma AuthInfoFixedPoint(j: Json)
    requires IsAuthInfo(j)
    ensures ValidateAuthInfo(j) == Ok(j)
  {
    TokenSetFixedPoint(j.fields["tokenSet"]);
    var r := ValidateAuthInfo(j).value;
    assert r.fields.Keys == j.fields.Keys;
    assert r.fields == j.fields;
  }

  lemma OnboardingFixedPoint(j: Json)
    requires IsOnboarding(j)
    ensures ValidateOnboarding(Some(j)) == Ok(j)
  {
    assert ValidateOnboarding(Some(j)).value.fields == j.fields;
  }

  lemma PreferencesFixedPoint(j: Json)
    requires IsPreferences(j)
    ensures ValidatePreferences(Some(j)) == Ok(j)
  {
    PlayerFixedPoint(j.fields["player"]);
    PresenceFixedPoint(j.fields["presence"]);
    assert ValidatePreferences(Some(j)).value.fields == j.fields;
  }

  /**
   * Every document in normal form is accepted by `DataSchema` unchanged:
   * writing a validated document back and reading it again loses nothing.
   */
  lemma DocumentFixedPoint(j: Json)
    requires IsDocument(j)
    ensures ValidateData(j) == Ok(j)
  {
    var o := j.fields;
    OnboardingFixedPoint(o["onboarding"]);
    PreferencesFixedPoint(o["preferences"]);
    if "authInfo" in o {
      AuthInfoFixedPoint(o["authInfo"]);
    }
    assert OptionalAuthInfo(Get(o, "authInfo")) == Ok(Get(o, "authInfo"));
    ValidateDataParts(j);
    AssembleRebuilds(o);
  }

  /** Putting back the four fields of a normal-form document gives the document. */
  lemma AssembleRebuilds(o: map<string, Json>)
    requires IsDocument(JObj(o))
    ensures Assemble(Ok(o["onboarding"]), Ok(o["preferences"]), Ok(Get(o, "authInfo")), Get(o, "clientId")) == Ok(JObj(o))
  {
    AssembledRebuilds(o);
  }

  /** An object with only the four data keys, two of them present, is put back together as it was. */
  lemma AssembledRebuilds(o: map<string, Json>)
    requires o.Keys <= DataKeys && "onboarding" in o && "preferences" in o
    ensures Assembled(o["onboarding"], o["preferences"], Get(o, "authInfo"), Get(o, "clientId")) == o
  {
    var f := Assembled(o["onboarding"], o["preferences"], Get(o, "authInfo"), Get(o, "clientId"));
    assert Get(f, "onboarding") == Get(o, "onboarding");
    assert Get(f, "preferences") == Get(o, "preferences");
    assert Get(f, "authInfo") == Get(o, "authInfo");
    assert Get(f, "clientId") == Get(o, "clientId");
    assert forall k :: k in DataKeys ==> k == "onboarding" || k == "preferences" || k == "authInfo" || k == "clientId";
    SameOnKeys(f, o, DataKeys);
  }

  /** Two objects whose keys lie in `keys` and that agree on every key of it are equal. */
  lemma SameOnKeys(a: map<string, Json>, b: map<string, Json>, keys: set<string>)
    requires a.Keys <= keys && b.Keys <= keys
    requires forall k :: k in keys ==> Get(a, k) == Get(b, k)
    ensures a == b
  {
    assert a.Keys == b.Keys;
  }

  /** Validating an already validated document changes nothing (`parse` is idempotent). */
  lemma ValidateDataIdempotent(v: Json)
    requires ValidateData(v).Ok?
    ensures ValidateData(ValidateData(v).value) == ValidateData(v)
  {
    DocumentFixedPoint(ValidateData(v).value);
  }

  /** `DataSchema.parse({})`: every declared default, spelled out. */
  lemma EmptyDocumentDefaults()
    ensures ValidateData(JObj(map[])) == Ok(JObj(map[
      "onboarding" := JObj(map["tourVideosWatched" := JArr([])]),
      "preferences" := JObj(map[
        "player" := JObj(map["subtitle" := JObj(map["id" := JNull, "mode" := JStr("disabled")])]),
        "presence" := JObj(map["optOut" := JBool(false)])])]))
  {
    ValidateDataParts(JObj(map[]));
  }

  /**
   * A missing field is read as its default, and a default is applied only
   * to a missing field: `null` is never replaced by a default.
   */
  lemma MissingFieldsDefault(o: map<string, Json>)
    requires ValidateData(JObj(o)).Ok?
    ensures var d := ValidateData(JObj(o)).value.fields;
      && ("onboarding" !in o ==> d["onboarding"] == DefaultOnboarding)
      && ("preferences" !in o ==> d["preferences"] == DefaultPreferences)
      && ("onboarding" in o && "tourVideosWatched" !in o["onboarding"].fields ==>
            d["onboarding"].fields["tourVideosWatched"] == JArr([]))
      && ("preferences" in o && "player" !in o["preferences"].fields ==>
            d["preferences"].fields["player"] == DefaultPlayer)
      && ("preferences" in o && "presence" !in o["preferences"].fields ==>
            d["preferences"].fields["presence"] == DefaultPresence)
      && ("authInfo" !in o ==> "authInfo" !in d)
      && ("clientId" !in o ==> "clientId" !in d)
  {
    ValidatedComponents(o);
    if "onboarding" in o {
      assert Get(o, "onboarding") == Some(o["onboarding"]);
      WatchedListDefault(o["onboarding"]);
    } else {
      assert Get(o, "onboarding") == None;
    }
    if "preferences" in o {
      assert Get(o, "preferences") == Some(o["preferences"]);
      PreferencesPartsDefault(o["preferences"]);
    } else {
      assert Get(o, "preferences") == None;
    }
    assert "authInfo" !in o ==> Get(o, "authInfo") == None;
    assert "clientId" !in o ==> Get(o, "clientId") == None;
  }

  /** Inside `onboarding`, a missing video list reads as `[]`. */
  lemma WatchedListDefault(v: Json)
    requires ValidateOnboarding(Some(v)).Ok?
    ensures "tourVideosWatched" !in v.fields ==> ValidateOnboarding(Some(v)).value.fields["tourVideosWatched"] == JArr([])
  {
  }

  /** Inside `preferences`, a missing player or presence object reads as its default. */
  lemma PreferencesPartsDefault(p: Json)
    requires ValidatePreferences(Some(p)).Ok?
    ensures var r := ValidatePreferences(Some(p)).value.fields;
      && ("player" !in p.fields ==> r["player"] == DefaultPlayer)
      && ("presence" !in p.fields ==> r["presence"] == DefaultPresence)
  {
    assert "player" !in p.fields ==> Get(p.fields, "player") == None;
    assert "presence" !in p.fields ==> Get(p.fields, "presence") == None;
  }

  /** `.optional()` and `.default()` accept `undefined` only: `null` makes the whole document invalid. */
  lemma NullIsRejected(o: map<string, Json>, k: string)
    requires k in DataKeys && k in o && o[k] == JNull
    ensures ValidateData(JObj(o)).Err?
  {
    RejectedWhenAPartIs(o);
    NullComponentsRejected();
    assert Get(o, k) == Some(JNull);
    assert k == "onboarding" || k == "preferences" || k == "authInfo" || k == "clientId";
  }

  /** None of the four top-level schemas accepts `null`. */
  lemma NullComponentsRejected()
    ensures ValidateOnboarding(Some(JNull)).Err?
    ensures ValidatePreferences(Some(JNull)).Err?
    ensures OptionalAuthInfo(Some(JNull)).Err?
    ensures !ClientIdOk(Some(JNull))
  {
  }

  /**
   * `presence` gets its default only when it is absent: a present object
   * without `optOut` (for instance `{}`) is invalid, since `optOut` itself
   * has no default.
   */
  lemma PresenceWithoutOptOutIsRejected(o: map<string, Json>, prefs: map<string, Json>)
    requires "preferences" in o && o["preferences"] == JObj(prefs)
    requires "presence" in prefs && prefs["presence"].JObj? && "optOut" !in prefs["presence"].fields
    ensures ValidateData(JObj(o)).Err?
  {
    RejectedWhenAPartIs(o);
    assert Get(o, "preferences") == Some(JObj(prefs));
    assert ValidatePresence(Get(prefs, "presence")).Err?;
  }

  /** Keys the schema does not declare at the top level are dropped without being looked at. */
  lemma UnknownTopLevelKeysIgnored(o: map<string, Json>)
    ensures ValidateData(JObj(o)) == ValidateData(JObj(map k | k in o && k in DataKeys :: o[k]))
  {
    var known := map k | k in o && k in DataKeys :: o[k];
    assert forall k :: k in DataKeys ==> Get(o, k) == Get(known, k);
    ValidateDataParts(JObj(o));
    ValidateDataParts(JObj(known));
  }

  /**
   * `onboarding` is `.passthrough()`: every key of the stored onboarding
   * object comes out unchanged, and nothing but `tourVideosWatched` is added.
   */
  lemma OnboardingKeysPassThrough(o: map<string, Json>)
    requires ValidateData(JObj(o)).Ok?
    requires "onboarding" in o
    ensures var ob := ValidateData(JObj(o)).value.fields["onboarding"].fields;
      && ob.Keys == o["onboarding"].fields.Keys + {"tourVideosWatched"}
      && forall k :: k in o["onboarding"].fields ==> ob[k] == o["onboarding"].fields[k]
  {
    ValidatedComponents(o);
    assert Get(o, "onboarding") == Some(o["onboarding"]);
  }

  /**
   * Everywhere else unknown keys are stripped: a validated player object
   * holds only declared keys, and each declared leaf is copied as given.
   */
  lemma PlayerKeysStripped(o: map<string, Json>, prefs: map<string, Json>, player: map<string, Json>)
    requires ValidateData(JObj(o)).Ok?
    requires "preferences" in o && o["preferences"] == JObj(prefs)
    requires "player" in prefs && prefs["player"] == JObj(player)
    ensures var p := ValidateData(JObj(o)).value.fields["preferences"].fields["player"].fields;
      && p.Keys == (player.Keys * PlayerLeaves.Keys) + {"subtitle"}
      && forall k :: k in player && k in PlayerLeaves ==> p[k] == player[k]
  {
    ValidatedComponents(o);
    assert Get(o, "preferences") == Some(JObj(prefs));
    assert Get(prefs, "player") == Some(JObj(player));
    var p := ValidatePlayer(Some(JObj(player))).value.fields;
    assert ValidateData(JObj(o)).value.fields["preferences"].fields["player"].fields == p;
    PlayerResultKeys(player, p);
  }

  /** The keys of a validated player object: the declared leaves that were given, and `subtitle`. */
  lemma PlayerResultKeys(player: map<string, Json>, p: map<string, Json>)
    requires ValidatePlayer(Some(JObj(player))).Ok? && ValidatePlayer(Some(JObj(player))).value.fields == p
    ensures p.Keys == (player.Keys * PlayerLeaves.Keys) + {"subtitle"}
    ensures forall k :: k in player && k in PlayerLeaves ==> p[k] == player[k]
  {
    assert p.Keys <= PlayerKeys && "subtitle" in p;
    assert forall k :: k in PlayerLeaves ==> (k in p <==> k in player);
  }
}
