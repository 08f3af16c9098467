/**
 * The documents the domain operations of
 * packages/workshop-utils/src/db.server.ts write back (lines 82, 158,
 * 171-180, 190-193, 206-215). Each is built by object spread from what
 * `readDb` returned, which is either nothing (`null`) or a validated
 * document. The written value is not validated again before the write; the
 * lemmas here say what the next `readDb` makes of it.
 */
module Documents {
  import opened Wrappers
  import opened JsonValues
  import opened Schema
  import opened SchemaFacts

  /** What `readDb` can hand to a domain operation: nothing, or a validated document. */
  predicate Readable(data: Option<Json>)
  {
    data.None? || IsDocument(data.value)
  }

  /** The document a later read sees in place of `data`: a missing one reads as all defaults. */
  function Base(data: Option<Json>): Json
  {
    if data.Some? then data.value else DefaultDocument
  }

  /** What `readDb` returned stands for a validated document. */
  lemma BaseIsDocument(data: Option<Json>)
    requires Readable(data)
    ensures IsDocument(Base(data))
  {
    if data.None? {
      DefaultDocumentIsDocument();
    }
  }

  /** The preferences a later read sees in place of those of `data`. */
  function BasePrefs(data: Option<Json>): (r: map<string, Json>)
    requires Readable(data)
    ensures IsPreferences(JObj(r))
  {
    BaseIsDocument(data);
    Base(data).fields["preferences"].fields
  }

  /** `{ ...data, [k]: x }`: the top-level spread every writer performs. */
  function Put(data: Option<Json>, k: string, x: Json): Json
  {
    JObj(Own(data)[k := x])
  }

  /** Line 82: `{ ...data, clientId }`. */
  function SpreadClientId(data: Option<Json>, clientId: string): Json
  {
    Put(data, "clientId", JStr(clientId))
  }

  /** Line 158: `{ ...data, authInfo }`. */
  function SpreadAuthInfo(data: Option<Json>, authInfo: Json): Json
  {
    Put(data, "authInfo", authInfo)
  }

  /** Line 183's result: the stored player object overridden key by key by the input. */
  function MergedPlayer(data: Option<Json>, player: map<string, Json>): map<string, Json>
  {
    Own(Member(Member(data, "preferences"), "player")) + player
  }

  /** Lines 171-180: the player object merged, the rest of `preferences` spread as it was. */
  function SpreadPlayer(data: Option<Json>, player: map<string, Json>): Json
  {
    var prefs := Own(Member(data, "preferences"));
    Put(data, "preferences", JObj(prefs["player" := JObj(MergedPlayer(data, player))]))
  }

  /** The object `{ optOut }` that `setPresencePreferences` is given. */
  function PresenceObject(optOut: bool): Json
  {
    JObj(map["optOut" := JBool(optOut)])
  }

  /**
   * Lines 190-193: `presence` replaced by the input. An `undefined` input
   * (None) leaves a key whose value is `undefined`, which `JSON.stringify`
   * drops, so the written `preferences` has no `presence` at all.
   */
  function SpreadPresence(data: Option<Json>, presence: Option<bool>): Json
  {
    var prefs := Own(Member(data, "preferences"));
    var written := if presence.Some? then prefs["presence" := PresenceObject(presence.value)]
                   else prefs - {"presence"};
    Put(data, "preferences", JObj(written))
  }

  /** `x ?? []` for a list that may be missing. */
  function ItemsOr(x: Option<Json>): seq<Json>
  {
    if x.Some? && x.value.JArr? then x.value.items else []
  }

  /** Lines 210-213: the watched list with the url appended and falsy entries removed. */
  function WatchedAfter(data: Option<Json>, videoUrl: string): seq<Json>
  {
    FilterTruthy(ItemsOr(Member(Member(data, "onboarding"), "tourVideosWatched")) + [JStr(videoUrl)])
  }

  /** Lines 208-214 (also line 218's result): the onboarding object with the new list. */
  function OnboardingAfter(data: Option<Json>, videoUrl: string): Json
  {
    JObj(Own(Member(data, "onboarding"))["tourVideosWatched" := JArr(WatchedAfter(data, videoUrl))])
  }

  /** Lines 206-215: `{ ...data, onboarding: ... }`. */
  function SpreadWatchedVideo(data: Option<Json>, videoUrl: string): Json
  {
    Put(data, "onboarding", OnboardingAfter(data, videoUrl))
  }

  // ------------------------------------------------------- reading back

  /** Setting another key keeps how `onboarding` validates. */
  lemma OnboardingKept(o: map<string, Json>, d: map<string, Json>, k: string, x: Json, y: Json)
    requires k != "onboarding"
    requires OnboardingValidatesTo(o, d)
    ensures OnboardingValidatesTo(o[k := x], d[k := y])
  {
    assert Get(o[k := x], "onboarding") == Get(o, "onboarding");
  }

  /** Setting another key keeps how `preferences` validates. */
  lemma PreferencesKept(o: map<string, Json>, d: map<string, Json>, k: string, x: Json, y: Json)
    requires k != "preferences"
    requires PreferencesValidateTo(o, d)
    ensures PreferencesValidateTo(o[k := x], d[k := y])
  {
    assert Get(o[k := x], "preferences") == Get(o, "preferences");
  }

  /** Setting another key keeps how `authInfo` validates. */
  lemma AuthInfoKept(o: map<string, Json>, d: map<string, Json>, k: string, x: Json, y: Json)
    requires k != "authInfo"
    requires AuthInfoValidatesTo(o, d)
    ensures AuthInfoValidatesTo(o[k := x], d[k := y])
  {
    assert Get(o[k := x], "authInfo") == Get(o, "authInfo");
    assert Get(d[k := y], "authInfo") == Get(d, "authInfo");
  }

  /** An object whose fields validate to those of a document reads as that document. */
  lemma ReadsAs(o: map<string, Json>, d: map<string, Json>)
    requires IsDocument(JObj(d))
    requires ComponentsValidateTo(o, d)
    ensures ValidateData(JObj(o)) == Ok(JObj(d))
  {
    ValidateDataParts(JObj(o));
    AssembleRebuilds(d);
  }

  /** Whatever `readDb` returned reads back, field by field, as `Base(data)`. */
  lemma UntouchedFields(data: Option<Json>)
    requires Readable(data)
    ensures IsDocument(Base(data))
    ensures ComponentsValidateTo(Own(data), Base(data).fields)
  {
    if data.Some? {
      SelfComponents(data.value.fields);
    } else {
      DefaultDocumentIsDocument();
      DefaultComponents();
    }
  }

  /** The fields of a normal document validate to themselves. */
  lemma SelfComponents(d: map<string, Json>)
    requires IsDocument(JObj(d))
    ensures ComponentsValidateTo(d, d)
  {
    assert Get(d, "onboarding") == Some(d["onboarding"]);
    OnboardingFixedPoint(d["onboarding"]);
    assert Get(d, "preferences") == Some(d["preferences"]);
    PreferencesFixedPoint(d["preferences"]);
    if "authInfo" in d {
      AuthInfoFixedPoint(d["authInfo"]);
    }
  }

  /** An empty object's fields validate to those of the default document. */
  lemma DefaultComponents()
    ensures ComponentsValidateTo(map[], DefaultDocument.fields)
  {
    var d := DefaultDocument.fields;
    assert d["onboarding"] == DefaultOnboarding && d["preferences"] == DefaultPreferences;
    assert Get(d, "authInfo") == None && Get(d, "clientId") == None;
  }

  /** Replacing `onboarding` by a value that validates to `y` reads back as `Base(data)` with that field set to `y`. */
  lemma ReplacedOnboardingReadsAs(data: Option<Json>, x: Json, y: Json)
    requires Readable(data)
    requires ValidateOnboarding(Some(x)) == Ok(y)
    ensures ValidateData(Put(data, "onboarding", x)) == Ok(JObj(Base(data).fields["onboarding" := y]))
  {
    UntouchedFields(data);
    OnboardingSetIsDocument(Base(data).fields, y);
    assert Get(Own(data)["onboarding" := x], "onboarding") == Some(x);
    UpdatedOnboarding(Own(data), Base(data).fields, x, y);
    ReadsAs(Own(data)["onboarding" := x], Base(data).fields["onboarding" := y]);
  }

  /** Replacing `preferences` by a value that validates to `y` reads back as `Base(data)` with that field set to `y`. */
  lemma ReplacedPreferencesReadsAs(data: Option<Json>, x: Json, y: Json)
    requires Readable(data)
    requires ValidatePreferences(Some(x)) == Ok(y)
    ensures ValidateData(Put(data, "preferences", x)) == Ok(JObj(Base(data).fields["preferences" := y]))
  {
    UntouchedFields(data);
    PreferencesSetIsDocument(Base(data).fields, y);
    assert Get(Own(data)["preferences" := x], "preferences") == Some(x);
    UpdatedPreferences(Own(data), Base(data).fields, x, y);
    ReadsAs(Own(data)["preferences" := x], Base(data).fields["preferences" := y]);
  }

  lemma OnboardingSetIsDocument(b: map<string, Json>, y: Json)
    requires IsDocument(JObj(b)) && IsOnboarding(y)
    ensures IsDocument(JObj(b["onboarding" := y]))
  {
    var d := b["onboarding" := y];
    assert d["preferences"] == b["preferences"];
    assert Get(d, "authInfo") == Get(b, "authInfo") && Get(d, "clientId") == Get(b, "clientId");
  }

  lemma PreferencesSetIsDocument(b: map<string, Json>, y: Json)
    requires IsDocument(JObj(b)) && IsPreferences(y)
    ensures IsDocument(JObj(b["preferences" := y]))
  {
    var d := b["preferences" := y];
    assert d["onboarding"] == b["onboarding"];
    assert Get(d, "authInfo") == Get(b, "authInfo") && Get(d, "clientId") == Get(b, "clientId");
  }

  lemma AuthInfoSetIsDocument(b: map<string, Json>, y: Json)
    requires IsDocument(JObj(b)) && IsAuthInfo(y)
    ensures IsDocument(JObj(b["authInfo" := y]))
  {
    var d := b["authInfo" := y];
    assert d["onboarding"] == b["onboarding"] && d["preferences"] == b["preferences"];
    assert Get(d, "clientId") == Get(b, "clientId");
  }

  lemma ClientIdSetIsDocument(b: map<string, Json>, y: string)
    requires IsDocument(JObj(b))
    ensures IsDocument(JObj(b["clientId" := JStr(y)]))
  {
    var d := b["clientId" := JStr(y)];
    assert d["onboarding"] == b["onboarding"] && d["preferences"] == b["preferences"];
    assert Get(d, "authInfo") == Get(b, "authInfo");
  }

  /** Replacing `onboarding` keeps the other three fields' validation as it was. */
  lemma UpdatedOnboarding(o: map<string, Json>, b: map<string, Json>, x: Json, y: Json)
    requires PreferencesValidateTo(o, b) && AuthInfoValidatesTo(o, b) && Get(o, "clientId") == Get(b, "clientId")
    ensures var o', b' := o["onboarding" := x], b["onboarding" := y];
      PreferencesValidateTo(o', b') && AuthInfoValidatesTo(o', b') && Get(o', "clientId") == Get(b', "clientId")
  {
    PreferencesKept(o, b, "onboarding", x, y);
    AuthInfoKept(o, b, "onboarding", x, y);
    assert Get(o["onboarding" := x], "clientId") == Get(o, "clientId");
    assert Get(b["onboarding" := y], "clientId") == Get(b, "clientId");
  }

  /** Replacing `preferences` keeps the other three fields' validation as it was. */
  lemma UpdatedPreferences(o: map<string, Json>, b: map<string, Json>, x: Json, y: Json)
    requires OnboardingValidatesTo(o, b) && AuthInfoValidatesTo(o, b) && Get(o, "clientId") == Get(b, "clientId")
    ensures var o', b' := o["preferences" := x], b["preferences" := y];
      OnboardingValidatesTo(o', b') && AuthInfoValidatesTo(o', b') && Get(o', "clientId") == Get(b', "clientId")
  {
    OnboardingKept(o, b, "preferences", x, y);
    AuthInfoKept(o, b, "preferences", x, y);
    assert Get(o["preferences" := x], "clientId") == Get(o, "clientId");
    assert Get(b["preferences" := y], "clientId") == Get(b, "clientId");
  }

  /** Replacing `authInfo` by a normal one keeps the other three fields' validation as it was. */
  lemma UpdatedAuthInfo(o: map<string, Json>, b: map<string, Json>, a: Json)
    requires ComponentsValidateTo(o, b)
    requires OptionalAuthInfo(Some(a)) == Ok(Some(a))
    ensures ComponentsValidateTo(o["authInfo" := a], b["authInfo" := a])
  {
    assert Get(o["authInfo" := a], "authInfo") == Some(a) == Get(b["authInfo" := a], "authInfo");
    OnboardingKept(o, b, "authInfo", a, a);
    PreferencesKept(o, b, "authInfo", a, a);
    assert Get(o["authInfo" := a], "clientId") == Get(o, "clientId");
    assert Get(b["authInfo" := a], "clientId") == Get(b, "clientId");
  }

  /** Setting `clientId` keeps the other three fields' validation as it was. */
  lemma UpdatedClientId(o: map<string, Json>, b: map<string, Json>, c: Json)
    requires ComponentsValidateTo(o, b)
    ensures ComponentsValidateTo(o["clientId" := c], b["clientId" := c])
  {
    OnboardingKept(o, b, "clientId", c, c);
    PreferencesKept(o, b, "clientId", c, c);
    AuthInfoKept(o, b, "clientId", c, c);
    assert Get(o["clientId" := c], "clientId") == Some(c) == Get(b["clientId" := c], "clientId");
  }

  /** An object with exactly the keys `a` and `b` is the two-entry display of them. */
  lemma TwoKeys(m: map<string, Json>, a: string, b: string)
    requires m.Keys == {a, b}
    ensures m == map[a := m[a], b := m[b]]
  {
  }

  /** `ValidatePreferences` of an object whose two parts validate to `player` and `presence`. */
  lemma PreferencesOf(w: map<string, Json>, player: Json, presence: Json)
    requires ValidatePlayer(Get(w, "player")) == Ok(player)
    requires ValidatePresence(Get(w, "presence")) == Ok(presence)
    ensures ValidatePreferences(Some(JObj(w))) == Ok(JObj(map["player" := player, "presence" := presence]))
  {
  }

  /** Line 82 read back: `clientId` set, every other field as it was read (or defaulted). */
  lemma ClientIdReadsBack(data: Option<Json>, clientId: string)
    requires Readable(data)
    ensures ValidateData(SpreadClientId(data, clientId)) == Ok(JObj(Base(data).fields["clientId" := JStr(clientId)]))
  {
    UntouchedFields(data);
    ClientIdSetIsDocument(Base(data).fields, clientId);
    UpdatedClientId(Own(data), Base(data).fields, JStr(clientId));
    ReadsAs(Own(data)["clientId" := JStr(clientId)], Base(data).fields["clientId" := JStr(clientId)]);
  }

  /** Line 158 read back: `authInfo` replaced wholesale, every other field as it was read. */
  lemma AuthInfoReadsBack(data: Option<Json>, authInfo: Json)
    requires Readable(data)
    requires IsAuthInfo(authInfo)
    ensures ValidateData(SpreadAuthInfo(data, authInfo)) == Ok(JObj(Base(data).fields["authInfo" := authInfo]))
  {
    UntouchedFields(data);
    AuthInfoFixedPoint(authInfo);
    AuthInfoSetIsDocument(Base(data).fields, authInfo);
    UpdatedAuthInfo(Own(data), Base(data).fields, authInfo);
    ReadsAs(Own(data)["authInfo" := authInfo], Base(data).fields["authInfo" := authInfo]);
  }

  // ---------------------------------------------------------------- player

  /**
   * A value of type `z.input<typeof PlayerPreferencesSchema>`: only declared
   * keys, each of the declared type, `subtitle` possibly partial.
   */
  predicate IsPlayerInput(p: map<string, Json>)
  {
    && p.Keys <= PlayerKeys
    && (forall k :: k in p && k in PlayerLeaves ==> Accepts(PlayerLeaves[k], p[k]))
    && ("subtitle" in p ==> ValidateSubtitle(Some(p["subtitle"])).Ok?)
  }

  /**
   * The player object the next read returns after merging `p` into `stored`:
   * every key of `p` overrides, every other key of `stored` stays, and a
   * partial `subtitle` in `p` replaces the stored one with its own defaults
   * filled in (`{mode: "hidden"}` reads back as `{id: null, mode: "hidden"}`).
   */
  function PlayerAsRead(stored: map<string, Json>, p: map<string, Json>): map<string, Json>
    requires "subtitle" in stored
  {
    (stored + p)["subtitle" := if "subtitle" in p && p["subtitle"].JObj? then FillSubtitle(p["subtitle"].fields) else stored["subtitle"]]
  }

  /** The player preferences the next read returns after `setPlayerPreferences(p)` on `data`. */
  function PlayerAfter(data: Option<Json>, p: map<string, Json>): map<string, Json>
    requires Readable(data)
  {
    PlayerAsRead(BasePrefs(data)["player"].fields, p)
  }

  /** The subtitle of the merged player object validates to the one `PlayerAsRead` gives. */
  lemma MergedSubtitleValidates(base: map<string, Json>, stored: map<string, Json>, p: map<string, Json>)
    requires IsPlayer(JObj(base))
    requires stored == base || (stored == map[] && base == DefaultPlayer.fields)
    requires IsPlayerInput(p)
    ensures ValidateSubtitle(Get(stored + p, "subtitle")) == Ok(PlayerAsRead(base, p)["subtitle"])
  {
    if "subtitle" in p {
      assert Get(stored + p, "subtitle") == Some(p["subtitle"]);
    } else if stored == base {
      assert Get(stored + p, "subtitle") == Some(base["subtitle"]);
      SubtitleFixedPoint(base["subtitle"]);
    } else {
      assert Get(stored + p, "subtitle") == None;
    }
  }

  /** `ValidatePlayer` of the merged player object, for a stored one or for none. */
  lemma MergedPlayerValidates(base: map<string, Json>, stored: map<string, Json>, p: map<string, Json>)
    requires IsPlayer(JObj(base))
    requires stored == base || (stored == map[] && base == DefaultPlayer.fields)
    requires IsPlayerInput(p)
    ensures ValidatePlayer(Some(JObj(stored + p))) == Ok(JObj(PlayerAsRead(base, p)))
  {
    MergedSubtitleValidates(base, stored, p);
    var leaves := MergedLeaves(base, stored, p);
    var sub := PlayerAsRead(base, p)["subtitle"];
    PlayerOfParts(stored + p, leaves, sub);
    RestoreKey(base + p, "subtitle", sub);
  }

  lemma RestoreKey(m: map<string, Json>, k: string, v: Json)
    ensures (m - {k})[k := v] == m[k := v]
  {
    assert (m - {k})[k := v].Keys == m[k := v].Keys;
  }

  /** `ValidatePlayer` of an object whose leaves and subtitle are already known to validate. */
  lemma PlayerOfParts(w: map<string, Json>, leaves: map<string, Json>, sub: Json)
    requires OptionalLeaves(w, PlayerLeaves) == Ok(leaves)
    requires ValidateSubtitle(Get(w, "subtitle")) == Ok(sub)
    ensures ValidatePlayer(Some(JObj(w))) == Ok(JObj(leaves["subtitle" := sub]))
  {
    assert Under("subtitle", ValidateSubtitle(Get(w, "subtitle"))) == Ok(sub);
  }

  /** The leaves of the merged player object: those of the stored object and of the input, the input winning. */
  lemma MergedLeaves(base: map<string, Json>, stored: map<string, Json>, p: map<string, Json>)
    returns (leaves: map<string, Json>)
    requires IsPlayer(JObj(base))
    requires stored == base || (stored == map[] && base == DefaultPlayer.fields)
    requires IsPlayerInput(p)
    ensures OptionalLeaves(stored + p, PlayerLeaves) == Ok(leaves)
    ensures leaves == (base + p) - {"subtitle"}
  {
    var m := stored + p;
    if stored == base {
      assert forall k :: k in m && k in PlayerLeaves ==> Accepts(PlayerLeaves[k], m[k]);
      LeavesOf(m);
    } else {
      assert m == p;
      LeavesOf(p);
      assert (base + p) - {"subtitle"} == p - {"subtitle"};
    }
    leaves := m - {"subtitle"};
  }

  /** The leaves of an object with only player keys, each accepted: everything but `subtitle`. */
  lemma LeavesOf(m: map<string, Json>)
    requires m.Keys <= PlayerKeys
    requires forall k :: k in m && k in PlayerLeaves ==> Accepts(PlayerLeaves[k], m[k])
    ensures OptionalLeaves(m, PlayerLeaves) == Ok(m - {"subtitle"})
  {
    SubtitleIsNotALeaf();
    var r := OptionalLeaves(m, PlayerLeaves).value;
    assert m.Keys * PlayerLeaves.Keys == (m - {"subtitle"}).Keys;
    assert OptionalLeaves(m, PlayerLeaves).Ok?;
    assert r.Keys == (m - {"subtitle"}).Keys;
    assert forall k :: k in r ==> r[k] == (m - {"subtitle"})[k];
    assert r == m - {"subtitle"};
  }

  lemma SubtitleIsNotALeaf()
    ensures "subtitle" !in PlayerLeaves
  {
  }

  /** `Base(data)` with its player preferences replaced. */
  function WithPlayer(data: Option<Json>, player: map<string, Json>): Json
    requires Readable(data)
  {
    BaseIsDocument(data);
    JObj(Base(data).fields["preferences" := JObj(BasePrefs(data)["player" := JObj(player)])])
  }

  /**
   * Lines 171-182 read back: the player preferences are the stored ones
   * overridden key by key by the input; `presence` and every other
   * top-level field are as they were read.
   */
  lemma PlayerReadsBack(data: Option<Json>, p: map<string, Json>)
    requires Readable(data)
    requires IsPlayerInput(p)
    ensures ValidateData(SpreadPlayer(data, p)) == Ok(WithPlayer(data, PlayerAfter(data, p)))
  {
    var w := WrittenPlayerValidates(data, p);
    var player := JObj(PlayerAfter(data, p));
    ReplacedPreferencesReadsAs(data, JObj(w), JObj(BasePrefs(data)["player" := player]));
  }

  /** The `preferences` object `setPlayerPreferences` writes, and what it validates to. */
  lemma WrittenPlayerValidates(data: Option<Json>, p: map<string, Json>) returns (w: map<string, Json>)
    requires Readable(data)
    requires IsPlayerInput(p)
    ensures SpreadPlayer(data, p) == Put(data, "preferences", JObj(w))
    ensures ValidatePreferences(Some(JObj(w))) ==
      Ok(JObj(BasePrefs(data)["player" := JObj(PlayerAfter(data, p))]))
  {
    w := WrittenPlayerParts(data, p);
    PreferencesWith(w, BasePrefs(data), "player", JObj(PlayerAfter(data, p)));
  }

  /** `ValidatePreferences` of an object whose entries validate to those of `prefs` with `k` set to `x`. */
  lemma PreferencesWith(w: map<string, Json>, prefs: map<string, Json>, k: string, x: Json)
    requires prefs.Keys == {"player", "presence"} && k in prefs
    requires ValidatePlayer(Get(w, "player")) == Ok(prefs[k := x]["player"])
    requires ValidatePresence(Get(w, "presence")) == Ok(prefs[k := x]["presence"])
    ensures ValidatePreferences(Some(JObj(w))) == Ok(JObj(prefs[k := x]))
  {
    var q := prefs[k := x];
    PreferencesOf(w, q["player"], q["presence"]);
    TwoKeys(q, "player", "presence");
  }

  /** The two entries of the `preferences` object `setPlayerPreferences` writes, validated one by one. */
  lemma WrittenPlayerParts(data: Option<Json>, p: map<string, Json>) returns (w: map<string, Json>)
    requires Readable(data)
    requires IsPlayerInput(p)
    ensures SpreadPlayer(data, p) == Put(data, "preferences", JObj(w))
    ensures ValidatePlayer(Get(w, "player")) == Ok(JObj(PlayerAfter(data, p)))
    ensures ValidatePresence(Get(w, "presence")) == Ok(BasePrefs(data)["presence"])
  {
    StoredPresenceValidates(data);
    var base := BasePrefs(data)["player"].fields;
    var prefs := Own(Member(data, "preferences"));
    var stored := Own(Member(Member(data, "preferences"), "player"));
    StoredPlayer(data);
    MergedPlayerValidates(base, stored, p);
    w := prefs["player" := JObj(MergedPlayer(data, p))];
    assert Get(w, "player") == Some(JObj(stored + p));
    assert Get(w, "presence") == Get(prefs, "presence");
  }

  /** The stored player object is the one `Base(data)` has, or none at all when that is the default. */
  lemma StoredPlayer(data: Option<Json>)
    requires Readable(data)
    ensures var base := BasePrefs(data)["player"].fields;
      var stored := Own(Member(Member(data, "preferences"), "player"));
      stored == base || (stored == map[] && base == DefaultPlayer.fields)
  {
    if data.None? {
      assert BasePrefs(data) == DefaultPreferences.fields;
    }
  }

  // -------------------------------------------------------------- presence

  /** `Base(data)` with its presence preferences replaced. */
  function WithPresence(data: Option<Json>, presence: Json): Json
    requires Readable(data)
  {
    BaseIsDocument(data);
    JObj(Base(data).fields["preferences" := JObj(BasePrefs(data)["presence" := presence])])
  }

  /**
   * Lines 190-195 read back: `presence` is exactly the input, nothing of
   * the stored presence survives (an `undefined` input reads back as the
   * default `{optOut: false}`); the player preferences and every other
   * top-level field are as they were read.
   */
  lemma PresenceReadsBack(data: Option<Json>, presence: Option<bool>)
    requires Readable(data)
    ensures ValidateData(SpreadPresence(data, presence)) ==
      Ok(WithPresence(data, if presence.Some? then PresenceObject(presence.value) else DefaultPresence))
  {
    var w := WrittenPreferencesValidate(data, presence);
    var q := if presence.Some? then PresenceObject(presence.value) else DefaultPresence;
    ReplacedPreferencesReadsAs(data, JObj(w), JObj(BasePrefs(data)["presence" := q]));
  }

  /** The `preferences` object `setPresencePreferences` writes, and what it validates to. */
  lemma WrittenPreferencesValidate(data: Option<Json>, presence: Option<bool>) returns (w: map<string, Json>)
    requires Readable(data)
    ensures SpreadPresence(data, presence) == Put(data, "preferences", JObj(w))
    ensures var q := if presence.Some? then PresenceObject(presence.value) else DefaultPresence;
      ValidatePreferences(Some(JObj(w))) == Ok(JObj(BasePrefs(data)["presence" := q]))
  {
    StoredPlayerValidates(data);
    var prefs := Own(Member(data, "preferences"));
    w := if presence.Some? then prefs["presence" := PresenceObject(presence.value)] else prefs - {"presence"};
    var q := WrittenPresence(prefs, presence);
    PreferencesWith(w, BasePrefs(data), "presence", q);
  }

  /** The `presence` entry `setPresencePreferences` writes validates to the input, or to the default. */
  lemma WrittenPresence(prefs: map<string, Json>, presence: Option<bool>) returns (q: Json)
    ensures q == if presence.Some? then PresenceObject(presence.value) else DefaultPresence
    ensures var w := if presence.Some? then prefs["presence" := PresenceObject(presence.value)] else prefs - {"presence"};
      && ValidatePresence(Get(w, "presence")) == Ok(q)
      && Get(w, "player") == Get(prefs, "player")
  {
    q := if presence.Some? then PresenceObject(presence.value) else DefaultPresence;
    if presence.Some? {
      PresenceFixedPoint(q);
    }
  }

  /** The stored player preferences validate to those of `Base(data)`. */
  lemma StoredPlayerValidates(data: Option<Json>)
    requires Readable(data)
    ensures ValidatePlayer(Get(Own(Member(data, "preferences")), "player")) == Ok(BasePrefs(data)["player"])
  {
    if data.Some? {
      PlayerFixedPoint(BasePrefs(data)["player"]);
    }
  }

  /** The stored presence preferences validate to those of `Base(data)`. */
  lemma StoredPresenceValidates(data: Option<Json>)
    requires Readable(data)
    ensures ValidatePresence(Get(Own(Member(data, "preferences")), "presence")) == Ok(BasePrefs(data)["presence"])
  {
    if data.Some? {
      PresenceFixedPoint(BasePrefs(data)["presence"]);
    }
  }

  // ------------------------------------------------------------ onboarding

  /** The onboarding object a later read sees in place of that of `data`. */
  function BaseOnboarding(data: Option<Json>): (r: map<string, Json>)
    requires Readable(data)
    ensures IsOnboarding(JObj(r))
  {
    BaseIsDocument(data);
    Base(data).fields["onboarding"].fields
  }

  /** The watched list of a readable `data`, `[]` when there is none. */
  function WatchedBefore(data: Option<Json>): seq<Json>
    requires Readable(data)
  {
    BaseOnboarding(data)["tourVideosWatched"].items
  }

  /**
   * Lines 210-213: the new list is the stored one with the url appended,
   * every empty string dropped (stored ones and an empty url alike), and
   * nothing de-duplicated.
   */
  lemma WatchedAppends(data: Option<Json>, videoUrl: string)
    requires Readable(data)
    ensures WatchedAfter(data, videoUrl) ==
      FilterTruthy(WatchedBefore(data)) + (if videoUrl == "" then [] else [JStr(videoUrl)])
    ensures forall i :: 0 <= i < |WatchedAfter(data, videoUrl)| ==> WatchedAfter(data, videoUrl)[i] != JStr("")
    ensures videoUrl != "" ==> Count(WatchedAfter(data, videoUrl), JStr(videoUrl)) == Count(WatchedBefore(data), JStr(videoUrl)) + 1
  {
    var before := WatchedBefore(data);
    assert ItemsOr(Member(Member(data, "onboarding"), "tourVideosWatched")) == before;
    FilterTruthyAppend(before, [JStr(videoUrl)]);
    if videoUrl != "" {
      FilterTruthyCount(before + [JStr(videoUrl)], JStr(videoUrl));
      CountAppend(before, JStr(videoUrl));
    }
  }

  lemma {:induction false} CountAppend(items: seq<Json>, v: Json)
    ensures Count(items + [v], v) == Count(items, v) + 1
  {
    if items == [] {
      assert items + [v] == [v];
    } else {
      assert (items + [v])[1..] == items[1..] + [v];
      CountAppend(items[1..], v);
    }
  }

  /** `Base(data)` with its watched list replaced. */
  function WithWatched(data: Option<Json>, items: seq<Json>): Json
    requires Readable(data)
  {
    BaseIsDocument(data);
    JObj(Base(data).fields["onboarding" := JObj(BaseOnboarding(data)["tourVideosWatched" := JArr(items)])])
  }

  /**
   * Lines 206-217 read back: `tourVideosWatched` is the new list, every
   * other key of `onboarding` (passthrough data) and every other top-level
   * field are as they were read.
   */
  lemma WatchedVideoReadsBack(data: Option<Json>, videoUrl: string)
    requires Readable(data)
    ensures ValidateData(SpreadWatchedVideo(data, videoUrl)) == Ok(WithWatched(data, WatchedAfter(data, videoUrl)))
  {
    WrittenOnboarding(data, videoUrl);
    var ob := OnboardingAfter(data, videoUrl);
    ReplacedOnboardingReadsAs(data, ob, ob);
  }

  /** The onboarding object `markOnboardingVideoWatched` writes is normal: the stored one with the new list. */
  lemma WrittenOnboarding(data: Option<Json>, videoUrl: string)
    requires Readable(data)
    ensures OnboardingAfter(data, videoUrl) == JObj(BaseOnboarding(data)["tourVideosWatched" := JArr(WatchedAfter(data, videoUrl))])
    ensures ValidateOnboarding(Some(OnboardingAfter(data, videoUrl))) == Ok(OnboardingAfter(data, videoUrl))
  {
    var list := WatchedAfter(data, videoUrl);
    var ob := JObj(BaseOnboarding(data)["tourVideosWatched" := JArr(list)]);
    if data.None? {
      assert BaseOnboarding(data) == DefaultOnboarding.fields;
      assert Own(Member(data, "onboarding"))["tourVideosWatched" := JArr(list)] == ob.fields;
    }
    assert forall i :: 0 <= i < |list| ==> list[i] in WatchedBefore(data) + [JStr(videoUrl)];
    assert IsOnboarding(ob);
    OnboardingFixedPoint(ob);
  }
}
