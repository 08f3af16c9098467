/**
 * The settings store of packages/workshop-utils/src/db.server.ts: one
 * backing file (`data.json`, line 74), its quarantine sibling
 * (`data.json.bkp`, line 111) and the `EPICSHOP_DEPLOYED` switch, with the
 * operations that read and rewrite the whole document.
 *
 * The outcomes of file-system calls the model cannot see are parameters:
 * `moveFails` (the best-effort move to `.bkp`), `writeFails` (the
 * `ensureDir` + `writeJSON` pair), `removeFails` (the delete), and `newId`
 * (the id `cuid()` generates).
 */
module Store {
  import opened Wrappers
  import opened JsonValues
  import opened Schema
  import opened Documents
  import Redirect

  /** The content of a file: JSON text, or text `readJSON` cannot parse. */
  datatype Raw = Unparseable | Parsed(json: Json)

  /** Why a domain operation threw. */
  datatype Failure = Rejected(error: Error) | WriteFailed

  /** Lines 98-113: what `readDb` returns for a given switch and file. */
  function Load(deployed: bool, file: Option<Raw>): (data: Option<Json>)
    ensures Readable(data)
    ensures data.Some? <==> !deployed && file.Some? && file.value.Parsed? && ValidateData(file.value.json).Ok?
  {
    if deployed || file.None? || file.value.Unparseable? then None
    else match ValidateData(file.value.json)
      case Ok(d) => Some(d)
      case Err(_) => None
  }

  /** Lines 106-111: `readDb` reached the catch block (the file is there but unreadable). */
  predicate Corrupt(deployed: bool, file: Option<Raw>)
  {
    !deployed && file.Some? && (file.value.Unparseable? || ValidateData(file.value.json).Err?)
  }

  /**
   * Line 111: the move to `.bkp` happens only for a corrupt file, only if
   * nothing is at `.bkp` yet (fs-extra's `move` does not overwrite) and only
   * if the file system lets it; a failed move is ignored.
   */
  predicate Quarantines(deployed: bool, file: Option<Raw>, backup: Option<Raw>, moveFails: bool)
  {
    Corrupt(deployed, file) && backup.None? && !moveFails
  }

  function FileAfterRead(deployed: bool, file: Option<Raw>, backup: Option<Raw>, moveFails: bool): Option<Raw>
  {
    if Quarantines(deployed, file, backup, moveFails) then None else file
  }

  function BackupAfterRead(deployed: bool, file: Option<Raw>, backup: Option<Raw>, moveFails: bool): Option<Raw>
  {
    if Quarantines(deployed, file, backup, moveFails) then file else backup
  }

  /** Line 78: `data?.clientId` when it is truthy, that is a non-empty string. */
  function StoredClientId(data: Option<Json>): Option<string>
  {
    var v := Member(data, "clientId");
    if v.Some? && v.value.JStr? && v.value.s != "" then Some(v.value.s) else None
  }

  /** Lines 147 and 156: the object `{ id, tokenSet, email, name }` that `setAuthInfo` validates. */
  function AuthInfoArgument(id: string, tokenSet: map<string, Json>, email: Nullish, name: Nullish): Json
  {
    var emailValue := match email
      case Undefined => JStr("unknown@example.com")
      case Null => JNull
      case Str(s) => JStr(s);
    var named := match name
      case Undefined => map[]
      case Null => map["name" := JNull]
      case Str(s) => map["name" := JStr(s)];
    JObj(map["id" := JStr(id), "tokenSet" := JObj(tokenSet), "email" := emailValue] + named)
  }

  class SettingsStore {
    /** The backing file `~/.epicshop/data.json`; None when it does not exist. */
    var file: Option<Raw>
    /** `~/.epicshop/data.json.bkp`, where a corrupt file is moved. */
    var backup: Option<Raw>
    /** `process.env.EPICSHOP_DEPLOYED` is set. */
    var deployed: bool

    constructor (file: Option<Raw>, backup: Option<Raw>, deployed: bool)
      ensures this.file == file && this.backup == backup && this.deployed == deployed
    {
      this.file := file;
      this.backup := backup;
      this.deployed := deployed;
    }

    /**
     * Lines 98-114. Never fails: a missing file, a deployed process and a
     * corrupt file all give None; only a corrupt file is moved aside.
     */
    method ReadDb(moveFails: bool) returns (data: Option<Json>)
      modifies this
      ensures data == Load(old(deployed), old(file))
      ensures deployed == old(deployed)
      ensures file == FileAfterRead(old(deployed), old(file), old(backup), moveFails)
      ensures backup == BackupAfterRead(old(deployed), old(file), old(backup), moveFails)
      ensures old(deployed) || old(file).None? ==> file == old(file) && backup == old(backup)
    {
      if deployed {
        return None;
      }
      if file.None? {
        return None;
      }
      var parsed: Result<Json, Error> := if file.value.Parsed? then ValidateData(file.value.json) else Err(Invalid([]));
      if parsed.Ok? {
        return Some(parsed.value);
      }
      if backup.None? && !moveFails {
        backup := file;
        file := None;
      }
      data := None;
    }

    /** `ensureDir` then `writeJSON` of the whole document; a failure propagates. */
    method Write(doc: Json, writeFails: bool) returns (ok: bool)
      modifies this`file
      ensures ok == !writeFails
      ensures file == if ok then Some(Parsed(doc)) else old(file)
    {
      ok := !writeFails;
      if ok {
        file := Some(Parsed(doc));
      }
    }

    /** Lines 86-96: removes the file unless deployed; a failed removal is ignored. */
    method DeleteDb(removeFails: bool)
      modifies this`file
      ensures file == if old(deployed) || removeFails then old(file) else None
    {
      if deployed {
        return;
      }
      if file.Some? && !removeFails {
        file := None;
      }
    }

    /**
     * Lines 76-84. A stored non-empty `clientId` is returned without any
     * write; otherwise `newId` is written over the document that was read
     * (every other field kept) and returned. The write happens even when
     * deployed, where the read always yields nothing.
     */
    method GetClientId(newId: string, moveFails: bool, writeFails: bool) returns (r: Result<string, Failure>)
      requires newId != ""  // cuid2 identifiers are never empty
      modifies this
      ensures deployed == old(deployed)
      ensures backup == BackupAfterRead(old(deployed), old(file), old(backup), moveFails)
      ensures var data := Load(old(deployed), old(file));
        var afterRead := FileAfterRead(old(deployed), old(file), old(backup), moveFails);
        if StoredClientId(data).Some? then
          r == Ok(StoredClientId(data).value) && file == afterRead
        else if writeFails then
          r == Err(WriteFailed) && file == afterRead
        else
          r == Ok(newId) && file == Some(Parsed(SpreadClientId(data, newId)))
    {
      var data := ReadDb(moveFails);
      var stored := StoredClientId(data);
      if stored.Some? {
        return Ok(stored.value);
      }
      var ok := Write(SpreadClientId(data, newId), writeFails);
      r := if ok then Ok(newId) else Err(WriteFailed);
    }

    /** Lines 116-119. */
    method GetAuthInfo(moveFails: bool) returns (authInfo: Option<Json>)
      modifies this
      ensures authInfo == Member(Load(old(deployed), old(file)), "authInfo")
      ensures authInfo.Some? ==> IsAuthInfo(authInfo.value)
      ensures deployed == old(deployed)
      ensures file == FileAfterRead(old(deployed), old(file), old(backup), moveFails)
      ensures backup == BackupAfterRead(old(deployed), old(file), old(backup), moveFails)
    {
      var data := ReadDb(moveFails);
      authInfo := Member(data, "authInfo");
    }

    /** Lines 121-142: the stored auth info, or the login redirect. */
    method RequireAuthInfo(pathname: string, search: string, redirectTo: Nullish, moveFails: bool)
      returns (r: Redirect.AuthOrRedirect)
      modifies this
      ensures r == Redirect.RequireAuthInfo(Member(Load(old(deployed), old(file)), "authInfo"), pathname, search, redirectTo)
      ensures deployed == old(deployed)
      ensures file == FileAfterRead(old(deployed), old(file), old(backup), moveFails)
      ensures backup == BackupAfterRead(old(deployed), old(file), old(backup), moveFails)
    {
      var authInfo := GetAuthInfo(moveFails);
      r := Redirect.RequireAuthInfo(authInfo, pathname, search, redirectTo);
    }

    /**
     * Lines 144-160. The argument object is validated after the read and
     * before any write: a token set without one of its three strings, or an
     * explicit `null` email, throws and nothing is written. On success
     * `authInfo` is replaced wholesale and the normalised value returned.
     */
    method SetAuthInfo(id: string, tokenSet: map<string, Json>, email: Nullish, name: Nullish,
                       moveFails: bool, writeFails: bool) returns (r: Result<Json, Failure>)
      modifies this
      ensures deployed == old(deployed)
      ensures backup == BackupAfterRead(old(deployed), old(file), old(backup), moveFails)
      ensures var data := Load(old(deployed), old(file));
        var afterRead := FileAfterRead(old(deployed), old(file), old(backup), moveFails);
        var parsed := ValidateAuthInfo(AuthInfoArgument(id, tokenSet, email, name));
        if parsed.Err? then
          r == Err(Rejected(parsed.error)) && file == afterRead
        else if writeFails then
          r == Err(WriteFailed) && file == afterRead
        else
          r == Ok(parsed.value) && file == Some(Parsed(SpreadAuthInfo(data, parsed.value)))
    {
      var data := ReadDb(moveFails);
      var parsed := ValidateAuthInfo(AuthInfoArgument(id, tokenSet, email, name));
      if parsed.Err? {
        return Err(Rejected(parsed.error));
      }
      var ok := Write(SpreadAuthInfo(data, parsed.value), writeFails);
      r := if ok then Ok(parsed.value) else Err(WriteFailed);
    }

    /** Lines 162-165. */
    method GetPreferences(moveFails: bool) returns (preferences: Option<Json>)
      modifies this
      ensures preferences == Member(Load(old(deployed), old(file)), "preferences")
      ensures preferences.Some? ==> IsPreferences(preferences.value)
      ensures deployed == old(deployed)
      ensures file == FileAfterRead(old(deployed), old(file), old(backup), moveFails)
      ensures backup == BackupAfterRead(old(deployed), old(file), old(backup), moveFails)
    {
      var data := ReadDb(moveFails);
      preferences := Member(data, "preferences");
    }

    /**
     * Lines 167-184: merges `player` into the stored player preferences,
     * writes, and returns the merged object (before any defaulting).
     */
    method SetPlayerPreferences(player: map<string, Json>, moveFails: bool, writeFails: bool)
      returns (r: Result<Json, Failure>)
      modifies this
      ensures deployed == old(deployed)
      ensures backup == BackupAfterRead(old(deployed), old(file), old(backup), moveFails)
      ensures var data := Load(old(deployed), old(file));
        if writeFails then
          r == Err(WriteFailed) && file == FileAfterRead(old(deployed), old(file), old(backup), moveFails)
        else
          r == Ok(JObj(MergedPlayer(data, player))) && file == Some(Parsed(SpreadPlayer(data, player)))
    {
      var data := ReadDb(moveFails);
      var ok := Write(SpreadPlayer(data, player), writeFails);
      r := if ok then Ok(JObj(MergedPlayer(data, player))) else Err(WriteFailed);
    }

    /**
     * Lines 186-197: replaces `presence` by the argument (None stands for
     * `undefined`), writes, and returns the argument.
     */
    method SetPresencePreferences(presence: Option<bool>, moveFails: bool, writeFails: bool)
      returns (r: Result<Option<Json>, Failure>)
      modifies this
      ensures deployed == old(deployed)
      ensures backup == BackupAfterRead(old(deployed), old(file), old(backup), moveFails)
      ensures var data := Load(old(deployed), old(file));
        if writeFails then
          r == Err(WriteFailed) && file == FileAfterRead(old(deployed), old(file), old(backup), moveFails)
        else
          && r == Ok(if presence.Some? then Some(PresenceObject(presence.value)) else None)
          && file == Some(Parsed(SpreadPresence(data, presence)))
    {
      var data := ReadDb(moveFails);
      var ok := Write(SpreadPresence(data, presence), writeFails);
      r := if !ok then Err(WriteFailed)
           else Ok(if presence.Some? then Some(PresenceObject(presence.value)) else None);
    }

    /** Lines 199-202. */
    method ReadOnboardingData(moveFails: bool) returns (onboarding: Option<Json>)
      modifies this
      ensures onboarding == Member(Load(old(deployed), old(file)), "onboarding")
      ensures onboarding.Some? ==> IsOnboarding(onboarding.value)
      ensures deployed == old(deployed)
      ensures file == FileAfterRead(old(deployed), old(file), old(backup), moveFails)
      ensures backup == BackupAfterRead(old(deployed), old(file), old(backup), moveFails)
    {
      var data := ReadDb(moveFails);
      onboarding := Member(data, "onboarding");
    }

    /**
     * Lines 204-219: appends `videoUrl` to the watched list (falsy entries
     * filtered out, no de-duplication), writes, and returns the new
     * onboarding object.
     */
    method MarkOnboardingVideoWatched(videoUrl: string, moveFails: bool, writeFails: bool)
      returns (r: Result<Json, Failure>)
      modifies this
      ensures deployed == old(deployed)
      ensures backup == BackupAfterRead(old(deployed), old(file), old(backup), moveFails)
      ensures var data := Load(old(deployed), old(file));
        if writeFails then
          r == Err(WriteFailed) && file == FileAfterRead(old(deployed), old(file), old(backup), moveFails)
        else
          r == Ok(OnboardingAfter(data, videoUrl)) && file == Some(Parsed(SpreadWatchedVideo(data, videoUrl)))
    {
      var data := ReadDb(moveFails);
      var ok := Write(SpreadWatchedVideo(data, videoUrl), writeFails);
      r := if ok then Ok(OnboardingAfter(data, videoUrl)) else Err(WriteFailed);
    }
  }
}
