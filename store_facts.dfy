/**
 * What the next `readDb` of a (not deployed) store sees after each
 * successful write, and how the deployed switch changes `getClientId`.
 */
module StoreFacts {
  import opened Wrappers
  import opened JsonValues
  import opened Schema
  import opened Documents
  import opened Store

  /**
   * Lines 76-84, not deployed: the id `getClientId` returns is the one a
   * second call finds stored, so back-to-back calls agree.
   */
  lemma ClientIdIsStable(file: Option<Raw>, newId: string)
    requires newId != ""
    ensures var data := Load(false, file);
      var stored := StoredClientId(data);
      var id := if stored.Some? then stored.value else newId;
      var written := if stored.Some? then file else Some(Parsed(SpreadClientId(data, newId)));
      StoredClientId(Load(false, written)) == Some(id)
  {
    var data := Load(false, file);
    if StoredClientId(data).None? {
      WrittenClientIdReadsBack(data, newId);
    }
  }

  /** Line 82 read back: the next read finds the id just written. */
  lemma WrittenClientIdReadsBack(data: Option<Json>, newId: string)
    requires Readable(data)
    requires newId != ""
    ensures StoredClientId(Load(false, Some(Parsed(SpreadClientId(data, newId))))) == Some(newId)
  {
    var x := SpreadClientId(data, newId);
    ClientIdReadsBack(data, newId);
    var d := ValidateData(x).value;
    assert Load(false, Some(Parsed(x))) == Some(d);
    assert d.fields["clientId"] == JStr(newId);
  }

  /**
   * Lines 76-84 and 98-100, deployed: nothing is ever read, so every call
   * writes a document holding only the fresh id, and returns that id.
   */
  lemma DeployedClientIdIsFresh(file: Option<Raw>, newId: string)
    ensures StoredClientId(Load(true, file)) == None
    ensures SpreadClientId(Load(true, file), newId) == JObj(map["clientId" := JStr(newId)])
  {
  }

  /**
   * Lines 147-156: the argument of `setAuthInfo` passes the schema exactly
   * when the token set carries its three strings and the email is not an
   * explicit `null` (a missing email becomes the placeholder address, a
   * missing name stays missing).
   */
  lemma AuthInfoArgumentAccepted(id: string, tokenSet: map<string, Json>, email: Nullish, name: Nullish)
    ensures var r := ValidateAuthInfo(AuthInfoArgument(id, tokenSet, email, name));
      && (r.Ok? <==> (forall k :: k in TokenSetKeys ==> k in tokenSet && tokenSet[k].JStr?) && !email.Null?)
      && (r.Ok? ==>
            && r.value.fields["id"] == JStr(id)
            && r.value.fields["email"] == JStr(if email.Str? then email.s else "unknown@example.com")
            && (forall k :: k in TokenSetKeys ==> r.value.fields["tokenSet"].fields[k] == tokenSet[k])
            && ("name" in r.value.fields <==> !name.Undefined?)
            && (name.Str? ==> r.value.fields["name"] == JStr(name.s)))
  {
    var arg := AuthInfoArgument(id, tokenSet, email, name);
    assert arg.fields["id"] == JStr(id);
    assert arg.fields["tokenSet"] == JObj(tokenSet);
    assert "name" in arg.fields <==> !name.Undefined?;
  }

  /**
   * Lines 144-160 read back: the next read finds the new auth info and the
   * client id as it was.
   */
  lemma AuthInfoPersisted(file: Option<Raw>, authInfo: Json)
    requires IsAuthInfo(authInfo)
    ensures var data := Load(false, file);
      var next := Load(false, Some(Parsed(SpreadAuthInfo(data, authInfo))));
      && Member(next, "authInfo") == Some(authInfo)
      && Member(next, "clientId") == Member(data, "clientId")
  {
    var data := Load(false, file);
    AuthInfoReadsBack(data, authInfo);
  }

  /**
   * Lines 167-184 read back: the next read finds the stored player
   * preferences overridden by the input, and the presence preferences
   * as they were.
   */
  lemma PlayerPersisted(file: Option<Raw>, player: map<string, Json>)
    requires IsPlayerInput(player)
    ensures var data := Load(false, file);
      var prefs := BasePrefs(data);
      var next := Member(Load(false, Some(Parsed(SpreadPlayer(data, player)))), "preferences");
      && Member(next, "player") == Some(JObj(PlayerAsRead(prefs["player"].fields, player)))
      && Member(next, "presence") == Some(prefs["presence"])
  {
    var data := Load(false, file);
    PlayerReadsBack(data, player);
  }

  /**
   * Lines 186-197 read back: the next read finds exactly the given presence
   * preferences (the default when none were given), and the player
   * preferences as they were.
   */
  lemma PresencePersisted(file: Option<Raw>, presence: Option<bool>)
    ensures var data := Load(false, file);
      var prefs := BasePrefs(data);
      var next := Member(Load(false, Some(Parsed(SpreadPresence(data, presence)))), "preferences");
      && Member(next, "presence") == Some(if presence.Some? then PresenceObject(presence.value) else DefaultPresence)
      && Member(next, "player") == Some(prefs["player"])
  {
    var data := Load(false, file);
    PresenceReadsBack(data, presence);
  }

  /**
   * Lines 204-219 read back: the next read finds the url appended to the
   * watched list once more, and no empty entry.
   */
  lemma WatchedVideoPersisted(file: Option<Raw>, videoUrl: string)
    ensures var data := Load(false, file);
      var next := Member(Member(Load(false, Some(Parsed(SpreadWatchedVideo(data, videoUrl)))), "onboarding"), "tourVideosWatched");
      && next == Some(JArr(FilterTruthy(WatchedBefore(data)) + (if videoUrl == "" then [] else [JStr(videoUrl)])))
      && (videoUrl != "" ==> Count(next.value.items, JStr(videoUrl)) == Count(WatchedBefore(data), JStr(videoUrl)) + 1)
  {
    var data := Load(false, file);
    WatchedVideoReadsBack(data, videoUrl);
    WatchedAppends(data, videoUrl);
  }

  /**
   * Lines 98-113: a quarantined file leaves nothing behind, so the read
   * after it finds no document; a second corrupt file is never moved over
   * the first backup.
   */
  lemma QuarantineIsOneShot(file: Option<Raw>, backup: Option<Raw>, moveFails: bool)
    ensures Quarantines(false, file, backup, moveFails) ==>
      && FileAfterRead(false, file, backup, moveFails) == None
      && BackupAfterRead(false, file, backup, moveFails) == file
    ensures backup.Some? ==> BackupAfterRead(false, file, backup, moveFails) == backup
    ensures Load(false, file).Some? ==> FileAfterRead(false, file, backup, moveFails) == file
  {
  }
}
