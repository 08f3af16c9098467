/**
 * `requireAuthInfo` (packages/workshop-utils/src/db.server.ts lines
 * 121-142) as a pure function: given what `getAuthInfo` returned, the
 * request's `pathname` and `search`, and the optional `redirectTo`
 * argument, it either yields the stored auth info or the login location
 * that the source throws as a redirect response.
 */
module Redirect {
  import opened Wrappers
  import opened JsonValues
  import opened FormUrlEncoded

  /** The two outcomes: the stored auth info, or a redirect to `location`. */
  datatype AuthOrRedirect = Authorized(authInfo: Json) | LoginRedirect(location: string)

  const LoginPath: string := "/login"
  const ParamName: string := "redirectTo"

  /**
   * Lines 131-134: `null` means no return path; `undefined` means the
   * current request's path and query; a string is used as given (even "").
   */
  function ReturnPath(pathname: string, search: string, redirectTo: Nullish): Option<string>
  {
    match redirectTo
    case Null => None
    case Undefined => Some(pathname + search)
    case Str(s) => Some(s)
  }

  /**
   * Lines 135-138: `/login`, followed by `?` and the serialized parameter
   * when the return path is truthy (present and non-empty).
   */
  function LoginLocation(returnPath: Option<string>): string
  {
    if returnPath.Some? && returnPath.value != "" then
      LoginPath + "?" + Serialize([(ParamName, returnPath.value)])
    else LoginPath
  }

  /** Lines 128-141. */
  function RequireAuthInfo(authInfo: Option<Json>, pathname: string, search: string, redirectTo: Nullish): AuthOrRedirect
  {
    if authInfo.Some? then Authorized(authInfo.value)
    else LoginRedirect(LoginLocation(ReturnPath(pathname, search, redirectTo)))
  }

  /** `URLSearchParams.prototype.get`: the value of the first pair with that name. */
  function FirstValue(pairs: seq<(string, string)>, name: string): Option<string>
  {
    if pairs == [] then None
    else if pairs[0].0 == name then Some(pairs[0].1)
    else FirstValue(pairs[1..], name)
  }

  /**
   * What the login route reads back from a location: the `redirectTo`
   * parameter of its query, if it has one.
   */
  function ReturnPathOf(location: string): Option<string>
  {
    if |location| > |LoginPath| && location[..|LoginPath| + 1] == LoginPath + "?" then
      match Parse(location[|LoginPath| + 1..])
      case Some(pairs) => FirstValue(pairs, ParamName)
      case None => None
    else None
  }

  /** Stored auth info is returned as it is, whatever the request. */
  lemma AuthorizedWhenStored(authInfo: Json, pathname: string, search: string, redirectTo: Nullish)
    ensures RequireAuthInfo(Some(authInfo), pathname, search, redirectTo) == Authorized(authInfo)
  {
  }

  /** `redirectTo: null` or `redirectTo: ""` sends to exactly `/login`. */
  lemma BareLoginWhenNoReturnPath(pathname: string, search: string, redirectTo: Nullish)
    requires redirectTo == Null || redirectTo == Str("")
    ensures RequireAuthInfo(None, pathname, search, redirectTo) == LoginRedirect("/login")
  {
  }

  /**
   * Without auth info the location always leads to `/login`, and the login
   * route reads back from it exactly the return path the source chose:
   * `redirectTo` if given and non-empty, the request's path and query if
   * `redirectTo` was left undefined, and nothing otherwise.
   */
  lemma RedirectCarriesReturnPath(pathname: string, search: string, redirectTo: Nullish)
    ensures var r := RequireAuthInfo(None, pathname, search, redirectTo);
      && r.LoginRedirect?
      && r.location[..|LoginPath|] == LoginPath
      && ReturnPathOf(r.location) ==
           match redirectTo
           case Null => None
           case Undefined => if pathname + search == "" then None else Some(pathname + search)
           case Str(s) => if s == "" then None else Some(s)
  {
    LocationCarries(ReturnPath(pathname, search, redirectTo));
  }

  /** The location built from a return path starts with `/login` and parses back to that path, if non-empty. */
  lemma LocationCarries(rp: Option<string>)
    ensures |LoginLocation(rp)| >= |LoginPath| && LoginLocation(rp)[..|LoginPath|] == LoginPath
    ensures ReturnPathOf(LoginLocation(rp)) == if rp.Some? && rp.value != "" then rp else None
  {
    if rp.Some? && rp.value != "" {
      var query := Serialize([(ParamName, rp.value)]);
      var prefix := LoginPath + "?";
      var location := LoginLocation(rp);
      assert location == prefix + query;
      PrefixSplit(prefix, query);
      assert |prefix| == |LoginPath| + 1;
      assert location[..|LoginPath|] == prefix[..|LoginPath|] == LoginPath;
      ParseSerialize([(ParamName, rp.value)]);
      assert Parse(location[|LoginPath| + 1..]) == Some([(ParamName, rp.value)]);
    }
  }

  /** Slicing a concatenation at the seam gives back its two parts. */
  lemma PrefixSplit(p: string, q: string)
    ensures (p + q)[..|p|] == p && (p + q)[|p|..] == q
  {
  }

  /** The example request `/foo?bar=1` with no stored auth and no `redirectTo`. */
  lemma RedirectExample()
    ensures RequireAuthInfo(None, "/foo", "?bar=1", Undefined) == LoginRedirect("/login?redirectTo=%2Ffoo%3Fbar%3D1")
  {
    UnreservedIsUnchanged(ParamName);
    ExamplePath();
    ExampleQuery();
    EncodeComponentAppend("/foo", "?bar=1");
    var location := LoginLocation(Some("/foo" + "?bar=1"));
    assert location == "/login" + "?" + ("redirectTo" + "=" + ("%2Ffoo" + "%3Fbar%3D1"));
    ExampleConcat();
  }

  lemma ExampleConcat()
    ensures "/login" + "?" + ("redirectTo" + "=" + ("%2Ffoo" + "%3Fbar%3D1")) == "/login?redirectTo=%2Ffoo%3Fbar%3D1"
  {
  }

  lemma ExamplePath()
    ensures EncodeComponent("/foo") == "%2Ffoo"
  {
    ExampleFoo();
    assert "/foo" == ['/'] + "foo";
    EncodeComponentCons('/', "foo");
    assert !Unreserved('/' as int as byte) && '/' as int / 16 == 2 && '/' as int % 16 == 15;
    assert EncodeByte('/' as int as byte) == "%2F";
    assert EncodeComponent("/foo") == "%2Ffoo";
  }

  lemma ExampleFoo()
    ensures EncodeComponent("foo") == "foo"
  {
    UnreservedIsUnchanged("foo");
  }

  lemma ExampleQuery()
    ensures EncodeComponent("?bar=1") == "%3Fbar%3D1"
  {
    ExampleQueryName();
    ExampleQueryValue();
    EncodeComponentAppend("?bar", "=1");
    assert "?bar" + "=1" == "?bar=1";
    assert "%3Fbar" + "%3D1" == "%3Fbar%3D1";
  }

  lemma ExampleQueryName()
    ensures EncodeComponent("?bar") == "%3Fbar"
  {
    ExampleBar();
    assert "?bar" == ['?'] + "bar";
    EncodeComponentCons('?', "bar");
    assert !Unreserved('?' as int as byte) && '?' as int / 16 == 3 && '?' as int % 16 == 15;
    assert EncodeByte('?' as int as byte) == "%3F";
    assert EncodeComponent("?bar") == "%3Fbar";
  }

  lemma ExampleBar()
    ensures EncodeComponent("bar") == "bar"
  {
    UnreservedIsUnchanged("bar");
  }

  lemma ExampleQueryValue()
    ensures EncodeComponent("=1") == "%3D1"
  {
    UnreservedIsUnchanged("1");
    assert "=1" == ['='] + "1";
    EncodeComponentCons('=', "1");
    assert !Unreserved('=' as int as byte) && '=' as int / 16 == 3 && '=' as int % 16 == 13;
    assert EncodeByte('=' as int as byte) == "%3D";
    assert EncodeComponent("=1") == "%3D1";
  }
}
