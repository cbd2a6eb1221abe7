/**
 * URL composition in the OpenMRS REST client (`OpenmrsClient`): the base URL
 * loses one trailing slash in the constructor and again in `get`, and the
 * relative path loses one leading slash.
 */
module OpenmrsClient {
  import opened Wrappers
  import opened Text

  predicate EndsWithSlash(s: string) { s != [] && s[|s| - 1] == '/' }

  predicate StartsWithSlash(s: string) { s != [] && s[0] == '/' }

  /** `stripEndingSlash`: null stays null; otherwise one trailing '/' is removed if there is one. */
  function StripEndingSlash(value: Option<string>): (r: Option<string>)
    ensures r.None? <==> value.None?
    ensures value.Some? ==>
      && |value.value| - 1 <= |r.value| <= |value.value|
      && r.value == value.value[..|r.value|]
      && (r == value <==> !EndsWithSlash(value.value))
  {
    match value
    case None => None
    case Some(s) => if EndsWithSlash(s) then Some(s[..|s| - 1]) else value
  }

  /** `stripLeadingSlash`: null stays null; otherwise one leading '/' is removed if there is one. */
  function StripLeadingSlash(value: Option<string>): (r: Option<string>)
    ensures r.None? <==> value.None?
    ensures value.Some? ==>
      && |value.value| - 1 <= |r.value| <= |value.value|
      && r.value == value.value[|value.value| - |r.value|..]
      && (r == value <==> !StartsWithSlash(value.value))
  {
    match value
    case None => None
    case Some(s) => if StartsWithSlash(s) then Some(s[1..]) else value
  }

  /** Exactly one slash is removed, never more: "x//" gives "x/". */
  lemma StripEndingSlashOnce(s: string)
    ensures StripEndingSlash(Some(s + "/")) == Some(s)
    ensures StripEndingSlash(Some("x//")) == Some("x/")
  {
    assert (s + "/")[..|s|] == s;
    assert "x//"[..2] == "x/";
  }

  lemma StripLeadingSlashOnce(s: string)
    ensures StripLeadingSlash(Some("/" + s)) == Some(s)
    ensures StripLeadingSlash(Some("//x")) == Some("/x")
  {
    assert ("/" + s)[1..] == s;
    assert "//x"[1..] == "/x";
  }

  /** The client's configuration; the credentials only enter the authorisation header. */
  datatype Client = Client(baseUrl: Option<string>, username: Option<string>, password: Option<string>)

  /** The constructor: the base URL is stored with one trailing slash stripped. */
  function NewClient(baseUrl: Option<string>, username: Option<string>, password: Option<string>): (c: Client)
    ensures c.baseUrl.None? <==> baseUrl.None?
    ensures baseUrl.Some? && !EndsWithSlash(baseUrl.value) ==> c.baseUrl == baseUrl
    ensures baseUrl.Some? ==> baseUrl.value == c.baseUrl.value || baseUrl.value == c.baseUrl.value + "/"
    ensures c.username == username && c.password == password
  {
    Client(StripEndingSlash(baseUrl), username, password)
  }

  /** The absolute URL `get(relativePath)` requests. */
  function GetUrl(c: Client, relativePath: Option<string>): string
  {
    Str(StripEndingSlash(c.baseUrl)) + "/" + Str(StripLeadingSlash(relativePath))
  }

  function Slashes(n: nat): string
    ensures |Slashes(n)| == n && forall i :: 0 <= i < n ==> Slashes(n)[i] == '/'
  {
    if n == 0 then [] else Slashes(n - 1) + "/"
  }

  /**
   * With the constructor's strip and the one in `get`, a base URL with up to two
   * trailing slashes and a path with up to one leading slash are joined by exactly one slash.
   */
  lemma {:induction false} GetJoinsWithOneSlash(base: string, trailing: nat, path: string, leading: nat)
    requires !EndsWithSlash(base) && !StartsWithSlash(path)
    requires trailing <= 2 && leading <= 1
    ensures GetUrl(NewClient(Some(base + Slashes(trailing)), None, None), Some(Slashes(leading) + path))
      == base + "/" + path
  {
    var b := base + Slashes(trailing);
    if trailing == 0 {
      assert b == base;
    } else if trailing == 1 {
      assert b == base + "/";
      StripEndingSlashOnce(base);
    } else {
      assert b == (base + "/") + "/";
      StripEndingSlashOnce(base + "/");
      StripEndingSlashOnce(base);
    }
    assert StripEndingSlash(StripEndingSlash(Some(b))) == Some(base);
    if leading == 0 {
      assert Slashes(leading) + path == path;
    } else {
      assert Slashes(leading) + path == "/" + path;
      StripLeadingSlashOnce(path);
    }
  }

  /** A third trailing slash survives both strips, so the URL holds a double slash. */
  lemma ThreeTrailingSlashesSurvive(base: string, path: string)
    requires !EndsWithSlash(base) && !StartsWithSlash(path)
    ensures GetUrl(NewClient(Some(base + "///"), None, None), Some(path)) == base + "//" + path
  {
    assert base + "///" == ((base + "/") + "/") + "/";
    StripEndingSlashOnce((base + "/") + "/");
    StripEndingSlashOnce(base + "/");
    assert (base + "/") + "/" + path == base + "//" + path;
  }

  /** A null base URL is printed as "null" by the string concatenation in `get`. */
  lemma NullBaseUrl(path: string)
    requires !StartsWithSlash(path)
    ensures GetUrl(NewClient(None, None, None), Some(path)) == "null/" + path
  {
  }
}
