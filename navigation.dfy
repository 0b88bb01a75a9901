/** The navigation destinations: fixed route strings, three route patterns with arguments, and
    the builders that splice argument values into them verbatim, with no escaping. The
    matchers here read the arguments back the way the route patterns delimit them. */
module Navigation {
  import opened Wrappers

  const SPLASH: string := "splash"
  const ONBOARDING: string := "onboarding"
  const PIN_SETUP: string := "pin_setup"
  const PIN_AUTH: string := "pin_auth"
  const MAIN: string := "main"
  const SETTINGS: string := "settings"
  const ABOUT: string := "about"

  const FOLDER_DETAIL_PATTERN: string := "folder_detail/{folderId}/{folderName}"
  const PASSWORD_PIN_VERIFY_PATTERN: string := "password_pin_verify/{passwordId}"
  const PASSWORD_DETAIL_PATTERN: string := "password_detail?passwordId={passwordId}&folderId={folderId}"

  const FOLDER_DETAIL_PREFIX: string := "folder_detail/"
  const PASSWORD_PIN_VERIFY_PREFIX: string := "password_pin_verify/"
  const PASSWORD_DETAIL_PREFIX: string := "password_detail?passwordId="
  /** The query parameter that carries the folder: `&` and then its name. */
  const FOLDER_ID_NAME: string := "folderId="
  const FOLDER_ID_PARAMETER: string := "&" + FOLDER_ID_NAME

  /** A path segment the navigation library reads back as written: it holds no `/` (the
      segment's end), no `?` (the start of the query) and no `#` (the start of the fragment). */
  predicate PathSafe(s: string) {
    '/' !in s && '?' !in s && '#' !in s
  }

  /** A query parameter value the library reads back as written: it holds no `&` (the next
      parameter) and no `#` (the start of the fragment). */
  predicate QuerySafe(s: string) {
    '&' !in s && '#' !in s
  }

  /** The seven fixed routes, each a different string. */
  function StaticRoutes(): (r: seq<string>)
    ensures |r| == 7
    ensures forall i, j :: 0 <= i < j < |r| ==> r[i] != r[j]
    ensures SPLASH in r && ONBOARDING in r && PIN_SETUP in r && PIN_AUTH in r
    ensures MAIN in r && SETTINGS in r && ABOUT in r
  {
    [SPLASH, ONBOARDING, PIN_SETUP, PIN_AUTH, MAIN, SETTINGS, ABOUT]
  }

  /** No fixed route is an instance of one of the routes with arguments. */
  lemma StaticRoutesHaveNoArguments(s: string)
    requires s in StaticRoutes()
    ensures !(FOLDER_DETAIL_PREFIX <= s) && !(PASSWORD_PIN_VERIFY_PREFIX <= s) && !(PASSWORD_DETAIL_PREFIX <= s)
  {
  }

  /** `s` cut at the first `c`: the text before it and, when there is a `c`, the text after. */
  function SplitAtFirst(s: string, c: char): (r: (string, Option<string>))
    ensures c !in r.0
    ensures r.1.None? <==> c !in s
    ensures r.1.None? ==> r.0 == s
    ensures r.1.Some? ==> s == r.0 + [c] + r.1.value
  {
    if s == [] then ([], None)
    else if s[0] == c then ([], Some(s[1..]))
    else
      var rest := SplitAtFirst(s[1..], c);
      assert s == [s[0]] + s[1..];
      ([s[0]] + rest.0, rest.1)
  }

  /** Cutting a text of the shape `a + [c] + b` with no `c` in `a` gives back `a` and `b`. */
  lemma {:induction false} SplitAtFirstOf(a: string, c: char, b: string)
    requires c !in a
    ensures SplitAtFirst(a + [c] + b, c) == (a, Some(b))
  {
    if a != [] {
      assert (a + [c] + b)[0] == a[0] != c;
      assert (a + [c] + b)[1..] == a[1..] + [c] + b;
      SplitAtFirstOf(a[1..], c, b);
      assert [a[0]] + a[1..] == a;
    } else {
      assert (a + [c] + b)[1..] == b;
    }
  }

  /** FolderDetail.createRoute. */
  function FolderDetailRoute(folderId: string, folderName: string): (r: string)
    ensures FOLDER_DETAIL_PREFIX <= r
    ensures r[|FOLDER_DETAIL_PREFIX|..] == folderId + "/" + folderName
  {
    FOLDER_DETAIL_PREFIX + folderId + "/" + folderName
  }

  /** The arguments of a route matched against `folder_detail/{folderId}/{folderName}`: two
      path segments, each safe to read back; a route whose path is cut short by a query or a
      fragment does not match. */
  function MatchFolderDetail(route: string): (r: Option<(string, string)>)
    ensures r.Some? ==> FolderDetailRoute(r.value.0, r.value.1) == route
    ensures r.Some? ==> PathSafe(r.value.0) && PathSafe(r.value.1)
  {
    if !(FOLDER_DETAIL_PREFIX <= route) then None
    else
      var parts := SplitAtFirst(route[|FOLDER_DETAIL_PREFIX|..], '/');
      if parts.1.None? || !PathSafe(parts.0) || !PathSafe(parts.1.value) then None
      else
        assert route == FOLDER_DETAIL_PREFIX + route[|FOLDER_DETAIL_PREFIX|..];
        Some((parts.0, parts.1.value))
  }

  /** The folder route reads back as the id and name it was built from, as long as both are
      safe path segments. */
  lemma FolderDetailRoundTrip(folderId: string, folderName: string)
    requires PathSafe(folderId) && PathSafe(folderName)
    ensures MatchFolderDetail(FolderDetailRoute(folderId, folderName)) == Some((folderId, folderName))
  {
    var route := FolderDetailRoute(folderId, folderName);
    assert route[|FOLDER_DETAIL_PREFIX|..] == folderId + ['/'] + folderName;
    SplitAtFirstOf(folderId, '/', folderName);
  }

  /** Without escaping, two different folders can get the same route. */
  lemma FolderDetailRouteCollides()
    ensures FolderDetailRoute("a/b", "c") == FolderDetailRoute("a", "b/c")
    ensures MatchFolderDetail(FolderDetailRoute("a", "b/c")) == None
  {
    var route := FolderDetailRoute("a", "b/c");
    assert "a/b" + "/" + "c" == "a" + "/" + "b/c";
    assert route[|FOLDER_DETAIL_PREFIX|..] == "a" + ['/'] + "b/c";
    SplitAtFirstOf("a", '/', "b/c");
    assert "b/c"[1] == '/';
  }

  /** PasswordPinVerify.createRoute. */
  function PasswordPinVerifyRoute(passwordId: string): (r: string)
    ensures PASSWORD_PIN_VERIFY_PREFIX <= r && r[|PASSWORD_PIN_VERIFY_PREFIX|..] == passwordId
  {
    PASSWORD_PIN_VERIFY_PREFIX + passwordId
  }

  /** The argument of a route matched against `password_pin_verify/{passwordId}`: one safe
      path segment. */
  function MatchPasswordPinVerify(route: string): (r: Option<string>)
    ensures r.Some? ==> PasswordPinVerifyRoute(r.value) == route && PathSafe(r.value)
  {
    if PASSWORD_PIN_VERIFY_PREFIX <= route && PathSafe(route[|PASSWORD_PIN_VERIFY_PREFIX|..]) then
      assert route == PASSWORD_PIN_VERIFY_PREFIX + route[|PASSWORD_PIN_VERIFY_PREFIX|..];
      Some(route[|PASSWORD_PIN_VERIFY_PREFIX|..])
    else None
  }

  lemma PasswordPinVerifyRoundTrip(passwordId: string)
    requires PathSafe(passwordId)
    ensures MatchPasswordPinVerify(PasswordPinVerifyRoute(passwordId)) == Some(passwordId)
  {
  }

  /** PasswordDetail.createRoute: the folder parameter is appended only when there is a folder. */
  function PasswordDetailRoute(passwordId: string, folderId: Option<string> := None): (r: string)
    ensures PASSWORD_DETAIL_PREFIX <= r
    ensures folderId.None? ==> r[|PASSWORD_DETAIL_PREFIX|..] == passwordId
    ensures folderId.Some? ==> r[|PASSWORD_DETAIL_PREFIX|..] == passwordId + FOLDER_ID_PARAMETER + folderId.value
  {
    var route := PASSWORD_DETAIL_PREFIX + passwordId;
    if folderId.Some? then route + FOLDER_ID_PARAMETER + folderId.value else route
  }

  /** With a folder, the route is the route without one followed by the folder parameter. */
  lemma PasswordDetailRouteExtends(passwordId: string, folderId: string)
    ensures PasswordDetailRoute(passwordId, Some(folderId))
              == PasswordDetailRoute(passwordId) + FOLDER_ID_PARAMETER + folderId
    ensures PasswordDetailRoute(passwordId) <= PasswordDetailRoute(passwordId, Some(folderId))
  {
  }

  /** The arguments of a route matched against the password detail pattern: the id runs to
      the first `&`, whatever follows must be the folder parameter, and both values must be
      safe query values. */
  function MatchPasswordDetail(route: string): (r: Option<(string, Option<string>)>)
    ensures r.Some? ==> PasswordDetailRoute(r.value.0, r.value.1) == route
    ensures r.Some? ==> QuerySafe(r.value.0) && (r.value.1.Some? ==> QuerySafe(r.value.1.value))
  {
    if !(PASSWORD_DETAIL_PREFIX <= route) then None
    else
      var query := route[|PASSWORD_DETAIL_PREFIX|..];
      assert route == PASSWORD_DETAIL_PREFIX + query;
      var parts := SplitAtFirst(query, '&');
      if '#' in parts.0 then None
      else if parts.1.None? then Some((parts.0, None))
      else
        var tail := parts.1.value;
        if FOLDER_ID_NAME <= tail && QuerySafe(tail[|FOLDER_ID_NAME|..]) then
          var folder := tail[|FOLDER_ID_NAME|..];
          assert tail == FOLDER_ID_NAME + folder;
          Regroup(parts.0, '&', FOLDER_ID_NAME, folder, query);
          Some((parts.0, Some(folder)))
        else None
  }

  /** A text cut at a separator and then at the end of a name, put back together. */
  lemma Regroup(a: string, c: char, name: string, rest: string, s: string)
    requires s == a + [c] + (name + rest)
    ensures s == a + ([c] + name) + rest
  {
  }

  /** The password detail route reads back as its arguments when both are safe query values. */
  lemma PasswordDetailRoundTrip(passwordId: string, folderId: Option<string>)
    requires QuerySafe(passwordId) && (folderId.Some? ==> QuerySafe(folderId.value))
    ensures MatchPasswordDetail(PasswordDetailRoute(passwordId, folderId)) == Some((passwordId, folderId))
  {
    var route := PasswordDetailRoute(passwordId, folderId);
    if folderId.Some? {
      var rest := FOLDER_ID_NAME + folderId.value;
      assert route[|PASSWORD_DETAIL_PREFIX|..] == passwordId + ['&'] + rest;
      SplitAtFirstOf(passwordId, '&', rest);
      assert rest[|FOLDER_ID_NAME|..] == folderId.value;
    }
  }

  /** Without escaping, an id that holds the folder parameter reads as an id and a folder. */
  lemma PasswordDetailRouteCollides()
    ensures PasswordDetailRoute("x&folderId=y") == PasswordDetailRoute("x", Some("y"))
    ensures MatchPasswordDetail(PasswordDetailRoute("x&folderId=y")) == Some(("x", Some("y")))
  {
    assert "x&folderId=y" == "x" + FOLDER_ID_PARAMETER + "y";
    assert PasswordDetailRoute("x", Some("y")) == PASSWORD_DETAIL_PREFIX + "x&folderId=y";
    PasswordDetailRoundTrip("x", Some("y"));
  }

  /** A folder name holding `?` would be cut short by the library's query parsing, so the
      folder matcher refuses the route instead of reading back the whole name. */
  lemma FolderDetailRefusesQueryMark()
    ensures MatchFolderDetail(FolderDetailRoute("id1", "Work?")) == None
  {
    var route := FolderDetailRoute("id1", "Work?");
    assert route[|FOLDER_DETAIL_PREFIX|..] == "id1" + ['/'] + "Work?";
    SplitAtFirstOf("id1", '/', "Work?");
    assert "Work?"[4] == '?';
  }

  /** A folder value holding `&` would be cut short at the next parameter, so the detail
      matcher refuses the route. */
  lemma PasswordDetailRefusesAmpersandFolder()
    ensures MatchPasswordDetail(PasswordDetailRoute("x", Some("y&z"))) == None
  {
    var route := PasswordDetailRoute("x", Some("y&z"));
    var rest := FOLDER_ID_NAME + "y&z";
    assert route[|PASSWORD_DETAIL_PREFIX|..] == "x" + ['&'] + rest;
    SplitAtFirstOf("x", '&', rest);
    assert rest[|FOLDER_ID_NAME|..] == "y&z";
    assert "y&z"[1] == '&';
  }
}
