/**
 * The control channel of internal/meshrouter/meshrouter.go as values: the
 * strings the client builds (one-time token, `x-meshauth` header, control
 * URL, `userAuth` frame, tunnel URL), the commands the server sends, and the
 * transition each command causes on the session record. The class in
 * meshrouter.dfy runs these transitions in place.
 */
module Protocol {
  import opened Wrappers
  import opened Text
  import Base64
  import opened Session

  const EmailSentinel: string := "**email**"
  const SmsSentinel: string := "**sms**"

  const RelayPath: string := "meshrelay.ashx"
  const ControlPath: string := "control.ashx"

  /** The two fixed requests the client sends on the control channel. */
  const AuthCookieRequest: string := "{\"action\":\"authcookie\"}"
  const NodesRequest: string := "{\"action\":\"nodes\"}"

  // ---------------------------------------------------------------------
  // One-time token and the x-meshauth header
  // ---------------------------------------------------------------------

  /**
   * The one-time token sent with the credentials: asking for an e-mailed
   * token wins over asking for an SMS, and both win over a token given
   * explicitly. No token is sent exactly when none of the three is set.
   */
  function ResolveToken(emailToken: bool, smsToken: bool, token: string): (t: string)
    ensures emailToken ==> t == EmailSentinel
    ensures !emailToken && smsToken ==> t == SmsSentinel
    ensures !emailToken && !smsToken ==> t == token
    ensures t == "" <==> !emailToken && !smsToken && token == ""
  {
    if emailToken then EmailSentinel
    else if smsToken then SmsSentinel
    else if token != "" then token
    else ""
  }

  /**
   * The value of the `x-meshauth` header for a credential login. It opens
   * with the encoded user name, which holds no ',', and the first ',' ends it.
   */
  function MeshAuthHeader(username: string, password: string, token: string): (h: string)
    ensures var eu := Base64.EncodeString(username);
      |eu| < |h| && h[..|eu|] == eu && h[|eu|] == ',' && ',' !in eu
  {
    Base64.EncodedLacks(username, ',');
    Base64.EncodeString(username) + "," + Base64.EncodeString(password)
      + (if token != "" then "," + Base64.EncodeString(token) else "")
  }

  /** What a server reads out of an `x-meshauth` value: UTF-8 bytes of each field. */
  datatype Credentials = Credentials(username: seq<Base64.byte>, password: seq<Base64.byte>,
                                     token: Option<seq<Base64.byte>>)

  /** The server's reading of an `x-meshauth` value: two or three base 64 fields separated by ','. */
  function ParseMeshAuth(h: string): Option<Credentials> {
    var parts := Split(h, ',');
    if |parts| != 2 && |parts| != 3 then None
    else
      var u, p := Base64.Decode(parts[0]), Base64.Decode(parts[1]);
      var t := if |parts| == 3 then Base64.Decode(parts[2]) else Some([]);
      if u.None? || p.None? || t.None? then None
      else Some(Credentials(u.value, p.value, if |parts| == 3 then Some(t.value) else None))
  }

  /**
   * The header carries the user name and password, and a token field exactly
   * when the token is non-empty: reading it back gives each field's bytes.
   */
  lemma MeshAuthRoundTrip(username: string, password: string, token: string)
    ensures ParseMeshAuth(MeshAuthHeader(username, password, token))
         == Some(Credentials(Base64.Utf8(username), Base64.Utf8(password),
                             if token == "" then None else Some(Base64.Utf8(token))))
  {
    var eu, ep, et := Base64.EncodeString(username), Base64.EncodeString(password), Base64.EncodeString(token);
    MeshAuthFields(username, password, token);
    Base64.DecodeEncode(Base64.Utf8(username));
    Base64.DecodeEncode(Base64.Utf8(password));
    Base64.DecodeEncode(Base64.Utf8(token));
    if token == "" {
      ParseTwoFields(MeshAuthHeader(username, password, token), eu, ep);
    } else {
      ParseThreeFields(MeshAuthHeader(username, password, token), eu, ep, et);
    }
  }

  lemma ParseTwoFields(h: string, a: string, b: string)
    requires Split(h, ',') == [a, b]
    requires Base64.Decode(a).Some? && Base64.Decode(b).Some?
    ensures ParseMeshAuth(h) == Some(Credentials(Base64.Decode(a).value, Base64.Decode(b).value, None))
  {
  }

  lemma ParseThreeFields(h: string, a: string, b: string, c: string)
    requires Split(h, ',') == [a, b, c]
    requires Base64.Decode(a).Some? && Base64.Decode(b).Some? && Base64.Decode(c).Some?
    ensures ParseMeshAuth(h) == Some(Credentials(Base64.Decode(a).value, Base64.Decode(b).value, Some(Base64.Decode(c).value)))
  {
  }

  /** The header splits at ',' into the encoded fields. */
  lemma MeshAuthFields(username: string, password: string, token: string)
    ensures var eu, ep, et := Base64.EncodeString(username), Base64.EncodeString(password), Base64.EncodeString(token);
      Split(MeshAuthHeader(username, password, token), ',') == if token == "" then [eu, ep] else [eu, ep, et]
  {
    Base64.EncodedLacks(username, ',');
    Base64.EncodedLacks(password, ',');
    Base64.EncodedLacks(token, ',');
    CommaFields(Base64.EncodeString(username), Base64.EncodeString(password), Base64.EncodeString(token), token != "");
  }

  lemma CommaFields(a: string, b: string, c: string, withC: bool)
    requires ',' !in a && ',' !in b && ',' !in c
    ensures Split(a + "," + b + (if withC then "," + c else ""), ',') == if withC then [a, b, c] else [a, b]
  {
    if withC {
      CommaThree(a, b, c);
    } else {
      CommaTwo(a, b);
    }
  }

  lemma CommaTwo(a: string, b: string)
    requires ',' !in a && ',' !in b
    ensures Split(a + "," + b + "", ',') == [a, b]
  {
    JoinTwo(a, b, ',');
    assert a + "," + b + "" == a + [','] + b;
    assert forall i :: 0 <= i < |[a, b]| ==> ',' !in [a, b][i];
    SplitJoin([a, b], ',');
  }

  lemma CommaThree(a: string, b: string, c: string)
    requires ',' !in a && ',' !in b && ',' !in c
    ensures Split(a + "," + b + ("," + c), ',') == [a, b, c]
  {
    JoinThree(a, b, c, ',');
    assert a + "," + b + ("," + c) == a + [','] + b + [','] + c;
    assert forall i :: 0 <= i < |[a, b, c]| ==> ',' !in [a, b, c][i];
    SplitJoin([a, b, c], ',');
  }

  // ---------------------------------------------------------------------
  // Control connection request
  // ---------------------------------------------------------------------

  /** The relay URL stored for a profile's server. */
  function RelayUrl(server: string): (u: string)
    ensures |u| == 7 + |server| + |RelayPath| && u[..6] == "wss://" && u[6..6 + |server|] == server
    ensures u[6 + |server|] == '/' && OccursAt(u, RelayPath, |u| - |RelayPath|)
  {
    "wss://" + server + "/" + RelayPath
  }

  /** The control URL: the first "meshrelay.ashx" of the relay URL becomes "control.ashx". */
  function ControlUrl(serverUrl: string): (u: string)
    ensures IndexOf(serverUrl, RelayPath).None? ==> u == serverUrl
    ensures IndexOf(serverUrl, RelayPath).Some? ==> var i := IndexOf(serverUrl, RelayPath).value;
      |u| + 2 == |serverUrl| && u[..i] == serverUrl[..i] && OccursAt(u, ControlPath, i)
  {
    ReplaceFirst(serverUrl, RelayPath, ControlPath)
  }

  /** What the dialer is given: a URL and the `x-meshauth` header, if any. */
  datatype DialRequest = DialRequest(url: string, meshAuth: Option<string>)

  /**
   * The control-channel dial. A server id selects `x-meshauth: *`; without one,
   * an empty auth cookie selects the credential header and a set cookie sends
   * no header at all. The cookie query the source prepares on a parsed copy of
   * the URL is never dialed, so it does not appear here.
   */
  function ControlRequest(s: Settings): (r: DialRequest)
    ensures r.url == ControlUrl(s.serverUrl)
    ensures r.meshAuth == Some("*") <==> s.serverId != ""
    ensures r.meshAuth.None? <==> s.serverId == "" && s.authCookie != ""
  {
    var xtoken := ResolveToken(s.emailToken, s.smsToken, s.token);
    DialRequest(
      ControlUrl(s.serverUrl),
      if s.serverId != "" then Some("*")
      else if s.authCookie == "" then Some(MeshAuthHeader(s.username, s.password, xtoken))
      else None)
  }

  /** The header modes of the control dial, with the credentials a server reads out of it. */
  lemma ControlRequestAuth(s: Settings)
    ensures s.serverId != "" ==> ControlRequest(s).meshAuth == Some("*")
    ensures s.serverId == "" && s.authCookie != "" ==> ControlRequest(s).meshAuth.None?
    ensures s.serverId == "" && s.authCookie == "" ==>
      ControlRequest(s).meshAuth.Some? &&
      var c := ParseMeshAuth(ControlRequest(s).meshAuth.value);
      c.Some? && c.value.username == Base64.Utf8(s.username) && c.value.password == Base64.Utf8(s.password) &&
      (c.value.token.Some? <==> s.emailToken || s.smsToken || s.token != "")
  {
    MeshAuthRoundTrip(s.username, s.password, ResolveToken(s.emailToken, s.smsToken, s.token));
  }

  /** The dialed URL depends on the server URL alone: neither the cookie nor a token reaches it. */
  lemma ControlUrlIgnoresCookie(s: Settings, authCookie: string, token: string, emailToken: bool, smsToken: bool)
    ensures ControlRequest(s.(authCookie := authCookie, token := token, emailToken := emailToken, smsToken := smsToken)).url
         == ControlRequest(s).url
  {
  }

  /** For a server name that does not itself hold "meshrelay.ashx", only the path is rewritten. */
  lemma ControlUrlOfServer(server: string)
    requires IndexOf(server, RelayPath).None?
    ensures ControlUrl(RelayUrl(server)) == "wss://" + server + "/" + ControlPath
  {
    var u := RelayUrl(server);
    var k := 7 + |server|;
    assert |u| == k + |RelayPath|;
    assert u[k..] == RelayPath;
    forall i | 0 <= i < k
      ensures !OccursAt(u, RelayPath, i)
    {
      NoRelayBefore(server, i);
    }
    FirstOccurrence(u, RelayPath, k);
    assert u[..k] + ControlPath + u[k + |RelayPath|..] == "wss://" + server + "/" + ControlPath;
  }

  /** Before the path, "meshrelay.ashx" can only occur inside the server name. */
  lemma NoRelayBefore(server: string, i: nat)
    requires IndexOf(server, RelayPath).None?
    requires i < 7 + |server|
    ensures !OccursAt(RelayUrl(server), RelayPath, i)
  {
    var u := RelayUrl(server);
    assert u == "wss://" + server + "/" + RelayPath;
    if i + |RelayPath| <= 6 + |server| && 6 <= i {
      assert u[i..i + |RelayPath|] == server[i - 6..i - 6 + |RelayPath|];
      assert !OccursAt(server, RelayPath, i - 6);
    } else if i <= 5 {
      SlashBlocks(u, i, 5);
    } else {
      SlashBlocks(u, i, 6 + |server|);
    }
  }

  /** A window of `u` that covers a '/' is not "meshrelay.ashx", which has none. */
  lemma SlashBlocks(u: string, i: nat, slash: nat)
    requires i <= slash < i + |RelayPath| && slash < |u| && u[slash] == '/'
    ensures !OccursAt(u, RelayPath, i)
  {
    assert RelayPath[slash - i] != '/';
    if i + |RelayPath| <= |u| {
      assert u[i..i + |RelayPath|][slash - i] == '/';
    }
  }

  /** An occurrence with none before it is the one `IndexOf` finds. */
  lemma FirstOccurrence(s: string, pat: string, k: nat)
    requires OccursAt(s, pat, k)
    requires forall i :: 0 <= i < k ==> !OccursAt(s, pat, i)
    ensures IndexOf(s, pat) == Some(k)
  {
  }

  /**
   * A server name that starts with "meshrelay.ashx" has that part of its host
   * rewritten instead, and the control dial keeps the relay path.
   */
  lemma ControlUrlRewritesHost(rest: string)
    ensures ControlUrl(RelayUrl(RelayPath + rest)) == "wss://" + ControlPath + rest + "/" + RelayPath
  {
    var u := RelayUrl(RelayPath + rest);
    assert u[6..6 + |RelayPath|] == RelayPath;
    assert OccursAt(u, RelayPath, 6);
    forall j | 0 <= j < 6
      ensures !OccursAt(u, RelayPath, j)
    {
      assert u[j..j + |RelayPath|][5 - j] == '/';
    }
    assert IndexOf(u, RelayPath) == Some(6);
    assert u[..6] + ControlPath + u[6 + |RelayPath|..] == "wss://" + ControlPath + rest + "/" + RelayPath;
  }

  // ---------------------------------------------------------------------
  // The userAuth frame
  // ---------------------------------------------------------------------

  /** A JSON member `"key":"value"` as the client writes it: the value is not escaped. */
  function Member(field: (string, string)): string {
    "\"" + field.0 + "\":\"" + field.1 + "\""
  }

  function Members(fields: seq<(string, string)>): seq<string> {
    if fields == [] then [] else [Member(fields[0])] + Members(fields[1..])
  }

  /** A flat JSON object with string values, members in the order given. */
  function JsonObject(fields: seq<(string, string)>): string {
    "{" + Join(Members(fields), ',') + "}"
  }

  function Keys(fields: seq<(string, string)>): seq<string> {
    if fields == [] then [] else [fields[0].0] + Keys(fields[1..])
  }

  /**
   * The `userAuth` frame sent in answer to `serverAuth`, spelled out piece by
   * piece as the client writes it.
   */
  function UserAuthFrame(s: Settings): (f: string)
    ensures |UserAuthHead| < |f| && f[..|UserAuthHead|] == UserAuthHead && f[|f| - 1] == '}'
    ensures f[|UserAuthHead|] == 'a' <==> s.authCookie != ""
  {
    var tokenPart := TokenPart(ResolveToken(s.emailToken, s.smsToken, s.token));
    if s.authCookie != "" then
      CookieTextHead(s.authCookie, tokenPart);
      CookieAuthText(s.authCookie, tokenPart)
    else
      var eu, ep := Base64.EncodeString(s.username), Base64.EncodeString(s.password);
      CredentialTextHead(eu, ep, tokenPart);
      CredentialAuthText(eu, ep, tokenPart)
  }

  /** How every `userAuth` frame begins: the action, then the key of the next member. */
  const UserAuthHead: string := "{\"action\":\"userAuth\",\""

  function TokenPart(xtoken: string): string {
    if xtoken != "" then ",\"token\":\"" + xtoken + "\"" else ""
  }

  function CookieAuthText(cookie: string, tokenPart: string): string {
    "{\"action\":\"userAuth\",\"auth\":\"" + cookie + "\"" + tokenPart + "}"
  }

  function CredentialAuthText(user: string, password: string, tokenPart: string): string {
    "{\"action\":\"userAuth\",\"username\":\"" + user + "\",\"password\":\"" + password + "\"" + tokenPart + "}"
  }

  /** A cookie frame is the common head, then the `auth` member. */
  lemma CookieTextHead(cookie: string, tokenPart: string)
    ensures var f := CookieAuthText(cookie, tokenPart);
      |UserAuthHead| < |f| && f[..|UserAuthHead|] == UserAuthHead && f[|UserAuthHead|] == 'a' && f[|f| - 1] == '}'
  {
    assert "{\"action\":\"userAuth\",\"auth\":\"" == UserAuthHead + "auth\":\"";
    HeadThen(UserAuthHead, "auth\":\"" + cookie + "\"" + tokenPart + "}");
  }

  /** A credential frame is the common head, then the `username` member. */
  lemma CredentialTextHead(user: string, password: string, tokenPart: string)
    ensures var f := CredentialAuthText(user, password, tokenPart);
      |UserAuthHead| < |f| && f[..|UserAuthHead|] == UserAuthHead && f[|UserAuthHead|] == 'u' && f[|f| - 1] == '}'
  {
    assert "{\"action\":\"userAuth\",\"username\":\"" == UserAuthHead + "username\":\"";
    HeadThen(UserAuthHead, "username\":\"" + user + "\",\"password\":\"" + password + "\"" + tokenPart + "}");
  }

  lemma HeadThen(head: string, rest: string)
    requires |rest| > 0
    ensures var f := head + rest;
      |head| < |f| && f[..|head|] == head && f[|head|] == rest[0] && f[|f| - 1] == rest[|rest| - 1]
  {
  }

  /** The members of the `userAuth` frame, as a list of fields. */
  function UserAuthFields(s: Settings): seq<(string, string)> {
    [("action", "userAuth")]
      + (if s.authCookie != "" then [("auth", s.authCookie)]
         else [("username", Base64.EncodeString(s.username)), ("password", Base64.EncodeString(s.password))])
      + TokenField(ResolveToken(s.emailToken, s.smsToken, s.token))
  }

  /**
   * The frame is the JSON object of its fields: the client's hand-built text
   * and the field list agree.
   */
  lemma UserAuthFrameIsObject(s: Settings)
    ensures UserAuthFrame(s) == JsonObject(UserAuthFields(s))
  {
    var xtoken := ResolveToken(s.emailToken, s.smsToken, s.token);
    if s.authCookie != "" {
      CookieObject(s.authCookie, xtoken);
    } else {
      var eu, ep := Base64.EncodeString(s.username), Base64.EncodeString(s.password);
      assert UserAuthFields(s) == [("action", "userAuth"), ("username", eu), ("password", ep)] + TokenField(xtoken);
      CredentialObject(eu, ep, xtoken);
    }
  }

  lemma CookieObject(cookie: string, xtoken: string)
    ensures CookieAuthText(cookie, TokenPart(xtoken))
         == JsonObject([("action", "userAuth")] + [("auth", cookie)] + TokenField(xtoken))
  {
    assert TokenPart(xtoken) == TailText(TokenField(xtoken)) by {
      if xtoken != "" {
        TokenMember(xtoken);
      }
    }
    CookieFrame(cookie, TokenPart(xtoken));
    ObjectOfTwo(("action", "userAuth"), ("auth", cookie), TokenField(xtoken));
  }

  lemma CredentialObject(user: string, password: string, xtoken: string)
    ensures CredentialAuthText(user, password, TokenPart(xtoken))
         == JsonObject([("action", "userAuth"), ("username", user), ("password", password)] + TokenField(xtoken))
  {
    assert TokenPart(xtoken) == TailText(TokenField(xtoken)) by {
      if xtoken != "" {
        TokenMember(xtoken);
      }
    }
    CredentialFrame(user, password, TokenPart(xtoken));
    ObjectOfThree(("action", "userAuth"), ("username", user), ("password", password), TokenField(xtoken));
  }

  function TokenField(xtoken: string): seq<(string, string)> {
    if xtoken != "" then [("token", xtoken)] else []
  }

  function TailText(tail: seq<(string, string)>): string {
    if tail == [] then "" else "," + Member(tail[0])
  }

  lemma TokenMember(xtoken: string)
    ensures ",\"token\":\"" + xtoken + "\"" == "," + Member(("token", xtoken))
  {
    assert ",\"token\":\"" == "," + "\"" + "token" + "\":\"";
  }

  /**
   * The frame authenticates with the cookie when one is set and with the
   * base 64 credentials otherwise, and it has a token member exactly when a
   * one-time token is in play.
   */
  lemma UserAuthKeys(s: Settings)
    ensures var keys := Keys(UserAuthFields(s));
      keys[0] == "action" &&
      ("auth" in keys <==> s.authCookie != "") &&
      ("username" in keys <==> s.authCookie == "") &&
      ("password" in keys <==> s.authCookie == "") &&
      ("token" in keys <==> s.emailToken || s.smsToken || s.token != "")
  {
    var xtoken := ResolveToken(s.emailToken, s.smsToken, s.token);
    var tail := TokenField(xtoken);
    var head := if s.authCookie != "" then [("auth", s.authCookie)]
                else [("username", Base64.EncodeString(s.username)), ("password", Base64.EncodeString(s.password))];
    assert UserAuthFields(s) == [("action", "userAuth")] + head + tail;
    KeysOf(("action", "userAuth"), head, tail);
    TokenKeys(xtoken);
    if s.authCookie != "" {
      CookieKeys(s.authCookie, Keys(tail));
    } else {
      CredentialKeys(Base64.EncodeString(s.username), Base64.EncodeString(s.password), Keys(tail));
    }
  }

  lemma TokenKeys(xtoken: string)
    ensures Keys(TokenField(xtoken)) == if xtoken != "" then ["token"] else []
  {
    if xtoken != "" {
      assert TokenField(xtoken)[1..] == [];
    }
  }

  /** The keys of a cookie login: `action`, `auth`, then the token keys. */
  lemma CookieKeys(cookie: string, tokenKeys: seq<string>)
    requires tokenKeys == [] || tokenKeys == ["token"]
    ensures var keys := ["action"] + Keys([("auth", cookie)]) + tokenKeys;
      keys[0] == "action" && "auth" in keys && "username" !in keys && "password" !in keys &&
      ("token" in keys <==> tokenKeys != [])
  {
    assert [("auth", cookie)][1..] == [];
    var keys := ["action", "auth"] + tokenKeys;
    assert ["action"] + Keys([("auth", cookie)]) + tokenKeys == keys;
    assert keys[1] == "auth";
    if tokenKeys != [] {
      assert keys[2] == "token";
    }
  }

  /** The keys of a credential login: `action`, `username`, `password`, then the token keys. */
  lemma CredentialKeys(user: string, password: string, tokenKeys: seq<string>)
    requires tokenKeys == [] || tokenKeys == ["token"]
    ensures var keys := ["action"] + Keys([("username", user), ("password", password)]) + tokenKeys;
      keys[0] == "action" && "auth" !in keys && "username" in keys && "password" in keys &&
      ("token" in keys <==> tokenKeys != [])
  {
    var fields := [("username", user), ("password", password)];
    assert fields[1..] == [("password", password)] && fields[1..][1..] == [];
    assert Keys(fields[1..]) == ["password"];
    assert Keys(fields) == ["username", "password"];
    var keys := ["action", "username", "password"] + tokenKeys;
    assert ["action"] + Keys(fields) + tokenKeys == keys;
    assert keys[1] == "username" && keys[2] == "password";
    if tokenKeys != [] {
      assert keys[3] == "token";
    }
  }

  lemma CookieFrame(cookie: string, tokenPart: string)
    ensures CookieAuthText(cookie, tokenPart)
         == "{" + Member(("action", "userAuth")) + "," + Member(("auth", cookie)) + tokenPart + "}"
  {
    assert "{\"action\":\"userAuth\",\"auth\":\"" == "{" + Member(("action", "userAuth")) + "," + "\"" + "auth" + "\":\"";
    Regroup5("{\"action\":\"userAuth\",\"auth\":\"", "{" + Member(("action", "userAuth")) + ",", "\"" + "auth" + "\":\"",
             cookie, "\"", tokenPart, "}");
  }

  lemma CredentialFrame(user: string, password: string, tokenPart: string)
    ensures CredentialAuthText(user, password, tokenPart)
         == "{" + Member(("action", "userAuth")) + "," + Member(("username", user)) + ","
              + Member(("password", password)) + tokenPart + "}"
  {
    UsernamePrefix();
    PasswordInfix();
    Regroup9("{\"action\":\"userAuth\",\"username\":\"", "{" + Member(("action", "userAuth")) + ",", "\"" + "username" + "\":\"", user,
             "\",\"password\":\"", "\"", "\"" + "password" + "\":\"", password, tokenPart);
  }

  lemma UsernamePrefix()
    ensures "{\"action\":\"userAuth\",\"username\":\"" == "{" + Member(("action", "userAuth")) + "," + "\"" + "username" + "\":\""
  {
  }

  lemma PasswordInfix()
    ensures "\",\"password\":\"" == "\"" + "," + "\"" + "password" + "\":\""
  {
  }

  lemma Regroup5(a: string, h: string, k: string, c: string, d: string, e: string, f: string)
    requires a == h + k
    ensures a + c + d + e + f == h + (k + c + d) + e + f
  {
  }

  lemma Regroup9(l1: string, h: string, k1: string, user: string, l2: string, q: string, k2: string, pw: string, t: string)
    requires l1 == h + k1 && l2 == q + "," + k2
    ensures l1 + user + l2 + pw + q + t + "}" == h + (k1 + user + q) + "," + (k2 + pw + q) + t + "}"
  {
  }

  /** The JSON object of two fields and an optional last one. */
  lemma ObjectOfTwo(a: (string, string), b: (string, string), tail: seq<(string, string)>)
    requires |tail| <= 1
    ensures JsonObject([a] + [b] + tail) == "{" + Member(a) + "," + Member(b) + TailText(tail) + "}"
  {
    var fs := [a] + [b] + tail;
    MembersOf(fs);
    if tail == [] {
      assert Members(fs) == [Member(a), Member(b)];
      JoinTwo(Member(a), Member(b), ',');
    } else {
      assert Members(fs) == [Member(a), Member(b), Member(tail[0])];
      JoinThree(Member(a), Member(b), Member(tail[0]), ',');
    }
  }

  /** The JSON object of three fields and an optional last one. */
  lemma ObjectOfThree(a: (string, string), b: (string, string), c: (string, string), tail: seq<(string, string)>)
    requires |tail| <= 1
    ensures JsonObject([a, b, c] + tail) == "{" + Member(a) + "," + Member(b) + "," + Member(c) + TailText(tail) + "}"
  {
    var fs := [a, b, c] + tail;
    MembersOf(fs);
    if tail == [] {
      assert Members(fs) == [Member(a), Member(b), Member(c)];
      JoinThree(Member(a), Member(b), Member(c), ',');
    } else {
      assert Members(fs) == [Member(a), Member(b), Member(c), Member(tail[0])];
      JoinFour(Member(a), Member(b), Member(c), Member(tail[0]), ',');
    }
  }

  lemma {:induction false} MembersOf(fields: seq<(string, string)>)
    ensures |Members(fields)| == |fields|
    ensures forall i :: 0 <= i < |fields| ==> Members(fields)[i] == Member(fields[i])
  {
    if fields != [] {
      MembersOf(fields[1..]);
    }
  }

  lemma JoinFour(a: string, b: string, c: string, d: string, sep: char)
    ensures Join([a, b, c, d], sep) == a + [sep] + b + [sep] + c + [sep] + d
  {
    assert [a, b, c, d][1..] == [b, c, d];
    JoinThree(b, c, d, sep);
  }

  lemma {:induction false} KeysAppend(f: seq<(string, string)>, g: seq<(string, string)>)
    ensures Keys(f + g) == Keys(f) + Keys(g)
  {
    if f == [] {
      assert f + g == g;
    } else {
      assert (f + g)[0] == f[0];
      assert (f + g)[1..] == f[1..] + g;
      KeysAppend(f[1..], g);
    }
  }

  lemma KeysOf(a: (string, string), head: seq<(string, string)>, tail: seq<(string, string)>)
    ensures Keys([a] + head + tail) == [a.0] + Keys(head) + Keys(tail)
  {
    KeysAppend([a] + head, tail);
    KeysAppend([a], head);
  }

  // ---------------------------------------------------------------------
  // The tunnel URL
  // ---------------------------------------------------------------------

  /**
   * The URL dialed for each accepted TCP client: the relay URL (not the
   * control URL) with the cookie, node id and remote port, and the remote
   * address appended only when one is set.
   */
  function TunnelUrl(s: Settings): (u: string)
    ensures |s.serverUrl| < |u| && u[..|s.serverUrl|] == s.serverUrl && u[|s.serverUrl|] == '?'
  {
    s.serverUrl + "?auth=" + s.aCookie + "&nodeid=" + s.remoteNodeId + "&tcpport=" + IntToDecimal(s.remotePort)
      + (if s.remoteTarget != "" then "&tcpaddr=" + s.remoteTarget else "")
  }

  /** The parameters of the tunnel query, in order. */
  function TunnelQuery(s: Settings): (q: seq<(string, string)>)
    ensures |q| == 3 || |q| == 4
    ensures |q| == 4 <==> s.remoteTarget != ""
    ensures q[0] == ("auth", s.aCookie) && q[1] == ("nodeid", s.remoteNodeId) && q[2].0 == "tcpport"
    ensures 0 <= s.remotePort <= MaxInt ==> AllDigits(q[2].1) && Atoi(q[2].1) == s.remotePort
  {
    var q := [("auth", s.aCookie), ("nodeid", s.remoteNodeId), ("tcpport", IntToDecimal(s.remotePort))]
      + (if s.remoteTarget != "" then [("tcpaddr", s.remoteTarget)] else []);
    if 0 <= s.remotePort <= MaxInt then AtoiOfDecimal(s.remotePort); q else q
  }

  function PairTexts(pairs: seq<(string, string)>): seq<string> {
    if pairs == [] then [] else [pairs[0].0 + "=" + pairs[0].1] + PairTexts(pairs[1..])
  }

  /** A query string: `key=value` pairs joined by '&', nothing escaped. */
  function RenderQuery(pairs: seq<(string, string)>): string {
    Join(PairTexts(pairs), '&')
  }

  /** One `key=value` piece: the key ends at the first '='; a piece without one has an empty value. */
  function ParsePair(t: string): (string, string) {
    var parts := Split(t, '=');
    (parts[0], Join(parts[1..], '='))
  }

  function ParsePairs(texts: seq<string>): seq<(string, string)> {
    if texts == [] then [] else [ParsePair(texts[0])] + ParsePairs(texts[1..])
  }

  /** The reading of a query string a server applies: split at '&', then each piece at its first '='. */
  function ParseQuery(q: string): seq<(string, string)> {
    ParsePairs(Split(q, '&'))
  }

  /** A pair whose key holds no '=' reads back as itself. */
  lemma ParsePairOf(k: string, v: string)
    requires '=' !in k
    ensures ParsePair(k + "=" + v) == (k, v)
  {
    SplitPrefix(k, "=" + v, '=');
    assert k + "=" + v == k + ("=" + v);
    assert ("=" + v)[0] == '=' && ("=" + v)[1..] == v;
    assert Split("=" + v, '=') == [""] + Split(v, '=');
    assert k + "" == k;
    assert Split(k + "=" + v, '=') == [k] + Split(v, '=');
    assert Split(k + "=" + v, '=')[1..] == Split(v, '=');
    JoinSplit(v, '=');
  }

  /** Query pieces are free of '&' when keys and values are. */
  lemma {:induction false} PairTextsOf(pairs: seq<(string, string)>)
    requires forall i :: 0 <= i < |pairs| ==> '=' !in pairs[i].0 && '&' !in pairs[i].0 && '&' !in pairs[i].1
    ensures |PairTexts(pairs)| == |pairs|
    ensures forall i :: 0 <= i < |pairs| ==> '&' !in PairTexts(pairs)[i]
    ensures ParsePairs(PairTexts(pairs)) == pairs
  {
    if pairs != [] {
      PairTextsOf(pairs[1..]);
      ParsePairOf(pairs[0].0, pairs[0].1);
      var t := PairTexts(pairs);
      assert t == [pairs[0].0 + "=" + pairs[0].1] + PairTexts(pairs[1..]);
      assert ParsePairs(t) == [ParsePair(t[0])] + ParsePairs(t[1..]);
      assert t[1..] == PairTexts(pairs[1..]);
    }
  }

  /**
   * A query reads back as the pairs it was rendered from, when no key holds
   * '=' or '&' and no value holds '&'.
   */
  lemma QueryRoundTrip(pairs: seq<(string, string)>)
    requires |pairs| >= 1
    requires forall i :: 0 <= i < |pairs| ==> '=' !in pairs[i].0 && '&' !in pairs[i].0 && '&' !in pairs[i].1
    ensures ParseQuery(RenderQuery(pairs)) == pairs
  {
    PairTextsOf(pairs);
    SplitJoin(PairTexts(pairs), '&');
  }

  /** The tunnel URL is the relay URL followed by the rendered tunnel query. */
  lemma TunnelUrlQuery(s: Settings)
    ensures TunnelUrl(s) == s.serverUrl + "?" + RenderQuery(TunnelQuery(s))
  {
    var port := IntToDecimal(s.remotePort);
    var a, n, t := "auth=" + s.aCookie, "nodeid=" + s.remoteNodeId, "tcpport=" + port;
    var x := "tcpaddr=" + s.remoteTarget;
    TunnelTexts(s);
    if s.remoteTarget != "" {
      assert PairTexts(TunnelQuery(s)) == [a, n, t, x];
      JoinFour(a, n, t, x, '&');
    } else {
      assert PairTexts(TunnelQuery(s)) == [a, n, t];
      JoinThree(a, n, t, '&');
    }
    TunnelGlue(s.serverUrl, s.aCookie, s.remoteNodeId, port, s.remoteTarget);
  }

  /**
   * When the cookie, node id and target hold no '&', a server reads back
   * exactly the tunnel parameters, the port as its decimal spelling.
   */
  lemma TunnelQueryReadsBack(s: Settings)
    requires '&' !in s.aCookie && '&' !in s.remoteNodeId && '&' !in s.remoteTarget
    ensures ParseQuery(RenderQuery(TunnelQuery(s))) == TunnelQuery(s)
  {
    DecimalSpelling(s.remotePort);
    assert '&' !in IntToDecimal(s.remotePort);
    QueryRoundTrip(TunnelQuery(s));
  }

  lemma TunnelTexts(s: Settings)
    ensures PairTexts(TunnelQuery(s))
         == ["auth=" + s.aCookie, "nodeid=" + s.remoteNodeId, "tcpport=" + IntToDecimal(s.remotePort)]
            + (if s.remoteTarget != "" then ["tcpaddr=" + s.remoteTarget] else [])
  {
    var q := TunnelQuery(s);
    PairTextsAt(q);
    assert "auth" + "=" + s.aCookie == "auth=" + s.aCookie;
    assert "nodeid" + "=" + s.remoteNodeId == "nodeid=" + s.remoteNodeId;
    assert "tcpport" + "=" + IntToDecimal(s.remotePort) == "tcpport=" + IntToDecimal(s.remotePort);
    assert "tcpaddr" + "=" + s.remoteTarget == "tcpaddr=" + s.remoteTarget;
  }

  lemma {:induction false} PairTextsAt(pairs: seq<(string, string)>)
    ensures |PairTexts(pairs)| == |pairs|
    ensures forall i :: 0 <= i < |pairs| ==> PairTexts(pairs)[i] == pairs[i].0 + "=" + pairs[i].1
  {
    if pairs != [] {
      PairTextsAt(pairs[1..]);
    }
  }

  lemma TunnelGlue(u: string, a: string, n: string, p: string, t: string)
    ensures u + "?auth=" + a + "&nodeid=" + n + "&tcpport=" + p + (if t != "" then "&tcpaddr=" + t else "")
         == u + "?" + (if t != "" then ("auth=" + a) + ['&'] + ("nodeid=" + n) + ['&'] + ("tcpport=" + p) + ['&'] + ("tcpaddr=" + t)
                       else ("auth=" + a) + ['&'] + ("nodeid=" + n) + ['&'] + ("tcpport=" + p))
  {
    var q := ("auth=" + a) + ['&'] + ("nodeid=" + n) + ['&'] + ("tcpport=" + p);
    TunnelPrefix(u, a, n, p);
    if t != "" {
      assert "&tcpaddr=" == ['&'] + "tcpaddr=";
      assert u + "?" + q + ("&tcpaddr=" + t) == u + "?" + (q + ['&'] + ("tcpaddr=" + t));
    } else {
      assert u + "?" + q + "" == u + "?" + q;
    }
  }

  lemma TunnelPrefix(u: string, a: string, n: string, p: string)
    ensures u + "?auth=" + a + "&nodeid=" + n + "&tcpport=" + p
         == u + "?" + (("auth=" + a) + ['&'] + ("nodeid=" + n) + ['&'] + ("tcpport=" + p))
  {
    assert "?auth=" == "?" + "auth=";
    assert "&nodeid=" == ['&'] + "nodeid=";
    assert "&tcpport=" == ['&'] + "tcpport=";
  }

  // ---------------------------------------------------------------------
  // Commands and their transitions
  // ---------------------------------------------------------------------

  /** How handling a command ends: carry on, exit the process with a message, or a failed type assertion. */
  datatype Outcome = Continue | Exit(code: int, message: string) | Panic(reason: string)

  /** How every message about a missing one-time token begins. */
  const LoginToken: string := "Login token"

  /** The line printed before exiting on a `noauth` close, chosen by `msg` and the 2FA flags. */
  function NoAuthMessage(msg: Option<string>, email2fa: bool, sms2fa: bool, email2faSent: bool): (m: string)
    ensures |LoginToken| <= |m| && (m[..|LoginToken|] == LoginToken <==> msg == Some("tokenrequired"))
  {
    if msg == Some("tokenrequired") then
      var advice := TokenAdvice(email2fa, sms2fa, email2faSent);
      assert (LoginToken + advice)[..|LoginToken|] == LoginToken;
      LoginToken + advice
    else
      var reason := InvalidReason(msg);
      assert ("Invalid " + reason)[0] != LoginToken[0];
      "Invalid " + reason
  }

  /** The rest of a missing-token message: which 2FA options the account offers. */
  function TokenAdvice(email2fa: bool, sms2fa: bool, email2faSent: bool): string {
    if email2faSent then " email sent."
    else if email2fa && sms2fa then " required, use --token [token], or --emailtoken, --smstoken get a token."
    else if sms2fa then " required, use --token [token], or --smstoken get a token."
    else if email2fa then " required, use --token [token], or --emailtoken get a token."
    else " required, use --token [token]."
  }

  /** What a rejected login names as invalid. */
  function InvalidReason(msg: Option<string>): string {
    if msg == Some("badtlscert") then "TLS certificate detected."
    else if msg == Some("badargs") then "protocol arguments."
    else "username/password."
  }

  /**
   * A `close` command: the process exits with status 1 exactly when the cause
   * is "noauth"; any other close is only logged.
   */
  function CloseOutcome(cause: Option<string>, msg: Option<string>, email2fa: bool, sms2fa: bool,
                        email2faSent: bool): (o: Outcome)
    ensures o.Exit? <==> cause == Some("noauth")
    ensures o.Exit? ==> o.code == 1 && o.message == NoAuthMessage(msg, email2fa, sms2fa, email2faSent)
    ensures !o.Exit? ==> o == Continue
  {
    if cause == Some("noauth") then Exit(1, NoAuthMessage(msg, email2fa, sms2fa, email2faSent))
    else Continue
  }

  /**
   * A control-channel message after JSON decoding. A field that is absent or
   * of the wrong JSON type is None; `Malformed` is a message that is not JSON
   * and `Unknown` one whose action the client does not handle.
   */
  datatype Command =
    | Malformed
    | ServerInfo
    | AuthCookie(cookie: Option<string>, rcookie: Option<string>)
    | ServerAuth
    | Close(cause: Option<string>, msg: Option<string>, email2fa: bool, sms2fa: bool, email2faSent: bool)
    | Nodes(groups: Option<seq<NodeGroup>>)
    | Unknown

  /** What the control connection's reader sees next: a message, a read error, or a renewal timer firing. */
  datatype Event = Message(cmd: Command) | ReadError(normalClose: bool) | RenewalTimer

  /** The session after one step, the text frames it wrote, and how it ended. */
  datatype Transition = Transition(settings: Settings, frames: seq<string>, outcome: Outcome)

  /** The login, tunnel and listener settings, which no handler changes, agree. */
  predicate KeepsConfig(s: Settings, s': Settings) {
    s'.serverUrl == s.serverUrl && s'.username == s.username && s'.password == s.password &&
    s'.token == s.token && s'.emailToken == s.emailToken && s'.smsToken == s.smsToken &&
    s'.authCookie == s.authCookie && s'.loginKey == s.loginKey && s'.connected == s.connected &&
    s'.localPort == s.localPort && s'.remotePort == s.remotePort && s'.remoteTarget == s.remoteTarget &&
    s'.remoteNodeId == s.remoteNodeId && s'.serverAuthClientNonce == s.serverAuthClientNonce &&
    s'.debug == s.debug
  }

  /**
   * The handler the reader loop dispatches a decoded message to. No handler
   * writes more than one frame or touches the login, tunnel or listener
   * settings; only `close` exits, only the two type-asserting handlers panic,
   * and only a `nodes` response replaces the device list.
   */
  function Handle(s: Settings, cmd: Command): (t: Transition)
    ensures |t.frames| <= 1
    ensures t.outcome.Exit? ==> cmd.Close?
    ensures t.outcome.Panic? ==> (cmd.AuthCookie? || cmd.Nodes?) && t.frames == []
    ensures t.settings.devices != s.devices ==> cmd.Nodes? && t.outcome == Continue
    ensures t.settings.renewTimers <= s.renewTimers + 1
    ensures KeepsConfig(s, t.settings)
  {
    match cmd
    case Malformed => Transition(s, [], Continue)
    case Unknown => Transition(s, [], Continue)
    case ServerInfo => Transition(s, [AuthCookieRequest], Continue)
    case AuthCookie(cookie, rcookie) =>
      if cookie.None? then Transition(s, [], Panic("cookie is not a string"))
      else
        var s1 := s.(aCookie := cookie.value);
        if rcookie.None? then Transition(s1, [], Panic("rcookie is not a string"))
        else
          var timers := if s.aCookie == "" then s.renewTimers + 1 else s.renewTimers;
          Transition(s1.(rCookie := rcookie.value, renewTimers := timers), [], Continue)
    case ServerAuth =>
      var s1 := s.(serverId := "", serverHttpsHash := s.meshServerTlsHash, meshServerTlsHash := "");
      Transition(s1, [UserAuthFrame(s1)], Continue)
    case Close(cause, msg, email2fa, sms2fa, email2faSent) =>
      Transition(s, [], CloseOutcome(cause, msg, email2fa, sms2fa, email2faSent))
    case Nodes(groups) =>
      if groups.None? then Transition(s, [], Panic("nodes is not an object of lists"))
      else
        match Flatten(groups.value)
        case None => Transition(s, [], Panic("a node record lacks _id, rname or icon"))
        case Some(devices) => Transition(s.(devices := devices, deviceQueryState := Idle), [], Continue)
  }

  /**
   * One renewal timer fires: an armed timer asks for a fresh cookie once and
   * is spent, so the timers spent always equal the requests sent.
   */
  function Fire(s: Settings): (t: Transition)
    ensures t.outcome == Continue && t.settings == s.(renewTimers := t.settings.renewTimers)
    ensures t.settings.renewTimers + |t.frames| == s.renewTimers
    ensures t.frames != [] <==> s.renewTimers > 0
    ensures t.frames == [] || t.frames == [AuthCookieRequest]
  {
    if s.renewTimers == 0 then Transition(s, [], Continue)
    else Transition(s.(renewTimers := s.renewTimers - 1), [AuthCookieRequest], Continue)
  }

  /**
   * One event of the reader loop: a message goes to its handler and a timer
   * firing renews the cookie. A firing never ends the session or touches the
   * device list.
   */
  function Step(s: Settings, e: Event): (t: Transition)
    requires !e.ReadError?
    ensures |t.frames| <= 1
    ensures e.RenewalTimer? ==> t.outcome == Continue && t.settings.devices == s.devices
    ensures t.settings.devices != s.devices ==> e.Message? && e.cmd.Nodes?
  {
    match e
    case Message(cmd) => Handle(s, cmd)
    case RenewalTimer => Fire(s)
  }

  /** Why a run of the reader stopped. */
  datatype Stop =
    | Exhausted                    // every event was handled and the reader waits for more
    | ReadEnded(normalClose: bool) // a read failed; the reader returns
    | Terminated(outcome: Outcome) // a handler exited or panicked
    | Answered                     // a poller waiting on a device query saw it answered

  /**
   * The session after a run, the frames written, how many of them a renewal
   * timer wrote, why the run stopped and how many events it consumed.
   */
  datatype RunResult = RunResult(settings: Settings, frames: seq<string>, renewals: nat, stop: Stop, consumed: nat)

  /**
   * The reader loop over a sequence of events. With `untilAnswered` the run
   * also stops as soon as the device query state leaves Pending, which is
   * what a poller waiting in GetDevices observes.
   */
  function Run(s: Settings, events: seq<Event>, untilAnswered: bool): (r: RunResult)
    ensures r.consumed <= |events|
    ensures r.stop == Exhausted ==> r.consumed == |events|
    decreases |events|
  {
    if events == [] then RunResult(s, [], 0, Exhausted, 0)
    else if events[0].ReadError? then RunResult(s, [], 0, ReadEnded(events[0].normalClose), 1)
    else
      var t := Step(s, events[0]);
      var renewal := if events[0].RenewalTimer? && s.renewTimers > 0 then 1 else 0;
      if !t.outcome.Continue? then RunResult(t.settings, t.frames, renewal, Terminated(t.outcome), 1)
      else if untilAnswered && t.settings.deviceQueryState != Pending then
        RunResult(t.settings, t.frames, renewal, Answered, 1)
      else
        var r := Run(t.settings, events[1..], untilAnswered);
        RunResult(r.settings, t.frames + r.frames, renewal + r.renewals, r.stop, r.consumed + 1)
  }

  /** One step of a run, for a first event that is not a read error. */
  lemma RunCons(s: Settings, events: seq<Event>, untilAnswered: bool)
    requires events != [] && !events[0].ReadError?
    ensures var t, r := Step(s, events[0]), Run(s, events, untilAnswered);
      if !t.outcome.Continue? then
        r.settings == t.settings && r.frames == t.frames && r.stop == Terminated(t.outcome) && r.consumed == 1
      else if untilAnswered && t.settings.deviceQueryState != Pending then
        r.settings == t.settings && r.frames == t.frames && r.stop == Answered && r.consumed == 1
      else
        var r1 := Run(t.settings, events[1..], untilAnswered);
        r.settings == r1.settings && r.frames == t.frames + r1.frames && r.stop == r1.stop && r.consumed == r1.consumed + 1
  {
  }

  /** A run ends by a handler only with an exit or a panic. */
  lemma {:induction false} TerminatedEnds(s: Settings, events: seq<Event>, untilAnswered: bool)
    ensures Run(s, events, untilAnswered).stop.Terminated? ==> !Run(s, events, untilAnswered).stop.outcome.Continue?
    decreases |events|
  {
    if events != [] && !events[0].ReadError? {
      TerminatedEnds(Step(s, events[0]).settings, events[1..], untilAnswered);
    }
  }

  /**
   * A run from `s0` over `events` has reached event `i` in state `s` after
   * sending `out`: the rest of it is the run from `s` over the remaining events.
   */
  ghost predicate Resumes(s0: Settings, events: seq<Event>, untilAnswered: bool, i: nat, out: seq<string>, s: Settings)
    requires i <= |events|
  {
    var r0, r := Run(s0, events, untilAnswered), Run(s, events[i..], untilAnswered);
    r0.settings == r.settings && r0.frames == out + r.frames && r0.stop == r.stop && r0.consumed == i + r.consumed
  }

  /** Handling event `i` either ends the run there or resumes it at event `i + 1`. */
  lemma ResumeStep(s0: Settings, events: seq<Event>, untilAnswered: bool, i: nat, out: seq<string>, s: Settings)
    requires i < |events| && !events[i].ReadError?
    requires Resumes(s0, events, untilAnswered, i, out, s)
    ensures var t, r0 := Step(s, events[i]), Run(s0, events, untilAnswered);
      if !t.outcome.Continue? then
        r0.settings == t.settings && r0.frames == out + t.frames && r0.stop == Terminated(t.outcome) && r0.consumed == i + 1
      else if untilAnswered && t.settings.deviceQueryState != Pending then
        r0.settings == t.settings && r0.frames == out + t.frames && r0.stop == Answered && r0.consumed == i + 1
      else
        Resumes(s0, events, untilAnswered, i + 1, out + t.frames, t.settings)
  {
    var rest := events[i..];
    assert rest[0] == events[i] && rest[1..] == events[i + 1..];
    RunCons(s, rest, untilAnswered);
    var t := Step(s, events[i]);
    if t.outcome.Continue? && !(untilAnswered && t.settings.deviceQueryState != Pending) {
      ResumeGlue(s0, events, untilAnswered, i, out, s, t);
    }
  }

  lemma ResumeGlue(s0: Settings, events: seq<Event>, untilAnswered: bool, i: nat, out: seq<string>, s: Settings, t: Transition)
    requires i < |events|
    requires Resumes(s0, events, untilAnswered, i, out, s)
    requires var r, r1 := Run(s, events[i..], untilAnswered), Run(t.settings, events[i + 1..], untilAnswered);
      r.settings == r1.settings && r.frames == t.frames + r1.frames && r.stop == r1.stop && r.consumed == r1.consumed + 1
    ensures Resumes(s0, events, untilAnswered, i + 1, out + t.frames, t.settings)
  {
    var r1 := Run(t.settings, events[i + 1..], untilAnswered);
    assert out + (t.frames + r1.frames) == out + t.frames + r1.frames;
  }

  /** A read error at event `i` ends the run there. */
  lemma ResumeReadError(s0: Settings, events: seq<Event>, untilAnswered: bool, i: nat, out: seq<string>, s: Settings)
    requires i < |events| && events[i].ReadError?
    requires Resumes(s0, events, untilAnswered, i, out, s)
    ensures var r0 := Run(s0, events, untilAnswered);
      r0.settings == s && r0.frames == out && r0.stop == ReadEnded(events[i].normalClose) && r0.consumed == i + 1
  {
    assert events[i..][0] == events[i];
    assert out + [] == out;
  }

  /** A run that has handled every event has ended. */
  lemma ResumeEnd(s0: Settings, events: seq<Event>, untilAnswered: bool, out: seq<string>, s: Settings)
    requires Resumes(s0, events, untilAnswered, |events|, out, s)
    ensures var r0 := Run(s0, events, untilAnswered);
      r0.settings == s && r0.frames == out && r0.stop == Exhausted && r0.consumed == |events|
  {
    assert events[|events|..] == [];
    assert out + [] == out;
  }

  /** Every run resumes at its start. */
  lemma ResumeStart(s0: Settings, events: seq<Event>, untilAnswered: bool)
    ensures Resumes(s0, events, untilAnswered, 0, [], s0)
  {
    assert events[0..] == events;
  }

  // ---------------------------------------------------------------------
  // Properties of single transitions
  // ---------------------------------------------------------------------

  /**
   * A message that is not JSON and one with an unknown action change nothing
   * and send nothing; `serverinfo` sends exactly one cookie request.
   */
  lemma DispatchBasics(s: Settings)
    ensures Handle(s, Malformed) == Transition(s, [], Continue)
    ensures Handle(s, Unknown) == Transition(s, [], Continue)
    ensures Handle(s, ServerInfo) == Transition(s, [AuthCookieRequest], Continue)
  {
  }

  /**
   * `serverAuth` clears the server id, moves the control certificate hash to
   * the HTTPS hash, and sends exactly one frame: the JSON object of the
   * `userAuth` fields of the session, which no other field of it affects.
   */
  lemma ServerAuthTransition(s: Settings)
    ensures var t := Handle(s, ServerAuth);
      t.outcome == Continue &&
      t.settings == s.(serverId := "", serverHttpsHash := s.meshServerTlsHash, meshServerTlsHash := "") &&
      t.frames == [JsonObject(UserAuthFields(s))]
  {
    var s1 := s.(serverId := "", serverHttpsHash := s.meshServerTlsHash, meshServerTlsHash := "");
    assert UserAuthFields(s1) == UserAuthFields(s);
    UserAuthFrameIsObject(s1);
  }

  /**
   * `authcookie` stores both cookies and arms a renewal timer only when no
   * cookie was held before. A missing `cookie` fails before anything changes;
   * a missing `rcookie` fails after the cookie was stored, without arming.
   */
  lemma AuthCookieTransition(s: Settings, cookie: Option<string>, rcookie: Option<string>)
    ensures var t := Handle(s, AuthCookie(cookie, rcookie));
      t.frames == [] &&
      (cookie.None? ==> t.settings == s && t.outcome.Panic?) &&
      (cookie.Some? && rcookie.None? ==> t.settings == s.(aCookie := cookie.value) && t.outcome.Panic?) &&
      (cookie.Some? && rcookie.Some? ==>
         t.outcome == Continue && t.settings.aCookie == cookie.value && t.settings.rCookie == rcookie.value &&
         t.settings.renewTimers == s.renewTimers + (if s.aCookie == "" then 1 else 0) &&
         t.settings.(aCookie := s.aCookie, rCookie := s.rCookie, renewTimers := s.renewTimers) == s)
  {
  }

  /** A `close` never changes the session and never sends; it exits exactly on "noauth". */
  lemma CloseTransition(s: Settings, cause: Option<string>, msg: Option<string>, email2fa: bool, sms2fa: bool,
                        email2faSent: bool)
    ensures var t := Handle(s, Close(cause, msg, email2fa, sms2fa, email2faSent));
      t.settings == s && t.frames == [] && (t.outcome.Exit? <==> cause == Some("noauth")) && !t.outcome.Panic?
  {
  }

  /**
   * A `nodes` response succeeds exactly when it is well formed and every
   * record has its required fields. It then replaces the device list with the
   * flattening of the groups (one device per record, see FlattenAt), sets the
   * query state to Idle and changes nothing else; otherwise it changes nothing.
   */
  lemma NodesTransition(s: Settings, groups: Option<seq<NodeGroup>>)
    ensures var t := Handle(s, Nodes(groups));
      t.frames == [] &&
      (t.outcome == Continue <==> groups.Some? && AllComplete(groups.value)) &&
      (t.outcome != Continue ==> t.settings == s && t.outcome.Panic?) &&
      (t.outcome == Continue ==>
         t.settings == s.(devices := t.settings.devices, deviceQueryState := Idle) &&
         Flatten(groups.value) == Some(t.settings.devices) &&
         |t.settings.devices| == TotalRecords(groups.value))
  {
    if groups.Some? {
      FlattenDefinedIff(groups.value);
    }
  }

  /** Every event other than a `nodes` response leaves the query state and the device list alone. */
  lemma StepKeepsDirectory(s: Settings, e: Event)
    requires !e.ReadError? && !(e.Message? && e.cmd.Nodes?)
    ensures Step(s, e).settings.deviceQueryState == s.deviceQueryState
    ensures Step(s, e).settings.devices == s.devices
  {
  }

  // ---------------------------------------------------------------------
  // Properties of runs
  // ---------------------------------------------------------------------

  /** A read error ends the reader at once, with nothing changed and nothing sent. */
  lemma ReadErrorEndsRun(s: Settings, normalClose: bool, rest: seq<Event>, untilAnswered: bool)
    ensures Run(s, [ReadError(normalClose)] + rest, untilAnswered) == RunResult(s, [], 0, ReadEnded(normalClose), 1)
  {
  }

  /** Every `authcookie` message in the run that carries a cookie carries a non-empty one. */
  predicate CookiesNonEmpty(events: seq<Event>) {
    forall i :: 0 <= i < |events| && events[i].Message? && events[i].cmd.AuthCookie? ==>
      events[i].cmd.cookie != Some("")
  }

  /** Renewal requests still to come: armed timers, plus the one the first cookie will arm. */
  function Potential(s: Settings): nat {
    s.renewTimers + (if s.aCookie == "" then 1 else 0)
  }

  lemma StepPotential(s: Settings, e: Event)
    requires !e.ReadError?
    requires e.Message? && e.cmd.AuthCookie? ==> e.cmd.cookie != Some("")
    ensures (if e.RenewalTimer? && s.renewTimers > 0 then 1 else 0) + Potential(Step(s, e).settings) <= Potential(s)
  {
    if e.Message? && !e.cmd.AuthCookie? {
      HandleKeepsTimers(s, e.cmd);
    }
  }

  /** Only `authcookie` touches the timers or the cookie. */
  lemma HandleKeepsTimers(s: Settings, cmd: Command)
    requires !cmd.AuthCookie?
    ensures Handle(s, cmd).settings.renewTimers == s.renewTimers
    ensures Handle(s, cmd).settings.aCookie == s.aCookie
  {
    if cmd.ServerAuth? {
      var s1 := s.(serverId := "", serverHttpsHash := s.meshServerTlsHash, meshServerTlsHash := "");
      assert Handle(s, cmd) == Transition(s1, [UserAuthFrame(s1)], Continue);
    }
  }

  /**
   * While no server sends an empty cookie, the timers of a run send at most
   * as many renewal requests as are armed or still to be armed.
   */
  lemma {:induction false} RenewalsBounded(s: Settings, events: seq<Event>, untilAnswered: bool)
    requires CookiesNonEmpty(events)
    ensures Run(s, events, untilAnswered).renewals <= Potential(s)
    decreases |events|
  {
    if events != [] && !events[0].ReadError? {
      StepPotential(s, events[0]);
      var t := Step(s, events[0]);
      assert CookiesNonEmpty(events[1..]) by {
        forall i | 0 <= i < |events[1..]| && events[1..][i].Message? && events[1..][i].cmd.AuthCookie?
          ensures events[1..][i].cmd.cookie != Some("")
        {
          assert events[1..][i] == events[i + 1];
        }
      }
      RenewalsBounded(t.settings, events[1..], untilAnswered);
    }
  }

  /**
   * The renewal timer is one-shot: a session that starts without a cookie
   * sends at most one timer-driven renewal request, however many cookies
   * arrive, as long as none is empty.
   */
  lemma AtMostOneRenewal(s: Settings, events: seq<Event>, untilAnswered: bool)
    requires s.aCookie == "" && s.renewTimers == 0
    requires CookiesNonEmpty(events)
    ensures Run(s, events, untilAnswered).renewals <= 1
  {
    RenewalsBounded(s, events, untilAnswered);
  }

  /**
   * An empty cookie leaves the session looking cookie-less, so every
   * `authcookie` that brings one arms another timer: k empty cookies followed
   * by as many firings as there are armed timers give one renewal per timer.
   */
  lemma {:induction false} EmptyCookieRearms(s: Settings, rcookie: string, k: nat)
    requires s.aCookie == ""
    ensures var events := Repeat(Message(AuthCookie(Some(""), Some(rcookie))), k) + Repeat(RenewalTimer, s.renewTimers + k);
      Run(s, events, false).renewals == s.renewTimers + k
    decreases k
  {
    var empty := Message(AuthCookie(Some(""), Some(rcookie)));
    var events := Repeat(empty, k) + Repeat(RenewalTimer, s.renewTimers + k);
    if k == 0 {
      assert events == Repeat(RenewalTimer, s.renewTimers);
      TimersFire(s, events);
    } else {
      EmptyCookieStep(s, rcookie);
      var s' := s.(rCookie := rcookie, renewTimers := s.renewTimers + 1);
      assert events == [empty] + (Repeat(empty, k - 1) + Repeat(RenewalTimer, s'.renewTimers + (k - 1)));
      RenewalsCons(s, events);
      assert events[1..] == Repeat(empty, k - 1) + Repeat(RenewalTimer, s'.renewTimers + (k - 1));
      EmptyCookieRearms(s', rcookie, k - 1);
    }
  }

  /** `n` copies of `x`. */
  function Repeat<T>(x: T, n: nat): (r: seq<T>)
    ensures |r| == n && forall i :: 0 <= i < n ==> r[i] == x
  {
    if n == 0 then [] else [x] + Repeat(x, n - 1)
  }

  /** As many armed timers as there are timer firings: every firing is a renewal. */
  lemma {:induction false} TimersFire(s: Settings, events: seq<Event>)
    requires s.renewTimers == |events|
    requires forall i :: 0 <= i < |events| ==> events[i] == RenewalTimer
    ensures Run(s, events, false).renewals == |events|
    decreases |events|
  {
    if events != [] {
      FireStep(s);
      RenewalsCons(s, events);
      assert forall i :: 0 <= i < |events[1..]| ==> events[1..][i] == events[i + 1];
      TimersFire(s.(renewTimers := s.renewTimers - 1), events[1..]);
    }
  }

  /** An empty cookie stores the refresh cookie and arms a timer when no cookie is held. */
  lemma EmptyCookieStep(s: Settings, rcookie: string)
    requires s.aCookie == ""
    ensures var t := Step(s, Message(AuthCookie(Some(""), Some(rcookie))));
      t.settings == s.(rCookie := rcookie, renewTimers := s.renewTimers + 1) && t.outcome.Continue?
  {
  }

  /** An armed timer fires once and disarms. */
  lemma FireStep(s: Settings)
    requires s.renewTimers > 0
    ensures var t := Step(s, RenewalTimer);
      t.settings == s.(renewTimers := s.renewTimers - 1) && t.outcome.Continue?
  {
  }

  /** The renewals of a run that goes on past its first event. */
  lemma RenewalsCons(s: Settings, events: seq<Event>)
    requires events != [] && !events[0].ReadError? && Step(s, events[0]).outcome.Continue?
    ensures Run(s, events, false).renewals
         == (if events[0].RenewalTimer? && s.renewTimers > 0 then 1 else 0) + Run(Step(s, events[0]).settings, events[1..], false).renewals
  {
  }

  /**
   * A poller that set the query state to Pending is answered only by a
   * successful `nodes` response: the last event consumed is that response,
   * the device list is its flattening, and the state is Idle again.
   */
  lemma {:induction false} AnswerIsLatestNodes(s: Settings, events: seq<Event>)
    requires s.deviceQueryState == Pending
    ensures AnsweredByNodes(events, Run(s, events, true))
    decreases |events|
  {
    if events != [] && !events[0].ReadError? {
      var t := Step(s, events[0]);
      RunCons(s, events, true);
      if events[0].Message? && events[0].cmd.Nodes? {
        NodesTransition(s, events[0].cmd.groups);
      } else {
        StepKeepsDirectory(s, events[0]);
        AnswerIsLatestNodes(t.settings, events[1..]);
        if t.outcome.Continue? {
          AnsweredShift(events, Run(t.settings, events[1..], true), Run(s, events, true));
        }
      }
    }
  }

  /**
   * A run that stopped because the query was answered ended on a successful
   * `nodes` response: the list is that response's flattening and the query
   * state is Idle again.
   */
  ghost predicate AnsweredByNodes(events: seq<Event>, r: RunResult) {
    r.stop == Answered ==>
      1 <= r.consumed <= |events| &&
      events[r.consumed - 1].Message? && events[r.consumed - 1].cmd.Nodes? &&
      events[r.consumed - 1].cmd.groups.Some? &&
      Flatten(events[r.consumed - 1].cmd.groups.value) == Some(r.settings.devices) &&
      r.settings.deviceQueryState == Idle
  }

  /** Answering in the rest of a run is answering in the run, one event later. */
  lemma AnsweredShift(events: seq<Event>, rest: RunResult, r: RunResult)
    requires events != [] && AnsweredByNodes(events[1..], rest)
    requires r.settings == rest.settings && r.stop == rest.stop && r.consumed == rest.consumed + 1
    ensures AnsweredByNodes(events, r)
  {
    if r.stop == Answered {
      assert events[1..][rest.consumed - 1] == events[r.consumed - 1];
    }
  }
}
