/**
 * `RegistryAuthResolver`: the credentials a pull presents, read from the
 * "auths" object of the Docker client configuration. The registry of the
 * image selects a list of candidate keys; the first key whose entry yields
 * credentials wins.
 */
module RegistryAuth {
  import opened Wrappers
  import opened Text
  import opened DockerModels
  import ImageReference

  /** The JSON values the resolver distinguishes: strings, objects and anything else. */
  datatype Json = JString(text: string) | JObject(props: map<string, Json>) | JOther

  /**
   * What the resolver reads from outside: the configuration text (null when
   * the file is missing, read once and cached), the JSON parser (None when it
   * throws) and base64-then-UTF-8 decoding (None when the input is not base64).
   */
  datatype AuthSource = AuthSource(
    configJson: Option<string>,
    parse: string -> Option<Json>,
    decodeBase64: string -> Option<string>)

  const DockerHubAuthKey: string := "https://index.docker.io/v1/"

  /** A property's value when it is a JSON string, and null otherwise. */
  function GetString(props: map<string, Json>, name: string): (r: Option<string>)
    ensures r.Some? <==> name in props && props[name].JString?
    ensures r.Some? ==> props[name] == JString(r.value)
  {
    if name in props && props[name].JString? then Some(props[name].text) else None
  }

  // ------------------------------------------------------------ credentials

  /**
   * The split of a decoded "auth" value at its first ':', refused when there
   * is no ':', when it comes first, or when the user name is blank.
   */
  function SplitCredentials(decoded: string): (r: Option<(string, string)>)
    ensures r.Some? ==> r.value.0 + ":" + r.value.1 == decoded
    ensures r.Some? ==> ':' !in r.value.0 && !IsBlank(r.value.0)
    ensures r.None? <==> IndexOf(decoded, ':') <= 0 || IsBlank(decoded[..IndexOf(decoded, ':')])
  {
    var separator := IndexOf(decoded, ':');
    if separator <= 0 then None
    else
      var username := decoded[..separator];
      var password := decoded[separator + 1..];
      assert decoded == username + ":" + password;
      if IsBlank(username) then None else Some((username, password))
  }

  /** Any user name without ':' that is not blank survives the split with its password. */
  lemma SplitCredentialsRoundTrip(username: string, password: string)
    requires ':' !in username && !IsBlank(username)
    ensures SplitCredentials(username + ":" + password) == Some((username, password))
  {
    var decoded := username + ":" + password;
    assert decoded[|username|] == ':';
    assert decoded[..|username|] == username;
    assert decoded[|username| + 1..] == password;
  }

  /** `TryDecodeAuth`: the user name and password of an "auth" value, if it has them. */
  function TryDecodeAuth(encodedAuth: Option<string>, decodeBase64: string -> Option<string>)
    : (r: Option<(string, string)>)
    ensures IsNullOrWhiteSpace(encodedAuth) ==> r.None?
    ensures r.Some? ==> decodeBase64(encodedAuth.value) == Some(r.value.0 + ":" + r.value.1)
    ensures r.Some? ==> !IsBlank(r.value.0)
  {
    if IsNullOrWhiteSpace(encodedAuth) then None
    else
      match decodeBase64(encodedAuth.value)
      case None => None
      case Some(decoded) => SplitCredentials(decoded)
  }

  /** "identitytoken" first; "identityToken" only when the former is not a string. */
  function IdentityToken(entry: map<string, Json>): Option<string> {
    match GetString(entry, "identitytoken")
    case Some(t) => Some(t)
    case None => GetString(entry, "identityToken")
  }

  /** Both plain credentials present and non-blank. */
  predicate HasCredentials(username: Option<string>, password: Option<string>) {
    !IsNullOrWhiteSpace(username) && !IsNullOrWhiteSpace(password)
  }

  /** The user name and password after the "auth" fallback. */
  function UserAndPassword(entry: map<string, Json>, decodeBase64: string -> Option<string>)
    : (up: (Option<string>, Option<string>))
    ensures HasCredentials(GetString(entry, "username"), GetString(entry, "password")) ==>
              up == (GetString(entry, "username"), GetString(entry, "password"))
  {
    var username := GetString(entry, "username");
    var password := GetString(entry, "password");
    if !HasCredentials(username, password) then
      match TryDecodeAuth(GetString(entry, "auth"), decodeBase64)
      case Some((u, p)) => (Some(u), Some(p))
      case None => (username, password)
    else (username, password)
  }

  /** `ParseAuthEntry`: the credentials of one entry, or null when it has none. */
  function ParseAuthEntry(entry: map<string, Json>, registry: string, decodeBase64: string -> Option<string>)
    : (r: Option<AuthConfig>)
    ensures r.None? <==>
              IsNullOrWhiteSpace(IdentityToken(entry))
              && !HasCredentials(UserAndPassword(entry, decodeBase64).0, UserAndPassword(entry, decodeBase64).1)
    ensures r.Some? ==> r.value.serverAddress == registry && r.value.identityToken == IdentityToken(entry)
    ensures r.Some? ==> (r.value.username, r.value.password) == UserAndPassword(entry, decodeBase64)
  {
    var identityToken := IdentityToken(entry);
    var (username, password) := UserAndPassword(entry, decodeBase64);
    if IsNullOrWhiteSpace(identityToken) && !HasCredentials(username, password) then None
    else Some(AuthConfig(registry, username, password, identityToken))
  }

  /** Non-blank plain credentials are used as they are; the "auth" value is not consulted. */
  lemma PlainCredentialsWin(entry: map<string, Json>, registry: string,
                            decodeBase64: string -> Option<string>, username: string, password: string)
    requires entry.Keys >= {"username", "password"}
    requires entry["username"] == JString(username) && entry["password"] == JString(password)
    requires !IsBlank(username) && !IsBlank(password)
    ensures ParseAuthEntry(entry, registry, decodeBase64)
            == Some(AuthConfig(registry, Some(username), Some(password), IdentityToken(entry)))
  {
  }

  /** Without plain credentials, an "auth" value decoding to "user:password" supplies them. */
  lemma AuthFallbackSupplies(entry: map<string, Json>, registry: string,
                             decodeBase64: string -> Option<string>, username: string, password: string)
    requires "username" !in entry && "password" !in entry && "auth" in entry && entry["auth"].JString?
    requires !IsBlank(entry["auth"].text)
    requires decodeBase64(entry["auth"].text) == Some(username + ":" + password)
    requires ':' !in username && !IsBlank(username) && !IsBlank(password)
    ensures ParseAuthEntry(entry, registry, decodeBase64)
            == Some(AuthConfig(registry, Some(username), Some(password), IdentityToken(entry)))
  {
    SplitCredentialsRoundTrip(username, password);
  }

  /** A non-blank identity token alone is enough; a lower-case "identitytoken" string wins. */
  lemma TokenSuffices(entry: map<string, Json>, registry: string,
                      decodeBase64: string -> Option<string>, token: string)
    requires "identitytoken" in entry && entry["identitytoken"] == JString(token) && !IsBlank(token)
    ensures ParseAuthEntry(entry, registry, decodeBase64).Some?
    ensures ParseAuthEntry(entry, registry, decodeBase64).value.identityToken == Some(token)
  {
  }

  // --------------------------------------------------------------- registry

  /** `ExtractRegistry`: the registry an image is pulled from. */
  function ExtractRegistry(imageName: string): (registry: string)
    ensures registry == ImageReference.Parse(imageName).registry
  {
    var withoutDigest := FirstPiece(imageName, '@');
    var lastSlash := LastIndexOf(withoutDigest, '/');
    var lastColon := LastIndexOf(withoutDigest, ':');
    var withoutTag := if lastColon > lastSlash then withoutDigest[..lastColon] else withoutDigest;
    assert withoutTag == ImageReference.Parse(imageName).repository by {
      assert withoutDigest == ImageReference.WithoutDigest(imageName);
    }
    var firstSegment := FirstPiece(withoutTag, '/');
    if '.' in firstSegment || ':' in firstSegment || EqualsIgnoreCase(firstSegment, "localhost")
    then firstSegment
    else "index.docker.io"
  }

  /** Docker Hub, under either of its names in any letter case. */
  predicate IsDockerHub(registry: string) {
    EqualsIgnoreCase(registry, "index.docker.io") || EqualsIgnoreCase(registry, "docker.io")
  }

  /** The keys of "auths" a registry's entry may be stored under. */
  function GenericKeys(registry: string): seq<string> {
    [registry, "https://" + registry, "https://" + registry + "/v1/"]
  }

  /** `RegistryLookupCandidates`, in the order the resolver tries them. */
  function LookupCandidates(registry: string): (keys: seq<string>)
    ensures IsDockerHub(registry) ==> keys == [DockerHubAuthKey, "docker.io", "index.docker.io"] + GenericKeys(registry)
    ensures !IsDockerHub(registry) ==> keys == GenericKeys(registry)
  {
    (if IsDockerHub(registry) then [DockerHubAuthKey, "docker.io", "index.docker.io"] else [])
    + GenericKeys(registry)
  }

  /** Images without an explicit registry look up the Docker Hub key first. */
  lemma ImplicitRegistryTriesHubKeyFirst(imageName: string)
    requires ExtractRegistry(imageName) == "index.docker.io"
    ensures LookupCandidates(ExtractRegistry(imageName))[0] == DockerHubAuthKey
    ensures "docker.io" in LookupCandidates(ExtractRegistry(imageName))
  {
    assert IsDockerHub("index.docker.io");
  }

  // ---------------------------------------------------------------- lookup

  /** The credentials stored under one key, when its entry is an object that yields any. */
  function CredentialsAt(auths: map<string, Json>, key: string, registry: string,
                         decodeBase64: string -> Option<string>): (r: Option<AuthConfig>)
    ensures r.Some? ==> key in auths && auths[key].JObject?
  {
    if key in auths && auths[key].JObject? then ParseAuthEntry(auths[key].props, registry, decodeBase64)
    else None
  }

  /** The credentials under the first key that has any. */
  function FirstCredentials(auths: map<string, Json>, keys: seq<string>, registry: string,
                            decodeBase64: string -> Option<string>): Option<AuthConfig>
  {
    if keys == [] then None
    else
      var found := CredentialsAt(auths, keys[0], registry, decodeBase64);
      if found.Some? then found else FirstCredentials(auths, keys[1..], registry, decodeBase64)
  }

  /** The "auths" object of a configuration, or None when there is none to read. */
  function AuthsOf(source: AuthSource): Option<map<string, Json>> {
    if IsNullOrWhiteSpace(source.configJson) then None
    else
      match source.parse(source.configJson.value)
      case Some(JObject(root)) =>
        if "auths" in root && root["auths"].JObject? then Some(root["auths"].props) else None
      case _ => None
  }

  /** What `ResolveForImage` returns, as a function of the configuration it reads. */
  function Resolve(source: AuthSource, imageName: string): Option<AuthConfig> {
    match AuthsOf(source)
    case None => None
    case Some(auths) =>
      var registry := ExtractRegistry(imageName);
      FirstCredentials(auths, LookupCandidates(registry), registry, source.decodeBase64)
  }

  /** No credentials are found exactly when no key yields any. */
  lemma {:induction false} FirstCredentialsNone(auths: map<string, Json>, keys: seq<string>, registry: string,
                                               decodeBase64: string -> Option<string>)
    ensures FirstCredentials(auths, keys, registry, decodeBase64).None? <==>
              forall j | 0 <= j < |keys| :: CredentialsAt(auths, keys[j], registry, decodeBase64).None?
    decreases |keys|
  {
    if keys != [] {
      FirstCredentialsNone(auths, keys[1..], registry, decodeBase64);
      if CredentialsAt(auths, keys[0], registry, decodeBase64).None? {
        forall j | 0 < j < |keys| ensures keys[j] == keys[1..][j - 1] {}
      }
    }
  }

  /**
   * The first key with credentials decides: no earlier key has any, and what
   * follows it is never consulted.
   */
  lemma {:induction false} FirstCredentialsIsFirst(auths: map<string, Json>, keys: seq<string>, registry: string,
                                                  decodeBase64: string -> Option<string>)
    requires FirstCredentials(auths, keys, registry, decodeBase64).Some?
    ensures exists k | 0 <= k < |keys| ::
              FirstCredentials(auths, keys, registry, decodeBase64) == CredentialsAt(auths, keys[k], registry, decodeBase64)
              && forall j | 0 <= j < k :: CredentialsAt(auths, keys[j], registry, decodeBase64).None?
    decreases |keys|
  {
    var first := FirstCredentials(auths, keys, registry, decodeBase64);
    if CredentialsAt(auths, keys[0], registry, decodeBase64).None? {
      FirstCredentialsIsFirst(auths, keys[1..], registry, decodeBase64);
      var k :| 0 <= k < |keys[1..]| && first == CredentialsAt(auths, keys[1..][k], registry, decodeBase64)
               && forall j | 0 <= j < k :: CredentialsAt(auths, keys[1..][j], registry, decodeBase64).None?;
      assert first == CredentialsAt(auths, keys[k + 1], registry, decodeBase64);
      forall j | 0 < j < k + 1 ensures keys[j] == keys[1..][j - 1] {}
      assert forall j | 0 <= j < k + 1 :: CredentialsAt(auths, keys[j], registry, decodeBase64).None?;
    } else {
      assert first == CredentialsAt(auths, keys[0], registry, decodeBase64);
    }
  }

  /** Keys after the one that yields credentials make no difference. */
  lemma {:induction false} LaterKeysIgnored(auths: map<string, Json>, keys: seq<string>, later: seq<string>,
                                           registry: string, decodeBase64: string -> Option<string>)
    requires FirstCredentials(auths, keys, registry, decodeBase64).Some?
    ensures FirstCredentials(auths, keys + later, registry, decodeBase64)
            == FirstCredentials(auths, keys, registry, decodeBase64)
    decreases |keys|
  {
    assert (keys + later)[0] == keys[0];
    if CredentialsAt(auths, keys[0], registry, decodeBase64).None? {
      assert (keys + later)[1..] == keys[1..] + later;
      LaterKeysIgnored(auths, keys[1..], later, registry, decodeBase64);
    }
  }

  /** A blank or missing configuration, or one without an "auths" object, yields null. */
  lemma NoAuthsNoCredentials(source: AuthSource, imageName: string)
    requires IsNullOrWhiteSpace(source.configJson)
             || source.parse(source.configJson.value).None?
             || (source.parse(source.configJson.value).value.JObject?
                 && var root := source.parse(source.configJson.value).value.props;
                    "auths" !in root || !root["auths"].JObject?)
    ensures Resolve(source, imageName).None?
  {
  }

  /** Any credentials returned are for the image's registry. */
  lemma ResolvedForRegistry(source: AuthSource, imageName: string)
    requires Resolve(source, imageName).Some?
    ensures Resolve(source, imageName).value.serverAddress == ImageReference.Parse(imageName).registry
  {
    var auths := AuthsOf(source).value;
    var registry := ExtractRegistry(imageName);
    FirstCredentialsIsFirst(auths, LookupCandidates(registry), registry, source.decodeBase64);
  }

  /** `ResolveForImage`: no credentials without an "auths" object, else the candidate keys in order. */
  method ResolveForImage(source: AuthSource, imageName: string) returns (auth: Option<AuthConfig>)
    ensures auth == Resolve(source, imageName)
  {
    var registry := ExtractRegistry(imageName);
    var found := AuthsOf(source);
    if found.None? {
      return None;
    }
    var auths := found.value;
    var candidates := LookupCandidates(registry);
    assert Resolve(source, imageName) == FirstCredentials(auths, candidates, registry, source.decodeBase64);
    auth := TryCandidates(auths, candidates, registry, source.decodeBase64);
  }

  /** The `foreach` over the candidate keys, returning at the first entry with credentials. */
  method TryCandidates(auths: map<string, Json>, candidates: seq<string>, registry: string,
                       decodeBase64: string -> Option<string>) returns (auth: Option<AuthConfig>)
    ensures auth == FirstCredentials(auths, candidates, registry, decodeBase64)
  {
    var i := 0;
    while i < |candidates|
      invariant 0 <= i <= |candidates|
      invariant FirstCredentials(auths, candidates[i..], registry, decodeBase64)
                == FirstCredentials(auths, candidates, registry, decodeBase64)
    {
      var key := candidates[i];
      assert candidates[i..][0] == key && candidates[i..][1..] == candidates[i + 1..];
      if key in auths && auths[key].JObject? {
        var entry := ParseAuthEntry(auths[key].props, registry, decodeBase64);
        assert entry == CredentialsAt(auths, key, registry, decodeBase64);
        if entry.Some? {
          return entry;
        }
      }
      i := i + 1;
    }
    assert candidates[i..] == [];
    return None;
  }
}
