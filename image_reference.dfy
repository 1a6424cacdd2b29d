/**
 * `ImageReference.Parse`: splitting an image reference into registry,
 * repository and tag. A digest ("@sha256:...") is dropped; the tag is what
 * follows the last ':' when that comes after the last '/'; the registry is the
 * first path segment when it looks like a host name.
 */
module ImageReference {
  import opened Text

  datatype ImageRef = ImageRef(registry: string, repository: string, tag: string)

  const DefaultRegistry: string := "index.docker.io"
  const DefaultTag: string := "latest"

  /** The part before any '@', trimmed. */
  function WithoutDigest(imageName: string): (w: string)
    ensures '@' !in w
  {
    FirstPiece(imageName, '@')
  }

  lemma DefaultTagIsPlain()
    ensures '/' !in DefaultTag && ':' !in DefaultTag && '@' !in DefaultTag
  {
    assert forall i | 0 <= i < |DefaultTag| :: 'a' <= DefaultTag[i] <= 'z';
  }

  lemma DefaultRegistryHasNoSlash()
    ensures '/' !in DefaultRegistry
  {
    assert forall i | 0 <= i < |DefaultRegistry| :: 'a' <= DefaultRegistry[i] <= 'z' || DefaultRegistry[i] == '.';
  }

  /** A first segment that names a registry: it has a '.' or a ':', or is "localhost". */
  predicate HasExplicitRegistry(segment: string) {
    '.' in segment || ':' in segment || EqualsIgnoreCase(segment, "localhost")
  }

  /** A tag is present when the last ':' comes after the last '/'. */
  predicate HasTag(w: string) {
    LastIndexOf(w, ':') > LastIndexOf(w, '/')
  }

  /** The registry a repository names: its first segment when explicit, else Docker Hub. */
  function RegistryOf(repository: string): (registry: string)
    ensures var s := FirstPiece(repository, '/'); HasExplicitRegistry(s) ==> registry == s
    ensures var s := FirstPiece(repository, '/'); !HasExplicitRegistry(s) ==> registry == DefaultRegistry
    ensures '/' !in registry
    ensures registry == DefaultRegistry || HasExplicitRegistry(registry)
  {
    var firstSegment := FirstPiece(repository, '/');
    if HasExplicitRegistry(firstSegment) then firstSegment
    else
      DefaultRegistryHasNoSlash();
      DefaultRegistry
  }

  /** Repository and tag of a digest-free reference. */
  function SplitTag(w: string): (rt: (string, string))
    requires '@' !in w
    ensures HasTag(w) ==> rt.0 + ":" + rt.1 == w
    ensures !HasTag(w) ==> rt.0 == w && rt.1 == DefaultTag
    ensures '/' !in rt.1 && ':' !in rt.1 && '@' !in rt.1
    ensures '@' !in rt.0
  {
    var lastSlash := LastIndexOf(w, '/');
    var lastColon := LastIndexOf(w, ':');
    if lastColon > lastSlash then
      var repository := w[..lastColon];
      var tag := w[lastColon + 1..];
      assert w == repository + ":" + tag;
      NotInShorterSuffix(w, '/', lastSlash + 1, lastColon + 1);
      assert w[0..] == w;
      NotInShorterSuffix(w, '@', 0, lastColon + 1);
      assert '@' !in repository by {
        assert forall i | 0 <= i < |repository| :: repository[i] == w[i];
      }
      (repository, tag)
    else
      DefaultTagIsPlain();
      (w, DefaultTag)
  }

  /** The repository is a prefix of the trimmed reference, so it starts with no white space. */
  lemma RepositoryStartsTrimmed(w: string)
    requires '@' !in w && (w == [] || !IsWhiteSpace(w[0]))
    ensures var repo := SplitTag(w).0; repo == [] || !IsWhiteSpace(repo[0])
  {
    var repo := SplitTag(w).0;
    if HasTag(w) {
      assert repo == w[..|repo|];
    }
  }

  function Parse(imageName: string): (r: ImageRef)
    ensures var w := WithoutDigest(imageName);
      (HasTag(w) ==> r.repository + ":" + r.tag == w)
      && (!HasTag(w) ==> r.repository == w && r.tag == DefaultTag)
    ensures '/' !in r.tag && ':' !in r.tag && '@' !in r.tag
    ensures '@' !in r.repository
    ensures r.registry == RegistryOf(r.repository)
  {
    var (repository, tag) := SplitTag(WithoutDigest(imageName));
    ImageRef(RegistryOf(repository), repository, tag)
  }

  /**
   * An explicit registry is the leading text of the repository: pulling by
   * repository name addresses that registry.
   */
  lemma ExplicitRegistryIsPrefix(imageName: string)
    requires HasExplicitRegistry(FirstPiece(Parse(imageName).repository, '/'))
    ensures StartsWith(Parse(imageName).repository, Parse(imageName).registry)
  {
    var w := WithoutDigest(imageName);
    var repo := Parse(imageName).repository;
    RepositoryStartsTrimmed(w);
    FirstPieceIsPrefix(repo, '/');
  }

  /** A string with no white space at either end. */
  predicate Trimmed(s: string) {
    s != [] && !IsWhiteSpace(s[0]) && !IsWhiteSpace(s[|s| - 1])
  }

  /** A host-like first segment before a '/' is the registry: "ghcr.io/org/app", "localhost:5000/team/app". */
  lemma RegistryOfHost(host: string, path: string)
    requires Trimmed(host) && '/' !in host && HasExplicitRegistry(host)
    ensures RegistryOf(host + "/" + path) == host
  {
    BeforeFirstAt(host, '/', path);
    TrimOfUntrimmed(host);
  }

  /** With no '.' or ':' and no "localhost" first segment, the registry is Docker Hub: "nginx", "myuser/myimage". */
  lemma RegistryOfHubName(repository: string)
    requires '.' !in repository && ':' !in repository
    requires !EqualsIgnoreCase(FirstPiece(repository, '/'), "localhost")
    ensures RegistryOf(repository) == DefaultRegistry
  {
    var s := FirstPiece(repository, '/');
    if '.' in s {
      FirstPieceChars(repository, '/', '.');
    } else if ':' in s {
      FirstPieceChars(repository, '/', ':');
    }
  }

  /** Whatever follows the first '@' (a digest) plays no part: "registry.example.com/app:v3@sha256:abc123". */
  lemma ParseDropsDigest(w: string, digest: string)
    requires Trimmed(w) && '@' !in w
    ensures Parse(w + "@" + digest) == Parse(w)
  {
    BeforeFirstAt(w, '@', digest);
    TrimOfUntrimmed(w);
    assert w[0..] == w;
    BeforeFirstAll(w, '@');
  }

  /** A tag after the last ':' past the last '/' is split off: "ghcr.io/org/app:v1", "library/redis:7". */
  lemma ParseTagged(repository: string, tag: string)
    requires Trimmed(repository) && '@' !in repository
    requires Trimmed(tag) && '/' !in tag && ':' !in tag && '@' !in tag
    ensures Parse(repository + ":" + tag) == ImageRef(RegistryOf(repository), repository, tag)
  {
    var w := repository + ":" + tag;
    assert '@' !in w;
    assert w[0] == repository[0] && w[|w| - 1] == tag[|tag| - 1];
    WithoutDigestOfPlain(w);
    SplitTagOfTagged(repository, tag);
  }

  /** A trimmed reference with no '@' is its own digest-free part. */
  lemma WithoutDigestOfPlain(w: string)
    requires Trimmed(w) && '@' !in w
    ensures WithoutDigest(w) == w
  {
    TrimOfUntrimmed(w);
    BeforeFirstAll(w, '@');
  }

  lemma SplitTagOfTagged(repository: string, tag: string)
    requires '@' !in repository && '/' !in tag && ':' !in tag && '@' !in tag
    ensures SplitTag(repository + ":" + tag) == (repository, tag)
  {
    var w := repository + ":" + tag;
    LastIndexOfBefore(repository, ':', tag);
    assert LastIndexOf(w, '/') < |repository|;
    assert w[..|repository|] == repository;
    assert w[|repository| + 1..] == tag;
  }

  /** With no ':' at all, the tag is "latest" and the repository is the whole reference: "nginx", "myuser/myimage". */
  lemma ParseUntagged(repository: string)
    requires Trimmed(repository) && '@' !in repository && ':' !in repository
    ensures Parse(repository) == ImageRef(RegistryOf(repository), repository, DefaultTag)
  {
    WithoutDigestOfPlain(repository);
  }

  /**
   * Registry, repository and tag together: "ghcr.io/org/app:v1" is
   * ("ghcr.io", "ghcr.io/org/app", "v1"), "localhost:5000/team/app:2" is
   * ("localhost:5000", "localhost:5000/team/app", "2").
   */
  lemma ParseRegistryTagged(host: string, path: string, tag: string)
    requires Trimmed(host) && '/' !in host && '@' !in host && HasExplicitRegistry(host)
    requires Trimmed(path) && '@' !in path
    requires Trimmed(tag) && '/' !in tag && ':' !in tag && '@' !in tag
    ensures Parse(host + "/" + path + ":" + tag) == ImageRef(host, host + "/" + path, tag)
  {
    var repository := host + "/" + path;
    assert repository[0] == host[0] && repository[|repository| - 1] == path[|path| - 1];
    ParseTagged(repository, tag);
    RegistryOfHost(host, path);
  }
}
