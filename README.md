# Docker-Updater, modelled in Dafny

Docker-Updater is a background worker that keeps Docker containers on the
newest version of their image. Each session does the following:

- It lists the containers and decides, per container, whether it is
  monitored. The decision uses name allow/deny lists, the
  `com.dockerupdater.enable` label and the container state.
- For a monitored container it inspects the local image, pulls the image
  with credentials from the Docker `config.json`, and inspects the image
  again.
- When the image id changed, it recreates the container from the new image
  and optionally deletes the old image. When the container is the updater
  itself, it instead starts a one-shot helper container that updates the
  updater.
- It sends a plain-text summary of the session to a Discord webhook.

A recovery journal records every recreation in progress in a JSON file. At
start-up, the recovery processor finishes or rolls back each recreation
that was interrupted.

## How the model is built

- **The Docker daemon is a value.** `Runtime.Daemon` holds:
  - the containers (inspect records by id) and the listing the list call returns;
  - the local images (name to id) and the registry (name to id after a pull);
  - the start calls the daemon refuses, and a fault oracle: the numbers of the calls that throw;
  - the log of every call issued.

  Each daemon call is a step function `(Daemon, …) -> (Daemon, Result<T>)`.
  `Runtime.DockerClient` is a class with one `daemon` field and one method per call.
- **Processes that change state become classes.**
  - `Journal.RecoveryJournal` keeps its pending entries in a `seq` field and
    models the journal file as a field. Whether each flush reaches the disk
    is an oracle on the flush's number, so a disk may fail some writes and
    accept later ones.
  - `RecoveryProcessor.RecoveryProcessor` and `UpdateCoordinator.Coordinator`
    have loops with invariants.
  - Every method is proved equal to a pure step function: the same calls, in
    the same order, with the same results and error paths. Lemmas then state
    what those functions guarantee.
- **Pure parsing and decision code becomes functions and lemmas.** This
  covers options, image references, selection, registry auth, validation
  and message composition.
- **Behaviour outside the visible source is a parameter:**
  - the cron parser, `Uri.TryCreate` and `TimeSpan.TryParse`;
  - base64 decoding, and JSON parsing of the Docker config;
  - the GUID text of the helper's name, and how `TimeSpan.TotalSeconds` is
    formatted when the value has a fraction.
- **Exceptions are `Err` values** carrying the exception's message. A `catch`
  becomes a branch on that value.

## Model

| member | source | states |
|---|---|---|
| UpdateResults.Outcome | src/DockerUpdater.Shared/UpdateResult.cs:11-16 | a result built without an error has no error and carries the given name, image and state |
| UpdateResults.CountState | src/DockerUpdater.Shared/UpdateResult.cs:24-26 | a state count never exceeds the number of results |
| UpdateResults.CountStateIsPositions | src/DockerUpdater.Shared/UpdateResult.cs:25-26 | the count of a state equals the number of positions holding that state |
| UpdateResults.CountsPartition | src/DockerUpdater.Shared/UpdateResult.cs:3-9 | Fresh + Updated + Skipped + Failed counts add up to the number of results |
| UpdateResults.SessionCountsBounded | src/DockerUpdater.Shared/UpdateResult.cs:24-26 | Updated + Failed never exceeds Scanned |
| UpdateResults.CountStateAppend | src/DockerUpdater.Shared/UpdateResult.cs:24-26 | counts of a concatenation are the sums of the counts |
| RecoveryEntries.Ordinal | src/DockerUpdater.Worker/Docker/RecoveryEntry.cs:5-13 | every phase has a position in the declared phase order |
| RecoveryEntries.PhasesAreDeclared | src/DockerUpdater.Worker/Docker/RecoveryEntry.cs:5-13 | the phase order lists every phase exactly once |
| RecoveryEntries.NewEntry | src/DockerUpdater.Worker/Docker/RecoveryEntry.cs:15-25 | a new entry keeps the given fields, has no replacement id and is in the first phase |
| ImageReference.WithoutDigest | src/DockerUpdater.Worker/Docker/ImageReference.cs:10 | the part before '@' contains no '@' |
| ImageReference.DefaultTagIsPlain | src/DockerUpdater.Worker/Docker/ImageReference.cs:5 | the default tag holds no '/', ':' or '@' |
| ImageReference.DefaultRegistryHasNoSlash | src/DockerUpdater.Worker/Docker/ImageReference.cs:6 | the default registry holds no '/' |
| ImageReference.RegistryOf | src/DockerUpdater.Worker/Docker/ImageReference.cs:28-34 | the registry is the trimmed first '/'-segment exactly when that segment holds '.' or ':' or is "localhost" in any case, and "index.docker.io" otherwise; it holds no '/' |
| ImageReference.SplitTag | src/DockerUpdater.Worker/Docker/ImageReference.cs:12-26 | with a tag, repository + ":" + tag is the input again; without one, the repository is the input and the tag is the default |
| ImageReference.RepositoryStartsTrimmed | src/DockerUpdater.Worker/Docker/ImageReference.cs:17-26 | splitting off the tag keeps a repository that does not start with white space |
| ImageReference.Parse | src/DockerUpdater.Worker/Docker/ImageReference.cs:8-37 | the repository and tag rebuild the digest-free name; the tag holds no '/', ':' or '@'; the registry is the repository's explicit first segment, or "index.docker.io" |
| ImageReference.ExplicitRegistryIsPrefix | src/DockerUpdater.Worker/Docker/ImageReference.cs:28-34 | an explicit registry is a prefix of the repository |
| ImageReference.RegistryOfHost | src/DockerUpdater.Worker/Docker/ImageReference.cs:28-34 | a host-like segment before the first '/' ("ghcr.io", "localhost:5000") is the registry |
| ImageReference.RegistryOfHubName | src/DockerUpdater.Worker/Docker/ImageReference.cs:28-34 | a repository with no '.' or ':' and no "localhost" first segment ("nginx", "myuser/myimage") is on Docker Hub |
| ImageReference.ParseDropsDigest | src/DockerUpdater.Worker/Docker/ImageReference.cs:10 | text after the first '@' does not change the parse ("…/app:v3@sha256:abc123" parses as "…/app:v3") |
| ImageReference.WithoutDigestOfPlain | src/DockerUpdater.Worker/Docker/ImageReference.cs:10 | a trimmed reference with no '@' is its own digest-free part |
| ImageReference.SplitTagOfTagged | src/DockerUpdater.Worker/Docker/ImageReference.cs:12-21 | "repo:tag" with a plain tag splits into exactly that repository and tag |
| ImageReference.ParseTagged | src/DockerUpdater.Worker/Docker/ImageReference.cs:12-21 | "repo:tag" gives exactly that repository and tag ("library/redis:7") |
| ImageReference.ParseUntagged | src/DockerUpdater.Worker/Docker/ImageReference.cs:22-26 | a reference with no ':' is its own repository with tag "latest" ("nginx") |
| ImageReference.ParseRegistryTagged | src/DockerUpdater.Worker/Docker/ImageReference.cs:8-37 | "host/path:tag" gives registry host, repository "host/path" and that tag ("ghcr.io/org/app:v1", "localhost:5000/team/app:2") |
| Journal.Without | src/DockerUpdater.Worker/Docker/RecoveryJournal.cs:42 | removing by name keeps exactly the entries with a different name |
| Journal.WithoutConcat | src/DockerUpdater.Worker/Docker/RecoveryJournal.cs:79 | removal distributes over concatenation |
| Journal.WithoutSingle | src/DockerUpdater.Worker/Docker/RecoveryJournal.cs:79 | a single entry is kept iff its name differs |
| Journal.FindIndex | src/DockerUpdater.Worker/Docker/RecoveryJournal.cs:84-87 | finds the first entry with the name, and none iff no entry has it |
| Journal.FindEntry | src/DockerUpdater.Worker/Docker/RecoveryJournal.cs:84-87 | an entry is found iff some entry has the name, and the one found is the first entry with that name |
| Journal.Begin | src/DockerUpdater.Worker/Docker/RecoveryJournal.cs:42-43 | the new entry ends the list and is the only one with its name; before it come exactly the old entries of other names, in their order |
| Journal.WithoutIdempotent | src/DockerUpdater.Worker/Docker/RecoveryJournal.cs:79 | removing a name twice is removing it once |
| Journal.BeginKeepsOthers | src/DockerUpdater.Worker/Docker/RecoveryJournal.cs:38-46 | beginning a recreation leaves the entries of every other container as they were, in order |
| Journal.MarkCreated | src/DockerUpdater.Worker/Docker/RecoveryJournal.cs:48-60 | only the first entry with the name gets the new id and the Created phase; nothing changes when the name is absent |
| Journal.MarkStarted | src/DockerUpdater.Worker/Docker/RecoveryJournal.cs:62-73 | only the first entry with the name moves to Started; nothing changes when the name is absent |
| Journal.WithoutKeepsUnique | src/DockerUpdater.Worker/Docker/RecoveryJournal.cs:79 | removal keeps names unique |
| Journal.BeginKeepsUnique | src/DockerUpdater.Worker/Docker/RecoveryJournal.cs:42-43 | beginning a recreation keeps at most one entry per container name |
| Journal.MarkCreatedKeepsUnique | src/DockerUpdater.Worker/Docker/RecoveryJournal.cs:48-60 | recording the new id keeps names unique |
| Journal.MarkStartedKeepsUnique | src/DockerUpdater.Worker/Docker/RecoveryJournal.cs:62-73 | recording the start keeps names unique |
| Journal.NameSetWithout | src/DockerUpdater.Worker/Docker/RecoveryJournal.cs:79 | completing a name removes exactly that name from the pending names |
| Journal.NameSetMarkStarted | src/DockerUpdater.Worker/Docker/RecoveryJournal.cs:62-73 | recording a start leaves the pending names unchanged |
| Journal.FindAfterMarkCreated | src/DockerUpdater.Worker/Docker/RecoveryJournal.cs:52-56 | after RecordCreated the entry found carries the new id and the Created phase |
| Journal.Load | src/DockerUpdater.Worker/Docker/RecoveryJournal.cs:104-121 | a missing or unparsable file loads as no entries |
| Journal.Flushed | src/DockerUpdater.Worker/Docker/RecoveryJournal.cs:89-102 | a flush that reaches the disk makes the file load back as the entries; a failed one leaves the file as it was |
| Journal.RecoveryJournal.constructor | src/DockerUpdater.Worker/Docker/RecoveryJournal.cs:17-28 | the journal starts with the entries loaded from its file and no flush attempted |
| Journal.RecoveryJournal.GetPendingEntries | src/DockerUpdater.Worker/Docker/RecoveryJournal.cs:30-36 | returns the pending entries |
| Journal.RecoveryJournal.Flush | src/DockerUpdater.Worker/Docker/RecoveryJournal.cs:89-102 | counts one more flush and writes the entries when that flush reaches the disk; a failed one is caught and leaves the file |
| Journal.RecoveryJournal.BeginRecreation | src/DockerUpdater.Worker/Docker/RecoveryJournal.cs:38-46 | replaces any entry of the same name with the new one at the end, then flushes once |
| Journal.RecoveryJournal.RecordCreated | src/DockerUpdater.Worker/Docker/RecoveryJournal.cs:48-60 | updates the entry as MarkCreated does and flushes only when the entry exists |
| Journal.RecoveryJournal.RecordStarted | src/DockerUpdater.Worker/Docker/RecoveryJournal.cs:62-73 | updates the entry as MarkStarted does and flushes only when the entry exists |
| Journal.RecoveryJournal.Complete | src/DockerUpdater.Worker/Docker/RecoveryJournal.cs:75-82 | removes every entry with the name, then flushes once |
| Journal.Reopen | src/DockerUpdater.Worker/Docker/RecoveryJournal.cs:17-28 | when BeginRecreation's flush reaches the disk, a journal opened on the file sees the same pending entries |
| Text.TrimStart | src/DockerUpdater.Worker/Options/UpdaterOptions.cs:135 | drops exactly the leading white space |
| Text.TrimEnd | src/DockerUpdater.Worker/Options/UpdaterOptions.cs:135 | drops exactly the trailing white space |
| Text.Trim | src/DockerUpdater.Worker/Options/UpdaterOptions.cs:135 | empty iff the input is blank, otherwise neither end is white space |
| Text.TrimStartUnique | src/DockerUpdater.Worker/Options/UpdaterOptions.cs:135 | TrimStart cuts at the first non-white character |
| Text.TrimEndUnique | src/DockerUpdater.Worker/Options/UpdaterOptions.cs:135 | TrimEnd cuts after the last non-white character |
| Text.TrimStartBlankPrefix | src/DockerUpdater.Worker/Options/UpdaterOptions.cs:135 | a blank prefix does not change TrimStart |
| Text.TrimEndBlankSuffix | src/DockerUpdater.Worker/Options/UpdaterOptions.cs:135 | a blank suffix does not change TrimEnd |
| Text.TrimPadded | src/DockerUpdater.Worker/Options/UpdaterOptions.cs:135 | Trim removes blank padding around a word and nothing else |
| Text.TrimStartChar | src/DockerUpdater.Worker/Options/UpdaterOptions.cs:135 | TrimStart('/') drops exactly the leading slashes |
| Text.LowerCharOfLetter | src/DockerUpdater.Worker/Options/UpdaterOptions.cs:68 | only letters fold to lower-case letters |
| Text.ToLower | src/DockerUpdater.Worker/Options/UpdaterOptions.cs:68 | folds character by character and keeps the length |
| Text.IndexOf | src/DockerUpdater.Worker/Docker/RegistryAuthResolver.cs:106 | -1 iff the character is absent, otherwise its first position |
| Text.LastIndexOf | src/DockerUpdater.Worker/Docker/ImageReference.cs:12-13 | -1 iff the character is absent, otherwise its last position |
| Text.FirstPiece | src/DockerUpdater.Worker/Docker/ImageReference.cs:10 | the first piece of a split never holds the separator |
| Text.BeforeFirst | src/DockerUpdater.Worker/Docker/ImageReference.cs:28 | the part before the first separator is a prefix |
| Text.TrimOfNonWhiteStart | src/DockerUpdater.Worker/Docker/ImageReference.cs:28 | trimming a string that starts non-white only trims its end |
| Text.FirstPieceIsPrefix | src/DockerUpdater.Worker/Docker/ImageReference.cs:28 | the trimmed first piece is a prefix of a string that starts non-white |
| Text.SplitAny | src/DockerUpdater.Worker/Options/UpdaterOptions.cs:122 | one piece more than there are separators; the pieces joined with the separators between them rebuild the input; no piece holds a separator |
| Text.PiecesRebuild | src/DockerUpdater.Worker/Options/UpdaterOptions.cs:122 | the pieces interleaved with the separators found are the input again |
| Text.PiecesHaveNoSeparator | src/DockerUpdater.Worker/Options/UpdaterOptions.cs:122 | no piece holds a separator |
| Text.SplitAnyAtSeparator | src/DockerUpdater.Worker/Options/UpdaterOptions.cs:122 | splitting at a separator splits the two sides independently |
| Text.SplitAnyWithoutSeparator | src/DockerUpdater.Worker/Options/UpdaterOptions.cs:122 | text with no separator is a single piece |
| Text.SplitAnyOfBlank | src/DockerUpdater.Worker/Options/UpdaterOptions.cs:122 | every piece of blank text is blank |
| Text.IndexOfAfter | src/DockerUpdater.Worker/Docker/ImageReference.cs:10 | the first c in a + [c] + b, when a holds none, comes right after a |
| Text.LastIndexOfBefore | src/DockerUpdater.Worker/Docker/ImageReference.cs:12-13 | the last c in a + [c] + b, when b holds none, comes right after a |
| Text.BeforeFirstAt | src/DockerUpdater.Worker/Docker/ImageReference.cs:10 | the text before the first separator of a + [c] + b with none in a is a |
| Text.FirstPieceChars | src/DockerUpdater.Worker/Docker/ImageReference.cs:28 | the first piece holds only characters of the input |
| Text.NatToString | src/DockerUpdate.Notifications/NotificationComposer.cs:12 | decimal digits without a leading zero |
| Text.TrimNumberWhite | src/DockerUpdater.Worker/Options/UpdaterOptions.cs:78 | strips the white space int.TryParse allows at both ends |
| Text.ParseInt32 | src/DockerUpdater.Worker/Options/UpdaterOptions.cs:78 | a parsed value lies in the 32-bit range |
| Text.DigitsValueOfNatToString | src/DockerUpdater.Worker/Options/UpdaterOptions.cs:78 | reading back the printed digits gives the number |
| Text.ParseInt32OfIntToString | src/DockerUpdater.Worker/Options/UpdaterOptions.cs:76-84 | parsing a printed 32-bit integer returns it |
| UpdaterOptions.Defaults | src/DockerUpdater.Worker/Options/UpdaterOptions.cs:7-23 | the declared defaults: 86400 s poll, 10 s timeout, "UTC", all flags false, empty sets |
| UpdaterOptions.NormalizeContainerName | src/DockerUpdater.Worker/Options/UpdaterOptions.cs:128-136 | blank gives ""; otherwise the trimmed name minus exactly its leading slashes |
| UpdaterOptions.ParseBool | src/DockerUpdater.Worker/Options/UpdaterOptions.cs:61-74 | blank gives the default; otherwise 1/true/yes/on give true, 0/false/no/off give false, in any case, and anything else gives the default |
| UpdaterOptions.ParseInt | src/DockerUpdater.Worker/Options/UpdaterOptions.cs:76-84 | a positive 32-bit parse wins, anything else gives the default; an unset or blank value gives the default |
| Text.ParseInt32OfBlank | src/DockerUpdater.Worker/Options/UpdaterOptions.cs:78 | a blank string is not a number |
| UpdaterOptions.KeptPieceMember | src/DockerUpdater.Worker/Options/UpdaterOptions.cs:122-124 | a kept piece normalizes to a non-blank name without a leading slash |
| UpdaterOptions.LowerCharKeepsClass | src/DockerUpdater.Worker/Options/UpdaterOptions.cs:125 | folding keeps white space and '/' as they are |
| UpdaterOptions.ParseSet | src/DockerUpdater.Worker/Options/UpdaterOptions.cs:114-126 | blank gives the empty set; a name is a member iff it is the trimmed, slash-stripped, lower-cased form of a non-blank piece between ',' and ' ' separators; no member is empty, blank or slash-led |
| UpdaterOptions.ParseSetAtSeparator | src/DockerUpdater.Worker/Options/UpdaterOptions.cs:122 | the set of "a,b" (or "a b") is the set of a together with the set of b |
| UpdaterOptions.ParseSetOfName | src/DockerUpdater.Worker/Options/UpdaterOptions.cs:114-126 | a single name with no separator gives the one-name set of its normal form, or nothing when it normalizes to blank |
| UpdaterOptions.ParseSetOfCleanName | src/DockerUpdater.Worker/Options/UpdaterOptions.cs:114-126 | a clean container name gives the set holding just its lower-case form |
| UpdaterOptions.NullIfWhiteSpace | src/DockerUpdater.Worker/Options/UpdaterOptions.cs:138 | null iff blank, otherwise the non-empty trimmed value |
| Text.TrimOfUntrimmed | src/DockerUpdater.Worker/Options/UpdaterOptions.cs:135 | Trim leaves an already trimmed string alone |
| UpdaterOptions.NormalizeCleanName | src/DockerUpdater.Worker/Options/UpdaterOptions.cs:128-136 | a clean name, with or without Docker's leading '/', normalizes to itself |
| UpdaterOptions.NormalizeSpacedName | src/DockerUpdater.Worker/Options/UpdaterOptions.cs:135 | a leading space is trimmed away |
| UpdaterOptions.NormalizeIsNotIdempotent | src/DockerUpdater.Worker/Options/UpdaterOptions.cs:135 | "/ name" normalizes to " name", which normalizes again to "name" |
| UpdaterOptions.ParseBoolOfFormatBool | src/DockerUpdater.Worker/Options/UpdaterOptions.cs:61-74 | a bool printed as .NET prints it parses back to itself |
| UpdaterOptions.ParseDuration | src/DockerUpdater.Worker/Options/UpdaterOptions.cs:86-111 | unset or blank (also present but blank) gives the default; a trimmed 32-bit count followed by s, m or h gives that many seconds, minutes or hours; otherwise the TimeSpan parse or the default; the only failure is an hour count beyond the TimeSpan range |
| UpdaterOptions.ParseDurationOfCount | src/DockerUpdater.Worker/Options/UpdaterOptions.cs:94-107 | "<n>s", "<n>m" and "<n>h" give n seconds, minutes or hours |
| UpdaterOptions.HugeHourTimeoutThrows | src/DockerUpdater.Worker/Options/UpdaterOptions.cs:104-107 | an hour count beyond the TimeSpan range makes loading fail |
| UpdaterOptions.LoadFromEnvironment | src/DockerUpdater.Worker/Options/UpdaterOptions.cs:25-47 | fails iff the timeout is an hour count beyond the TimeSpan range; every option whose variable is unset or blank keeps its default; the stop timeout is what ParseDuration reads; each other option is what its own parser reads from its own variable (EachFieldParsed: ParseBool for the six switches, ParseInt for the poll interval, ParseSet for the two name lists, NullIfWhiteSpace for the texts, "UTC" for a blank time zone); the poll interval is explicit iff its variable is not blank; the Docker host is kept iff it is non-blank and an absolute URI, and then unchanged; the poll interval is positive and the time zone non-empty |
| UpdaterOptions.LoadFromEmptyEnvironment | src/DockerUpdater.Worker/Options/UpdaterOptions.cs:25-47 | an empty environment loads the defaults |
| UpdaterOptions.PollIntervalExplicitEvenIfInvalid | src/DockerUpdater.Worker/Options/UpdaterOptions.cs:29-32 | a non-blank, unparsable poll interval counts as explicitly set yet keeps 86400 |
| OptionsValidator.Validate | src/DockerUpdater.Worker/Options/OptionsValidator.cs:7-44 | no errors iff acceptable, and each message appears iff its own condition holds |
| OptionsValidator.CheckKeepsOrder | src/DockerUpdater.Worker/Options/OptionsValidator.cs:9-43 | adding a message in check order keeps the list ordered |
| OptionsValidator.ValidateInOrder | src/DockerUpdater.Worker/Options/OptionsValidator.cs:7-44 | errors come in check order, without repeats |
| OptionsValidator.DefaultsAreAcceptable | src/DockerUpdater.Worker/Options/OptionsValidator.cs:7-44 | the default options raise no error |
| SelectionPolicy.TrimWhiteSpaceAndNull | src/DockerUpdater.Worker/Update/ContainerSelectionPolicy.cs:22 | neither end of the result is white space or NUL |
| SelectionPolicy.TrimWhiteSpaceAndNullKeeps | src/DockerUpdater.Worker/Update/ContainerSelectionPolicy.cs:22 | a string with non-white ends is left alone |
| SelectionPolicy.TryParseBool | src/DockerUpdater.Worker/Update/ContainerSelectionPolicy.cs:21-24 | "true"/"false" in any case, padded with white space or NUL, parse; nothing else does |
| SelectionPolicy.ShouldMonitor | src/DockerUpdater.Worker/Update/ContainerSelectionPolicy.cs:7-44 | monitored only if allowed by the target list and not disabled; label false excludes; label mode needs label true; otherwise stopped states need IncludeStopped |
| SelectionPolicy.ShouldMonitorWhenAdmitted | src/DockerUpdater.Worker/Update/ContainerSelectionPolicy.cs:26-43 | once the name lists admit a container, the label and state decide exactly as written |
| SelectionPolicy.LabelModeIgnoresState | src/DockerUpdater.Worker/Update/ContainerSelectionPolicy.cs:26-29 | in label mode the container state plays no part |
| SelectionPolicy.BoolWordEnds | src/DockerUpdater.Worker/Update/ContainerSelectionPolicy.cs:22 | a true/false word survives bool.TryParse's trimming |
| SelectionPolicy.EnableLabelValues | src/DockerUpdater.Worker/Update/ContainerSelectionPolicy.cs:21-24 | a padded true/false enable label gives that value |
| RegistryAuth.GetString | src/DockerUpdater.Worker/Docker/RegistryAuthResolver.cs:122-127 | a value only when the property exists and is a JSON string |
| RegistryAuth.SplitCredentials | src/DockerUpdater.Worker/Docker/RegistryAuthResolver.cs:106-114 | splits at the first ':'; fails iff there is no ':' at position 1 or later, or the user is blank |
| RegistryAuth.SplitCredentialsRoundTrip | src/DockerUpdater.Worker/Docker/RegistryAuthResolver.cs:106-114 | "user:password" splits back into user and password |
| RegistryAuth.TryDecodeAuth | src/DockerUpdater.Worker/Docker/RegistryAuthResolver.cs:93-120 | blank gives nothing; a result is a decoding of "user:password" with a non-blank user |
| RegistryAuth.UserAndPassword | src/DockerUpdater.Worker/Docker/RegistryAuthResolver.cs:69-77 | a usable username and password are kept as given, without consulting "auth" |
| RegistryAuth.ParseAuthEntry | src/DockerUpdater.Worker/Docker/RegistryAuthResolver.cs:66-91 | no credentials iff the token is blank and the user or password is blank; otherwise the registry, token, user and password |
| RegistryAuth.PlainCredentialsWin | src/DockerUpdater.Worker/Docker/RegistryAuthResolver.cs:72-90 | explicit username and password are used as they are |
| RegistryAuth.AuthFallbackSupplies | src/DockerUpdater.Worker/Docker/RegistryAuthResolver.cs:72-77 | without them, a decodable "auth" supplies user and password |
| RegistryAuth.TokenSuffices | src/DockerUpdater.Worker/Docker/RegistryAuthResolver.cs:68 | an identity token alone yields credentials carrying it |
| RegistryAuth.ExtractRegistry | src/DockerUpdater.Worker/Docker/RegistryAuthResolver.cs:129-145 | the resolver's registry is exactly ImageReference's registry |
| RegistryAuth.LookupCandidates | src/DockerUpdater.Worker/Docker/RegistryAuthResolver.cs:147-160 | the Docker Hub keys first for Docker Hub, then the registry, https://registry and https://registry/v1/ |
| RegistryAuth.ImplicitRegistryTriesHubKeyFirst | src/DockerUpdater.Worker/Docker/RegistryAuthResolver.cs:149-154 | an image without an explicit registry looks up the Docker Hub key first |
| RegistryAuth.CredentialsAt | src/DockerUpdater.Worker/Docker/RegistryAuthResolver.cs:31-36 | credentials come only from a key holding a JSON object |
| RegistryAuth.FirstCredentialsNone | src/DockerUpdater.Worker/Docker/RegistryAuthResolver.cs:29-41 | nothing is found iff no candidate key yields credentials |
| RegistryAuth.FirstCredentialsIsFirst | src/DockerUpdater.Worker/Docker/RegistryAuthResolver.cs:29-41 | what is found is the first candidate that yields credentials |
| RegistryAuth.LaterKeysIgnored | src/DockerUpdater.Worker/Docker/RegistryAuthResolver.cs:37-40 | keys after the first hit are never consulted |
| RegistryAuth.NoAuthsNoCredentials | src/DockerUpdater.Worker/Docker/RegistryAuthResolver.cs:15-27 | no config, unparsable JSON, or no "auths" object gives no credentials |
| RegistryAuth.ResolvedForRegistry | src/DockerUpdater.Worker/Docker/RegistryAuthResolver.cs:84-90 | resolved credentials name the image's registry as their server |
| RegistryAuth.ResolveForImage | src/DockerUpdater.Worker/Docker/RegistryAuthResolver.cs:12-49 | returns the resolution spec |
| RegistryAuth.TryCandidates | src/DockerUpdater.Worker/Docker/RegistryAuthResolver.cs:29-41 | the foreach returns the first candidate's credentials |
| Runtime.ListStep | src/DockerUpdater.Worker/Update/UpdateCoordinator.cs:29-31 | logs the call; fails iff it faults; returns listed containers, only running ones unless all |
| Runtime.Listed | src/DockerUpdater.Worker/Update/UpdateCoordinator.cs:30 | the filtered listing is a sub-list, and everything when all is asked |
| Runtime.InspectStep | src/DockerUpdater.Worker/Docker/ContainerRecreator.cs:17 | logs the call; returns the inspect record; not-found iff the id is unknown |
| Runtime.StopStep | src/DockerUpdater.Worker/Docker/ContainerRecreator.cs:21-27 | logs the call; a known container ends stopped, and the result says whether it was running |
| Runtime.RemoveStep | src/DockerUpdater.Worker/Docker/ContainerRecreator.cs:29-36 | logs the call; removes exactly that container, and a running one only with force |
| Runtime.CreateStep | src/DockerUpdater.Worker/Docker/ContainerRecreator.cs:69 | logs the call; adds one fresh, stopped container iff the name is free |
| Runtime.StartStep | src/DockerUpdater.Worker/Docker/ContainerRecreator.cs:71-82 | logs the call; true iff the container is known and the start is not refused, and it then runs |
| Runtime.RenameStep | src/DockerUpdater.Worker/Docker/RecoveryProcessor.cs:179-182 | logs the call; renames iff the new name is free |
| Runtime.InspectImageStep | src/DockerUpdater.Worker/Update/UpdateCoordinator.cs:44 | logs the call; returns the local image id iff the image is present |
| Runtime.PullStep | src/DockerUpdater.Worker/Update/UpdateCoordinator.cs:108-116 | logs the call; iff the registry has the image, the local image becomes the registry's; nothing else changes |
| Runtime.DeleteImageStep | src/DockerUpdater.Worker/Update/UpdateCoordinator.cs:123-129 | logs the call; removes every name bound to that image id |
| Runtime.DockerClient.constructor | src/DockerUpdater.Worker/Update/UpdateCoordinator.cs:27 | the client wraps the given daemon |
| Runtime.DockerClient.ListContainers | src/DockerUpdater.Worker/Update/UpdateCoordinator.cs:29-31 | performs ListStep |
| Runtime.DockerClient.InspectContainer | src/DockerUpdater.Worker/Docker/ContainerRecreator.cs:17 | performs InspectStep |
| Runtime.DockerClient.StopContainer | src/DockerUpdater.Worker/Docker/ContainerRecreator.cs:23-26 | performs StopStep |
| Runtime.DockerClient.RemoveContainer | src/DockerUpdater.Worker/Docker/ContainerRecreator.cs:29-36 | performs RemoveStep |
| Runtime.DockerClient.CreateContainer | src/DockerUpdater.Worker/Docker/ContainerRecreator.cs:69 | performs CreateStep |
| Runtime.DockerClient.StartContainer | src/DockerUpdater.Worker/Docker/ContainerRecreator.cs:73-76 | performs StartStep |
| Runtime.DockerClient.RenameContainer | src/DockerUpdater.Worker/Docker/RecoveryProcessor.cs:179-182 | performs RenameStep |
| Runtime.DockerClient.InspectImage | src/DockerUpdater.Worker/Update/UpdateCoordinator.cs:44 | performs InspectImageStep |
| Runtime.DockerClient.CreateImage | src/DockerUpdater.Worker/Update/UpdateCoordinator.cs:108-116 | performs PullStep |
| Runtime.DockerClient.DeleteImage | src/DockerUpdater.Worker/Update/UpdateCoordinator.cs:123-129 | performs DeleteImageStep |
| RecoveryProcessor.ExistsStep | src/DockerUpdater.Worker/Docker/RecoveryProcessor.cs:207-221 | true iff the container exists, false iff it does not, and other errors escape |
| RecoveryProcessor.NewStateStep | src/DockerUpdater.Worker/Docker/RecoveryProcessor.cs:223-243 | no id gives (false, false) without a call; otherwise it reports whether the container exists and runs; running implies existing |
| RecoveryProcessor.ProbeStep | src/DockerUpdater.Worker/Docker/RecoveryProcessor.cs:52-53 | probes the backup, then the replacement, and reports what exists and what runs |
| RecoveryProcessor.Decide | src/DockerUpdater.Worker/Docker/RecoveryProcessor.cs:55-93 | neither found gives complete-only; a running replacement gives clean-up; a stopped one is started only when wanted; only a lone backup rolls back |
| RecoveryProcessor.TryStartStep | src/DockerUpdater.Worker/Docker/RecoveryProcessor.cs:96-121 | reports started only when the start call returned true, and an exception counts as false |
| RecoveryProcessor.CleanupStep | src/DockerUpdater.Worker/Docker/RecoveryProcessor.cs:123-150 | probes the backup, force-removes it only when found, and fails only when the probe fails |
| RecoveryProcessor.NeitherFoundOnlyCompletes | src/DockerUpdater.Worker/Docker/RecoveryProcessor.cs:55-62 | with neither container found, no call is made |
| RecoveryProcessor.RunningReplacementIsKept | src/DockerUpdater.Worker/Docker/RecoveryProcessor.cs:64-69 | a running replacement is kept and only the backup is cleaned up, with no start and no rename |
| RecoveryProcessor.StoppedReplacementNotStarted | src/DockerUpdater.Worker/Docker/RecoveryProcessor.cs:85-90 | a stopped replacement of a container that was not running is left stopped and cleaned up |
| RecoveryProcessor.StoppedReplacementStarted | src/DockerUpdater.Worker/Docker/RecoveryProcessor.cs:73-84 | a wanted replacement is started; success cleans up and failure rolls back |
| RecoveryProcessor.BackupOnlyRollsBack | src/DockerUpdater.Worker/Docker/RecoveryProcessor.cs:93 | a lone backup is renamed back, and restarted only when it was running |
| RecoveryProcessor.RollbackCalls | src/DockerUpdater.Worker/Docker/RecoveryProcessor.cs:152-205 | the replacement is removed when it exists; the backup is renamed, then started if it was running and the rename worked |
| RecoveryProcessor.EntryActsOnProbe | src/DockerUpdater.Worker/Docker/RecoveryProcessor.cs:52-93 | after two successful probes the entry acts on what they found, and what they found is the real state of the backup and the replacement; the probes change no container |
| RecoveryProcessor.NeitherFoundAtEntry | src/DockerUpdater.Worker/Docker/RecoveryProcessor.cs:52-62 | when neither container exists, the entry is only completed after the probes |
| RecoveryProcessor.RunningReplacementKeptAtEntry | src/DockerUpdater.Worker/Docker/RecoveryProcessor.cs:52-69 | when the replacement exists and is running, only the backup cleanup follows the probes: no start, no rename |
| RecoveryProcessor.StoppedReplacementAtEntry | src/DockerUpdater.Worker/Docker/RecoveryProcessor.cs:52-93 | when the replacement exists and is stopped, it is started iff the entry was running or asks for revival; a successful start cleans up, a failed one rolls back, and otherwise only the cleanup runs |
| RecoveryProcessor.BackupOnlyAtEntry | src/DockerUpdater.Worker/Docker/RecoveryProcessor.cs:52-93 | when only the backup exists, it is renamed back and restarted after a successful rename iff the original was running |
| RecoveryProcessor.ProbeFailureEscapes | src/DockerUpdater.Worker/Docker/RecoveryProcessor.cs:52-53 | a failed probe ends the entry with that error and changes nothing more |
| RecoveryProcessor.StartOnlyWhenWanted | src/DockerUpdater.Worker/Docker/RecoveryProcessor.cs:71-81 | a start happens only for a stopped, existing replacement of a container that ran or is revived |
| RecoveryProcessor.ContainerExists | src/DockerUpdater.Worker/Docker/RecoveryProcessor.cs:207-221 | performs ExistsStep |
| RecoveryProcessor.InspectNewContainerState | src/DockerUpdater.Worker/Docker/RecoveryProcessor.cs:223-243 | performs NewStateStep |
| RecoveryProcessor.RecoveryProcessor.constructor | src/DockerUpdater.Worker/Docker/RecoveryProcessor.cs:6-8 | the processor works on the given journal |
| RecoveryProcessor.RecoveryProcessor.RecoverAsync | src/DockerUpdater.Worker/Docker/RecoveryProcessor.cs:10-38 | an empty journal changes nothing; otherwise every entry is processed in order, the journal ends empty, its last flush (when it reached the disk) wrote the empty list, and when no flush reached the disk the file is unchanged |
| RecoveryProcessor.RecoveryProcessor.RecoverNext | src/DockerUpdater.Worker/Docker/RecoveryProcessor.cs:22-37 | one entry is recovered or, on an error, completed anyway; its name leaves the journal, and it has flushed since (the last flush, if it reached the disk, wrote the new list; if none did, the file is unchanged) |
| RecoveryProcessor.RecoveryProcessor.RecoverEntry | src/DockerUpdater.Worker/Docker/RecoveryProcessor.cs:40-94 | performs EntryStep and updates the journal as the branch taken does |
| RecoveryProcessor.RecoveryProcessor.RecoverProbed | src/DockerUpdater.Worker/Docker/RecoveryProcessor.cs:55-93 | the branches after both probes: exactly Act on the daemon, with the journal list, file and flush count it implies |
| RecoveryProcessor.RecoveryProcessor.TryStartNewContainer | src/DockerUpdater.Worker/Docker/RecoveryProcessor.cs:96-121 | records Started only when the start worked |
| RecoveryProcessor.RecoveryProcessor.CleanupBackup | src/DockerUpdater.Worker/Docker/RecoveryProcessor.cs:123-150 | completes the entry unless the probe threw |
| RecoveryProcessor.RecoveryProcessor.Rollback | src/DockerUpdater.Worker/Docker/RecoveryProcessor.cs:152-205 | rolls back and always completes the entry |
| RecoveryProcessor.StepRemovesName | src/DockerUpdater.Worker/Docker/RecoveryProcessor.cs:28-36 | whatever branch ran, the entry's name leaves the pending names |
| RecoveryProcessor.AfterEntry | src/DockerUpdater.Worker/Docker/RecoveryProcessor.cs:40-94 | one entry flushes at most twice; flushes that all fail leave the file; a completed entry has flushed the list without it; after an error, completing it gives that same list |
| RecoveryProcessor.FlushOnce | src/DockerUpdater.Worker/Docker/RecoveryJournal.cs:75-102 | one more flush after flushes that kept the file when all failed counts as having flushed the new list |
| RecoveryProcessor.FlushedSinceChain | src/DockerUpdater.Worker/Docker/RecoveryJournal.cs:89-102 | having flushed since the n0-th and then since the n1-th flush is having flushed since the n0-th |
| RecoveryProcessor.NoneOfRangeSplit | src/DockerUpdater.Worker/Docker/RecoveryJournal.cs:89-102 | no flush of a range reached the disk iff none of either part did |
| ContainerRecreator.CopyEndpoint | src/DockerUpdater.Worker/Docker/ContainerRecreator.cs:55-65 | copies exactly the eight endpoint members, leaving endpoint id and links unset |
| ContainerRecreator.CreateParams | src/DockerUpdater.Worker/Docker/ContainerRecreator.cs:38-67 | same name and new image; config members copied, or none without a config; host config kept; every network copied |
| ContainerRecreator.CreatedKeepsConfiguration | src/DockerUpdater.Worker/Docker/ContainerRecreator.cs:38-69 | the created container has the old name, the new image and the old configuration, and is stopped |
| ContainerRecreator.CeilSecondsBounds | src/DockerUpdater.Worker/Docker/ContainerRecreator.cs:25 | the ceiling of the timeout in seconds is the least whole count covering it |
| ContainerRecreator.WaitBeforeKillSeconds | src/DockerUpdater.Worker/Docker/ContainerRecreator.cs:25 | the ceiling, clamped to the uint range |
| ContainerRecreator.WholeSecondsWait | src/DockerUpdater.Worker/Docker/ContainerRecreator.cs:25 | a whole number of seconds is passed unchanged |
| ContainerRecreator.CreateStageCalls | src/DockerUpdater.Worker/Docker/ContainerRecreator.cs:69-82 | create, then start when wanted; complete on success, a prefix otherwise |
| ContainerRecreator.ReplaceStageCalls | src/DockerUpdater.Worker/Docker/ContainerRecreator.cs:29-82 | remove, create, start: success swaps the old id for the new one |
| ContainerRecreator.StopAndReplaceCalls | src/DockerUpdater.Worker/Docker/ContainerRecreator.cs:21-82 | stop only when running, then replace |
| ContainerRecreator.InspectFailureStops | src/DockerUpdater.Worker/Docker/ContainerRecreator.cs:17 | a failed inspect ends the recreation after that one call |
| ContainerRecreator.RecreateFollowsPlan | src/DockerUpdater.Worker/Docker/ContainerRecreator.cs:9-85 | the calls issued are a prefix of inspect, stop if running, remove, create, start if wanted; on success all of them, and the old id is replaced by the new |
| ContainerRecreator.RecreateAfterInspect | src/DockerUpdater.Worker/Docker/ContainerRecreator.cs:17-19 | after the inspect, the name, running flag and parameters come from the inspect record |
| ContainerRecreator.PlanAfterInspect | src/DockerUpdater.Worker/Docker/ContainerRecreator.cs:21-71 | the plan is the inspect call followed by the stop-and-replace calls |
| ContainerRecreator.StartReportedFalseFails | src/DockerUpdater.Worker/Docker/ContainerRecreator.cs:78-81 | a start that reports false gives "Failed to start recreated container '<name>'." |
| ContainerRecreator.Recreate | src/DockerUpdater.Worker/Docker/ContainerRecreator.cs:9-85 | performs RecreateStep |
| SelfUpdate.ToLowerPrefix | src/DockerUpdater.Worker/Update/SelfUpdateLauncher.cs:28-29 | folding commutes with taking a prefix |
| SelfUpdate.IsSelf | src/DockerUpdater.Worker/Update/SelfUpdateLauncher.cs:20-30 | self iff the own id is set and non-empty and one id, lower-cased, is a prefix of the other |
| SelfUpdate.IsSelfSymmetric | src/DockerUpdater.Worker/Update/SelfUpdateLauncher.cs:28-29 | the test is symmetric in the two non-empty ids |
| SelfUpdate.ShortIdIsSelf | src/DockerUpdater.Worker/Update/SelfUpdateLauncher.cs:28-29 | a HOSTNAME that is a short form of the id, in any case, is self |
| SelfUpdate.FirstWithPrefix | src/DockerUpdater.Worker/Update/SelfUpdateLauncher.cs:105-106 | finds the first entry starting with the prefix, case-insensitively, or -1 iff none does |
| SelfUpdate.Inherited | src/DockerUpdater.Worker/Update/SelfUpdateLauncher.cs:102-112 | at most one setting, taken from the updater's own environment |
| SelfUpdate.PropagateEnv | src/DockerUpdater.Worker/Update/SelfUpdateLauncher.cs:102-112 | appends the inherited setting, if any |
| SelfUpdate.InheritedIsFirstSetting | src/DockerUpdater.Worker/Update/SelfUpdateLauncher.cs:104-111 | a setting is inherited iff one exists, and it is the first "KEY=" entry, in any case |
| SelfUpdate.Copied | src/DockerUpdater.Worker/Update/SelfUpdateLauncher.cs:55-62 | the copied settings come from the updater's environment, at most one per key |
| SelfUpdate.HelperEnvShape | src/DockerUpdater.Worker/Update/SelfUpdateLauncher.cs:45-62 | the five helper settings first, then only settings copied from the updater |
| SelfUpdate.EnvValueFinds | src/DockerUpdater.Worker/Update/SelfUpdateLauncher.cs:45-53 | a first "KEY=value" entry is read back as value |
| SelfUpdate.SettingsReadBack | src/DockerUpdater.Worker/Update/SelfUpdateLauncher.cs:45-53 | the helper reads back run-once true, only the updater's name, label mode off, the cleanup flag and the timeout |
| SelfUpdate.LeadingSettingsReadBack | src/DockerUpdater.Worker/Update/SelfUpdateLauncher.cs:47-49 | the first three settings read back as written |
| SelfUpdate.TrailingSettingsReadBack | src/DockerUpdater.Worker/Update/SelfUpdateLauncher.cs:51-52 | the cleanup and timeout settings read back as written |
| SelfUpdate.SettingNamesDiffer | src/DockerUpdater.Worker/Options/EnvNames.cs:10-18 | the five setting names differ early enough to be told apart |
| SelfUpdate.OtherKey | src/DockerUpdater.Worker/Update/SelfUpdateLauncher.cs:45-53 | an entry for a different key does not match "KEY=" |
| SelfUpdate.EnvValueAt | src/DockerUpdater.Worker/Update/SelfUpdateLauncher.cs:45-53 | the first matching entry decides the value read back |
| SelfUpdate.HelperOptions | src/DockerUpdater.Worker/Update/SelfUpdateLauncher.cs:45-53 | the helper loads options that run once, target the set the updater's name parses to, have label mode off and keep cleanup and a whole-second timeout |
| SelfUpdate.HelperTargetsOnlyUpdater | src/DockerUpdater.Worker/Update/SelfUpdateLauncher.cs:45-53 | for a container name (no ',' or ' ', no white space at its ends, no leading '/') the helper targets exactly that one container, lower-cased |
| SelfUpdate.HelperName | src/DockerUpdater.Worker/Update/SelfUpdateLauncher.cs:42 | the prefix followed by eight GUID characters |
| SelfUpdate.CopiedSnoc | src/DockerUpdater.Worker/Update/SelfUpdateLauncher.cs:55-62 | one more key appends that key's inherited setting |
| SelfUpdate.CopiedStep | src/DockerUpdater.Worker/Update/SelfUpdateLauncher.cs:55-62 | one PropagateEnv call extends the copied settings by one key |
| SelfUpdate.BuildHelperEnv | src/DockerUpdater.Worker/Update/SelfUpdateLauncher.cs:45-62 | builds the helper environment, settings then the copied keys in order |
| SelfUpdate.LaunchHelper | src/DockerUpdater.Worker/Update/SelfUpdateLauncher.cs:32-100 | performs LaunchStep |
| SelfUpdate.CreateAndStartHelper | src/DockerUpdater.Worker/Update/SelfUpdateLauncher.cs:81-93 | creates and starts the helper; a false start gives "Failed to start self-update helper container '<name>'." |
| SelfUpdate.HelperParamsShape | src/DockerUpdater.Worker/Update/SelfUpdateLauncher.cs:64-79 | helper name and new image, auto-remove, the updater's binds and network mode, the enable label false, and the helper environment |
| SelfUpdate.HelperNeverMonitored | src/DockerUpdater.Worker/Update/SelfUpdateLauncher.cs:75-78 | the helper's own label keeps it out of every session |
| SelfUpdate.CreateAndStartCalls | src/DockerUpdater.Worker/Update/SelfUpdateLauncher.cs:81-93 | success is exactly create then start of a new, running container; existing containers are untouched |
| SelfUpdate.LaunchCalls | src/DockerUpdater.Worker/Update/SelfUpdateLauncher.cs:32-100 | success is exactly inspect, create, start of a new running helper; existing containers are untouched |
| UpdateCoordinator.FoldLabels | src/DockerUpdater.Worker/Update/UpdateCoordinator.cs:97-99 | every label is found under its folded key, and no other key appears |
| UpdateCoordinator.DisplayName | src/DockerUpdater.Worker/Update/UpdateCoordinator.cs:90 | the first name, otherwise the first 12 characters of the id; fails iff there is no name and the id is shorter |
| UpdateCoordinator.ToContainerRef | src/DockerUpdater.Worker/Update/UpdateCoordinator.cs:88-101 | id, image and image id kept; name normalized; state or ""; labels folded; fails iff the name fails or two label keys collide |
| UpdateCoordinator.LabelsIgnoreCase | src/DockerUpdater.Worker/Update/UpdateCoordinator.cs:97-99 | a label is found under any spelling of its key |
| UpdateCoordinator.EnableLabelIsFolded | src/DockerUpdater.Worker/Options/EnvNames.cs:37 | the enable label key is already lower case |
| UpdateCoordinator.EnableLabelAnyCase | src/DockerUpdater.Worker/Update/UpdateCoordinator.cs:97-99 | the enable label is read whatever the case of its key |
| UpdateCoordinator.FailedResult | src/DockerUpdater.Worker/Update/UpdateCoordinator.cs:76-80 | a failure records the exception message |
| UpdateCoordinator.TryDeleteImageStep | src/DockerUpdater.Worker/Update/UpdateCoordinator.cs:119-135 | issues one non-forced delete and never fails the update |
| UpdateCoordinator.ReplaceStep | src/DockerUpdater.Worker/Update/UpdateCoordinator.cs:54-74 | replacing ends Updated or Failed, under the container's name and image |
| UpdateCoordinator.ImageCheck | src/DockerUpdater.Worker/Update/UpdateCoordinator.cs:44-46 | inspect, pull and inspect leave the containers alone |
| UpdateCoordinator.UpdateStep | src/DockerUpdater.Worker/Update/UpdateCoordinator.cs:42-80 | never Skipped; Fresh iff both inspects worked and the ids are equal, ignoring case |
| UpdateCoordinator.ContainerStep | src/DockerUpdater.Worker/Update/UpdateCoordinator.cs:33-81 | one result per container, under its name and image; an error only when the reference cannot be built |
| UpdateCoordinator.RunAllNext | src/DockerUpdater.Worker/Update/UpdateCoordinator.cs:33-81 | one more loop round appends that container's result |
| UpdateCoordinator.RunAllStopsAtError | src/DockerUpdater.Worker/Update/UpdateCoordinator.cs:33-35 | an error escaping the loop ends the session there |
| UpdateCoordinator.InspectImageKeeps | src/DockerUpdater.Worker/Update/UpdateCoordinator.cs:44 | an image inspect only logs one call |
| UpdateCoordinator.PullKeeps | src/DockerUpdater.Worker/Update/UpdateCoordinator.cs:103-117 | the pull works iff the registry has the image, and then updates only that local image |
| UpdateCoordinator.ImageCheckLog | src/DockerUpdater.Worker/Update/UpdateCoordinator.cs:44-46 | the calls are inspect, pull, inspect, or the prefix up to the failing one |
| UpdateCoordinator.ImageCheckSucceeds | src/DockerUpdater.Worker/Update/UpdateCoordinator.cs:44-46 | the check works iff none of its calls fault and the image is both local and in the registry |
| UpdateCoordinator.ImageCheckIds | src/DockerUpdater.Worker/Update/UpdateCoordinator.cs:44-48 | the ids compared are the local id before and the registry's id after |
| UpdateCoordinator.FreshIffUpstreamUnchanged | src/DockerUpdater.Worker/Update/UpdateCoordinator.cs:44-52 | Fresh iff the registry's id equals the local one, ignoring case; a fresh container only costs the three calls |
| UpdateCoordinator.CheckFailureIsRecorded | src/DockerUpdater.Worker/Update/UpdateCoordinator.cs:76-80 | a failed check records Failed with its message and touches no container |
| UpdateCoordinator.SelfUpdateOnlyLaunchesHelper | src/DockerUpdater.Worker/Update/UpdateCoordinator.cs:54-59 | the updater never recreates itself: it launches the helper and touches no existing container; the outcome is Updated with the delegation note iff the launch succeeds; a refused or failed launch is Failed with the launch error's message, which for a helper that did not start names the helper |
| UpdateCoordinator.ChangedImageCleansUpOldId | src/DockerUpdater.Worker/Update/UpdateCoordinator.cs:44-80 | for another container whose image id changed: a failed recreate is Failed with its message; a successful one is Updated and then deletes the image id read before the pull, exactly when cleanup is on |
| UpdateCoordinator.ChangedSelfImageLaunchesHelper | src/DockerUpdater.Worker/Update/UpdateCoordinator.cs:44-59 | for the updater's own container whose image id changed under self-update: the helper is launched on the daemon after the image check; Updated with the delegation note iff the launch succeeds, else Failed with its message |
| UpdateCoordinator.CleanupOnlyAfterRecreate | src/DockerUpdater.Worker/Update/UpdateCoordinator.cs:61-74 | a failed recreate is Failed with its message; a successful one is Updated and deletes the old image only when cleanup is on |
| UpdateCoordinator.SkipIffNotMonitored | src/DockerUpdater.Worker/Update/UpdateCoordinator.cs:36-40 | Skipped iff the policy refuses the container, and a skip makes no call |
| UpdateCoordinator.AllSnapshotSnoc | src/DockerUpdater.Worker/Update/UpdateCoordinator.cs:33-35 | every container converts iff the prefix does and the last one does |
| UpdateCoordinator.LoopCompletes | src/DockerUpdater.Worker/Update/UpdateCoordinator.cs:33-81 | the loop finishes iff every listed container converts to a reference |
| UpdateCoordinator.ResultsMatchSnoc | src/DockerUpdater.Worker/Update/UpdateCoordinator.cs:33-81 | appending a matching result keeps results and containers in step |
| UpdateCoordinator.OneResultPerContainer | src/DockerUpdater.Worker/Update/UpdateCoordinator.cs:33-81 | the i-th result belongs to the i-th listed container |
| UpdateCoordinator.SessionSucceedsIff | src/DockerUpdater.Worker/Update/UpdateCoordinator.cs:22-86 | a session finishes iff the listing works and every container converts |
| UpdateCoordinator.SessionCoversListing | src/DockerUpdater.Worker/Update/UpdateCoordinator.cs:22-86 | Scanned is the number listed; results follow the listing; only running containers unless IncludeStopped |
| UpdateCoordinator.Notifier.constructor | src/DockerUpdater.Notifications/DiscordNotifier.cs:7 | nothing is sent yet |
| UpdateCoordinator.Notifier.NotifySession | src/DockerUpdater.Worker/Update/UpdateCoordinator.cs:84 | records the session sent |
| UpdateCoordinator.Coordinator.constructor | src/DockerUpdater.Worker/Update/UpdateCoordinator.cs:12-20 | the coordinator keeps its collaborators |
| UpdateCoordinator.Coordinator.RunSession | src/DockerUpdater.Worker/Update/UpdateCoordinator.cs:22-86 | performs SessionStep and notifies exactly once per finished session |
| UpdateCoordinator.Coordinator.VisitContainer | src/DockerUpdater.Worker/Update/UpdateCoordinator.cs:35-81 | performs ContainerStep |
| UpdateCoordinator.Coordinator.UpdateContainer | src/DockerUpdater.Worker/Update/UpdateCoordinator.cs:42-80 | performs UpdateStep |
| UpdateCoordinator.Coordinator.PullImage | src/DockerUpdater.Worker/Update/UpdateCoordinator.cs:103-117 | performs PullImageStep: the pull uses the credentials resolved for the image |
| UpdateCoordinator.Coordinator.TryDeleteImage | src/DockerUpdater.Worker/Update/UpdateCoordinator.cs:119-135 | performs TryDeleteImageStep |
| NotificationComposer.Detail | src/DockerUpdate.Notifications/NotificationComposer.cs:18 | empty iff the error is null or blank, otherwise " (error)" |
| NotificationComposer.ReportLinesConcat | src/DockerUpdate.Notifications/NotificationComposer.cs:14-21 | the lines of concatenated results are the concatenated lines |
| NotificationComposer.ReportLinesSingle | src/DockerUpdate.Notifications/NotificationComposer.cs:16-20 | a result gets a line iff it is Updated or Failed |
| NotificationComposer.UnreportedAddsNoLine | src/DockerUpdate.Notifications/NotificationComposer.cs:16 | a fresh or skipped result adds no line wherever it stands |
| NotificationComposer.ReportLinesCount | src/DockerUpdate.Notifications/NotificationComposer.cs:14-21 | one line per updated or failed result |
| NotificationComposer.LineCount | src/DockerUpdate.Notifications/NotificationComposer.cs:8-24 | 2 + Updated + Failed lines, title and counts first |
| NotificationComposer.RenderSnoc | src/DockerUpdate.Notifications/NotificationComposer.cs:19 | AppendLine adds the line and one new-line |
| NotificationComposer.Compose | src/DockerUpdate.Notifications/NotificationComposer.cs:8-24 | the text is the title, the counts and the result lines, each ended by a new-line |
| NotificationComposer.RenderNext | src/DockerUpdate.Notifications/NotificationComposer.cs:14-21 | one loop round appends the result's line iff it is reported |
| NotificationComposer.ThreeResultMessage | src/DockerUpdate.Notifications/NotificationComposer.cs:8-24 | a sample session renders its four lines exactly |
| NotificationComposer.ReportedAroundUnreported | src/DockerUpdate.Notifications/NotificationComposer.cs:14-21 | an unreported result between two reported ones leaves just their two lines |
| DiscordNotifier.ResolveWebhookUrl | src/DockerUpdater.Notifications/DiscordNotifier.cs:33-51 | the webhook URL, else an https notification URL, else none; never blank |
| DiscordNotifier.SessionPost | src/DockerUpdater.Notifications/DiscordNotifier.cs:9-31 | a post is made iff a URL resolves, to that URL |
| DiscordNotifier.WebhookWins | src/DockerUpdater.Notifications/DiscordNotifier.cs:35-38 | a set webhook URL is always used |
| DiscordNotifier.FallbackOnlyForHttps | src/DockerUpdater.Notifications/DiscordNotifier.cs:40-50 | without it, the notification URL is used iff it starts with https://, in any case |
| DiscordNotifier.HttpsIsNotBlank | src/DockerUpdater.Notifications/DiscordNotifier.cs:45 | an https URL is never blank |
| DiscordNotifier.PostCarriesSummary | src/DockerUpdater.Notifications/DiscordNotifier.cs:17 | the posted content is the composed summary, of 2 + Updated + Failed lines |

## Left out

- I/O and the clock:
  - The file system is a field of the journal; writing it either succeeds or fails as a whole.
  - Environment reads are a map.
  - The start and finish times of a session are parameters.
  - `Directory.CreateDirectory` and the temporary-file rename inside `Flush` are not modelled beyond success or failure.
- Logging, cancellation tokens, `async` and the `lock` in the recovery journal are left out. The model is sequential.
- Foreign parsers are oracles given as parameters:
  - JSON serialization of the journal and JSON parsing of the Docker config;
  - base64 decoding, the cron expression parser, `Uri.TryCreate` and `TimeSpan.TryParse`.
- JSON objects with duplicate keys are not modelled; a JSON object is a map.
- `RegistryAuthResolver` caches the config text in a `Lazy`. The model reads it from the `AuthSource` parameter, which never changes.
- HTTP posting is reduced to the `(url, content)` pair that would be posted. The response status is not modelled, and a failed post is only logged.
- GUIDs are parameters, keyed by the position of the call in the daemon log.
- The fractional formatting of `StopTimeout.TotalSeconds` is a parameter. Only whole-second timeouts are read back (SelfUpdate.HelperOptions).
- Case-insensitive comparison (`OrdinalIgnoreCase`, `ToLowerInvariant`) folds ASCII letters only. Non-ASCII case mappings are not modelled.
- `string.IsNullOrWhiteSpace` uses the Unicode white-space set as listed in the Text module.
- `Environment.NewLine` is "\n", as on the Linux hosts the updater runs in.
- DiscordNotifier.PostCarriesSummary: `DiscordNotifier.cs` calls a two-argument `Compose(session, template)` that `NotificationComposer.cs` does not declare. The model posts the one-argument composition, and the message template has no effect.
- UpdateCoordinator.FoldLabels: a label dictionary whose keys collide when case is ignored throws in `new Dictionary(..., OrdinalIgnoreCase)`. The model reports this as an error that ends the session; the exception message and the colliding key are not modelled.
- UpdateCoordinator.DisplayName: an id shorter than 12 characters throws in `ID[..12]`. The model reports an error and does not model the exception type.
- The updater's own container id (`HOSTNAME`) is a parameter of the session (`ownId`).
- The self-update flag is part of the collaborators, and the launcher uses the session's client. Creating a second client through `IDockerClientFactory` is not modelled.
- The helper's start is reported by the daemon's refusal set. The 12-character id in the log message is not modelled.
- The daemon is abstract:
  - each call either faults (by call number), fails for a stated reason, or succeeds;
  - the rename of a container other than the backup, networks and volumes are not simulated;
  - images are a map from name to id, and a pull replaces the local id with the registry's.
- The worker host, scheduling (`RunScheduler`, `UpdateJob`, `TimeZoneResolver`, `Worker.cs`, `Program.cs`), `DockerClientFactory`, the SMTP and composite notifiers, and the backup-rename side of recreation are not part of this model. `ContainerRecreator.cs` as given creates no backup and never calls the journal, although `RecoveryEntry.cs:19` carries a `BackupContainerId` and the rollback path of `RecoveryProcessor.cs:152-205` renames that backup back; the model follows `ContainerRecreator.cs`.
- Integer widths:
  - Poll interval and timeout counts are parsed as 32-bit integers.
  - `TimeSpan` ticks are unbounded, except where `FromHours` overflows (UpdaterOptions.HugeHourTimeoutThrows).
  - The stop wait is clamped to the `uint` range. The source's cast of a value outside that range is unchecked; the model clamps instead of wrapping.
