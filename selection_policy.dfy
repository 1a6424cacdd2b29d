/**
 * `ContainerRef`, the per-session snapshot of a listed container, and
 * `ContainerSelectionPolicy.ShouldMonitor`, which decides whether the updater
 * looks at it.
 */
module SelectionPolicy {
  import opened Wrappers
  import opened Text
  import opened UpdaterOptions

  /**
   * A container as listed. Label keys are compared case-insensitively by the
   * coordinator, which stores them folded (see `UpdateCoordinator.ToContainerRef`).
   */
  datatype ContainerRef = ContainerRef(
    id: string, name: string, image: string, imageId: string,
    labels: map<string, string>, state: string)

  /** `bool.TryParse`'s trimming: white space and NUL characters at both ends. */
  predicate IsWhiteSpaceOrNull(c: char) {
    IsWhiteSpace(c) || c == '\0'
  }

  function TrimWhiteSpaceAndNull(s: string): (r: string)
    ensures |r| <= |s|
    ensures r == [] || (!IsWhiteSpaceOrNull(r[0]) && !IsWhiteSpaceOrNull(r[|r| - 1]))
  {
    if s == [] then s
    else if IsWhiteSpaceOrNull(s[0]) then TrimWhiteSpaceAndNull(s[1..])
    else if IsWhiteSpaceOrNull(s[|s| - 1]) then TrimWhiteSpaceAndNull(s[..|s| - 1])
    else s
  }

  lemma TrimWhiteSpaceAndNullKeeps(s: string)
    requires s != [] && !IsWhiteSpaceOrNull(s[0]) && !IsWhiteSpaceOrNull(s[|s| - 1])
    ensures TrimWhiteSpaceAndNull(s) == s
  {
  }

  /** `bool.TryParse`: "True" or "False" in any ASCII case; null never parses. */
  function TryParseBool(s: Option<string>): (r: Option<bool>)
    ensures r == Some(true) ==> s.Some? && EqualsIgnoreCase(TrimWhiteSpaceAndNull(s.value), "True")
    ensures r == Some(false) ==> s.Some? && EqualsIgnoreCase(TrimWhiteSpaceAndNull(s.value), "False")
    ensures r.None? <==> s.None? || !(EqualsIgnoreCase(TrimWhiteSpaceAndNull(s.value), "True")
                                      || EqualsIgnoreCase(TrimWhiteSpaceAndNull(s.value), "False"))
  {
    if s.None? then None
    else
      var t := TrimWhiteSpaceAndNull(s.value);
      if EqualsIgnoreCase(t, "True") then Some(true)
      else if EqualsIgnoreCase(t, "False") then Some(false)
      else None
  }

  /** The enable label, when it is present and holds a boolean. */
  function LabelEnabled(labels: map<string, string>): Option<bool> {
    if EnableLabel in labels then TryParseBool(Some(Trim(labels[EnableLabel]))) else None
  }

  predicate StoppedState(state: string) {
    EqualsIgnoreCase(state, "exited") || EqualsIgnoreCase(state, "created")
  }

  function ShouldMonitor(o: Options, c: ContainerRef): (r: bool)
    ensures var n := NormalizeContainerName(Some(c.name));
      r ==> (o.targetContainers == {} || SetContains(o.targetContainers, n))
            && !SetContains(o.disableContainers, n)
    ensures LabelEnabled(c.labels) == Some(false) ==> !r
    ensures o.labelEnable && r ==> LabelEnabled(c.labels) == Some(true)
    ensures !o.labelEnable && r ==> o.includeStopped || !StoppedState(c.state)
  {
    var n := NormalizeContainerName(Some(c.name));
    if |o.targetContainers| > 0 && !SetContains(o.targetContainers, n) then false
    else if SetContains(o.disableContainers, n) then false
    else
      var labelEnabled := LabelEnabled(c.labels);
      if o.labelEnable then labelEnabled == Some(true)
      else if labelEnabled == Some(false) then false
      else if !o.includeStopped && StoppedState(c.state) then false
      else true
  }

  /**
   * The converse: a container that passes the name filters is monitored
   * exactly when its label opts it in (label mode), or when it does not opt
   * out and is running or stopped containers are included.
   */
  lemma ShouldMonitorWhenAdmitted(o: Options, c: ContainerRef)
    requires var n := NormalizeContainerName(Some(c.name));
      (o.targetContainers == {} || SetContains(o.targetContainers, n))
      && !SetContains(o.disableContainers, n)
    ensures ShouldMonitor(o, c) ==
      if o.labelEnable then LabelEnabled(c.labels) == Some(true)
      else LabelEnabled(c.labels) != Some(false) && (o.includeStopped || !StoppedState(c.state))
  {
  }

  /** In label mode the stopped-state filter is not applied. */
  lemma LabelModeIgnoresState(o: Options, c: ContainerRef, state: string)
    requires o.labelEnable
    ensures ShouldMonitor(o, c) == ShouldMonitor(o, c.(state := state))
  {
  }

  lemma BoolWordsFolded()
    ensures ToLower("True") == "true" && ToLower("False") == "false"
  {
    var t := ToLower("True");
    assert t[0] == 't' && t[1] == 'r' && t[2] == 'u' && t[3] == 'e';
    var f := ToLower("False");
    assert f[0] == 'f' && f[1] == 'a' && f[2] == 'l' && f[3] == 's' && f[4] == 'e';
  }

  /** A word equal to "true" or "false" up to case is four or five ASCII letters. */
  lemma BoolWordEnds(word: string)
    requires EqualsIgnoreCase(word, "True") || EqualsIgnoreCase(word, "False")
    ensures word != [] && !IsWhiteSpace(word[0]) && !IsWhiteSpace(word[|word| - 1])
    ensures TrimWhiteSpaceAndNull(word) == word
  {
    BoolWordsFolded();
    var lw := ToLower(word);
    assert lw[0] == LowerChar(word[0]) && lw[|word| - 1] == LowerChar(word[|word| - 1]);
    assert 'a' <= lw[0] <= 'z' && 'a' <= lw[|word| - 1] <= 'z';
    LowerCharOfLetter(word[0]);
    LowerCharOfLetter(word[|word| - 1]);
    TrimWhiteSpaceAndNullKeeps(word);
  }

  /** The enable label reads "true" and "false" in any ASCII case and with surrounding blanks. */
  lemma EnableLabelValues(labels: map<string, string>, word: string, pad: string)
    requires EqualsIgnoreCase(word, "True") || EqualsIgnoreCase(word, "False")
    requires EnableLabel in labels && IsBlank(pad) && labels[EnableLabel] == pad + (word + pad)
    ensures LabelEnabled(labels) == Some(EqualsIgnoreCase(word, "True"))
  {
    BoolWordEnds(word);
    TrimPadded(pad, word, pad);
    BoolWordsFolded();
  }
}
