/** The optional pod-source override document and its validator
    (`ValidateSourceConfig` in measure_cocoapod_size.py). The document is
    read as JSON with insertion order kept, so each pod entry is an ordered
    sequence of key/value pairs and the position of a key is significant. */
module SourceConfig {
  import opened Wrappers
  import opened Text
  import opened Pairs

  /** One entry of the `pods` array, keys in document order, e.g.
      `[("sdk", "FirebaseDatabase"), ("git", "https://..."), ("branch", "main")]`. */
  type PodConfig = KeyValues

  /** The decoded document: the value of its `pods` key, if it has one, and
      the names of its other top-level keys (only their presence matters). */
  datatype SourceDoc = SourceDoc(pods: Option<seq<PodConfig>>, otherKeys: seq<string>)

  /** Python truthiness of the decoded document: a dict is true when it has
      at least one key. */
  predicate IsTruthy(doc: SourceDoc) {
    doc.pods.Some? || |doc.otherKeys| > 0
  }

  const GIT := "git"
  const PATH := "path"
  const SDK := "sdk"

  /** The keys allowed second in an entry. */
  predicate IsSourceKind(key: string) {
    key == GIT || key == PATH
  }

  /** The keys allowed third in an entry (after `git`). */
  predicate IsReference(key: string) {
    key == "branch" || key == "tag" || key == "commit"
  }

  /** The exceptions `ValidateSourceConfig` raises. */
  datatype ConfigError =
    | MissingPods                 // ValueError: no top-level `pods` key
    | MissingSdk                  // KeyError re-raised: an entry without `sdk`
    | BlankSdk                    // ValueError: `sdk` is blank after stripping
    | MissingSourceKey(sdk: string) // IndexError: the entry has no second key
    | BadSourceKind(sdk: string)  // ValueError: second key is neither `git` nor `path`
    | GitRequired(sdk: string)    // ValueError: three keys but the second is not `git`
    | BadReference(sdk: string)   // ValueError: third key is not `branch`/`tag`/`commit`
    | TooManyKeys(sdk: string)    // ValueError: more than three keys

  /** The checks applied to one entry, in the order the source applies them.
      Positions are absolute indices into the key order, wherever `sdk` is. */
  function CheckEntry(c: PodConfig): Outcome<ConfigError> {
    var keys := Keys(c);
    match Get(c, SDK)
    case None => Fail(MissingSdk)
    case Some(sdk) =>
      if Strip(sdk) == "" then Fail(BlankSdk)
      else if |keys| < 2 then Fail(MissingSourceKey(sdk))
      else if !IsSourceKind(keys[1]) then Fail(BadSourceKind(sdk))
      else if |keys| == 3 then
        if keys[1] != GIT then Fail(GitRequired(sdk))
        else if !IsReference(keys[2]) then Fail(BadReference(sdk))
        else Pass
      else if |keys| > 3 then Fail(TooManyKeys(sdk))
      else Pass
  }

  /** The first failing outcome of a run of checks, or `Pass` when none
      fails. */
  function FirstFailure(outcomes: seq<Outcome<ConfigError>>): (r: Outcome<ConfigError>)
    ensures r.Pass? <==> forall i :: 0 <= i < |outcomes| ==> outcomes[i].Pass?
    ensures r.Fail? ==> exists i :: 0 <= i < |outcomes| && outcomes[i] == r
                          && forall j :: 0 <= j < i ==> outcomes[j].Pass?
  {
    if |outcomes| == 0 then Pass
    else if outcomes[0].Fail? then outcomes[0]
    else
      var rest := FirstFailure(outcomes[1..]);
      assert forall i :: 1 <= i < |outcomes| ==> outcomes[i] == outcomes[1..][i - 1];
      rest
  }

  /** The entries are checked in order and the first failure aborts. */
  function CheckEntries(pods: seq<PodConfig>): (r: Outcome<ConfigError>)
    ensures r.Pass? <==> forall i :: 0 <= i < |pods| ==> CheckEntry(pods[i]).Pass?
    ensures r.Fail? ==> exists i :: 0 <= i < |pods| && CheckEntry(pods[i]) == r
                          && forall j :: 0 <= j < i ==> CheckEntry(pods[j]).Pass?
  {
    var outcomes := seq(|pods|, i requires 0 <= i < |pods| => CheckEntry(pods[i]));
    assert forall i :: 0 <= i < |pods| ==> outcomes[i] == CheckEntry(pods[i]);
    FirstFailure(outcomes)
  }

  /** `ValidateSourceConfig(pod_sources)`. */
  function Validate(doc: SourceDoc): (r: Outcome<ConfigError>)
    ensures doc.pods.None? ==> r == Fail(MissingPods)
    ensures r.Pass? <==> doc.pods.Some? && forall i :: 0 <= i < |doc.pods.value| ==> CheckEntry(doc.pods.value[i]).Pass?
  {
    match doc.pods
    case None => Fail(MissingPods)
    case Some(pods) => CheckEntries(pods)
  }

  /** The shapes an entry may take, stated on its whole key sequence: `sdk`
      first with a non-blank value, then `path`, `git`, or `git` followed by
      one reference kind. */
  predicate WellShaped(c: PodConfig) {
    && |c| >= 1 && c[0].0 == SDK && Strip(c[0].1) != ""
    && ((|c| == 2 && IsSourceKind(c[1].0))
        || (|c| == 3 && c[1].0 == GIT && IsReference(c[2].0)))
  }

  /** An entry passes validation exactly when it has one of the documented
      shapes. Although the checks look at absolute positions 1 and 2 only,
      they force `sdk` into position 0. */
  lemma EntryAcceptedIff(c: PodConfig)
    ensures CheckEntry(c).Pass? <==> WellShaped(c)
  {
    if CheckEntry(c).Pass? {
      AcceptedIsWellShaped(c);
    }
    if WellShaped(c) {
      WellShapedIsAccepted(c);
    }
  }

  lemma AcceptedIsWellShaped(c: PodConfig)
    requires CheckEntry(c).Pass?
    ensures WellShaped(c)
  {
    var keys := Keys(c);
    var i := FindKey(c, SDK);
    assert Get(c, SDK).Some?;
    assert i < |c|;
    assert |keys| == 2 || |keys| == 3;
    assert keys[1] != SDK;
    assert |keys| == 3 ==> keys[2] != SDK;
    assert i == 0;
  }

  lemma WellShapedIsAccepted(c: PodConfig)
    requires WellShaped(c)
    ensures CheckEntry(c).Pass?
  {
    assert FindKey(c, SDK) == 0;
    assert Get(c, SDK) == Some(c[0].1);
  }

  /** An entry that lists `sdk` only after the source key is rejected: the
      second key is `sdk`, which is not a source kind. */
  lemma SdkSecondRejected(sdk: string, url: string)
    requires Strip(sdk) != ""
    ensures CheckEntry([(GIT, url), (SDK, sdk)]) == Fail(BadSourceKind(sdk))
  {
    assert FindKey([(GIT, url), (SDK, sdk)], SDK) == 1;
  }

  /** `sdk, git, branch` in that order is accepted. */
  lemma GitBranchAccepted(sdk: string, url: string, branch: string)
    requires |sdk| > 0 && !IsSpace(sdk[0]) && !IsSpace(sdk[|sdk| - 1])
    ensures CheckEntry([(SDK, sdk), (GIT, url), ("branch", branch)]).Pass?
  {
    StripStripped(sdk);
    WellShapedIsAccepted([(SDK, sdk), (GIT, url), ("branch", branch)]);
  }

  /** `sdk, path, branch` is rejected: a reference may only follow `git`. */
  lemma PathBranchRejected(sdk: string, path: string, branch: string)
    requires |sdk| > 0 && !IsSpace(sdk[0]) && !IsSpace(sdk[|sdk| - 1])
    ensures CheckEntry([(SDK, sdk), (PATH, path), ("branch", branch)]) == Fail(GitRequired(sdk))
  {
    StripStripped(sdk);
    var c := [(SDK, sdk), (PATH, path), ("branch", branch)];
    assert FindKey(c, SDK) == 0;
  }

  /** Four keys are rejected even when the first three form a valid entry. */
  lemma FourKeysRejected(sdk: string, url: string, branch: string, tag: string)
    requires |sdk| > 0 && !IsSpace(sdk[0]) && !IsSpace(sdk[|sdk| - 1])
    ensures CheckEntry([(SDK, sdk), (GIT, url), ("branch", branch), ("tag", tag)]) == Fail(TooManyKeys(sdk))
  {
    StripStripped(sdk);
    var c := [(SDK, sdk), (GIT, url), ("branch", branch), ("tag", tag)];
    assert FindKey(c, SDK) == 0;
  }

  /** A blank `sdk` is rejected before any key position is looked at. */
  lemma BlankSdkRejected(sdk: string, c: PodConfig)
    requires AllSpace(sdk)
    ensures CheckEntry([(SDK, sdk)] + c) == Fail(BlankSdk)
  {
    StripEmptyIff(sdk);
    assert FindKey([(SDK, sdk)] + c, SDK) == 0;
  }

  /** An entry holding `sdk` alone fails on the missing second key. */
  lemma SdkOnlyRejected(sdk: string)
    requires |sdk| > 0 && !IsSpace(sdk[0]) && !IsSpace(sdk[|sdk| - 1])
    ensures CheckEntry([(SDK, sdk)]) == Fail(MissingSourceKey(sdk))
  {
    StripStripped(sdk);
  }

  /** The entries as the decoder builds them from the pairs written in the
      file: `OrderedDict` merges a repeated key into its first position,
      with its last value. */
  function DecodeEntries(raw: seq<KeyValues>): (pods: seq<PodConfig>)
    ensures |pods| == |raw|
    ensures forall i :: 0 <= i < |raw| ==> pods[i] == FromPairs(raw[i])
  {
    seq(|raw|, i requires 0 <= i < |raw| => FromPairs(raw[i]))
  }

  /** No decoded entry repeats a key. */
  lemma DecodedEntriesDistinct(raw: seq<KeyValues>)
    ensures forall i :: 0 <= i < |raw| ==> DistinctKeys(DecodeEntries(raw)[i])
  {
    forall i | 0 <= i < |raw|
      ensures DistinctKeys(DecodeEntries(raw)[i])
    {
      FromPairsKeys(raw[i]);
    }
  }

  /** The document as the file writes it: the `pods` array, if present, with
      each entry still the pairs in file order (a key may be repeated), and
      the names of the other top-level keys. */
  datatype WrittenDoc = WrittenDoc(pods: Option<seq<KeyValues>>, otherKeys: seq<string>)

  /** `json.load(..., object_pairs_hook=OrderedDict)`: every entry becomes an
      `OrderedDict`, so no decoded entry repeats a key. */
  function DecodeDoc(w: WrittenDoc): (doc: SourceDoc)
    ensures doc.otherKeys == w.otherKeys
    ensures doc.pods.Some? <==> w.pods.Some?
    ensures doc.pods.Some? ==> |doc.pods.value| == |w.pods.value|
                               && forall i :: 0 <= i < |doc.pods.value| ==> DistinctKeys(doc.pods.value[i])
  {
    match w.pods
    case None => SourceDoc(None, w.otherKeys)
    case Some(raw) =>
      DecodedEntriesDistinct(raw);
      SourceDoc(Some(DecodeEntries(raw)), w.otherKeys)
  }

  /** A document whose entries repeat no key decodes to exactly what it
      writes. */
  lemma DecodeDocOfDistinct(w: WrittenDoc)
    requires w.pods.Some? ==> forall i :: 0 <= i < |w.pods.value| ==> DistinctKeys(w.pods.value[i])
    ensures DecodeDoc(w) == SourceDoc(w.pods, w.otherKeys)
  {
    if w.pods.Some? {
      var raw := w.pods.value;
      forall i | 0 <= i < |raw|
        ensures DecodeEntries(raw)[i] == raw[i]
      {
        FromPairsOfDistinct(raw[i]);
      }
      assert DecodeEntries(raw) == raw;
    }
  }

  /** `{"sdk": a, "git": url, "sdk": b}` decodes to `sdk` = `b` then
      `git` = `url`, which validates when `b` is not blank. */
  lemma RepeatedKeyMerged(a: string, url: string, b: string)
    requires |b| > 0 && !IsSpace(b[0]) && !IsSpace(b[|b| - 1])
    ensures DecodeEntries([[(SDK, a), (GIT, url), (SDK, b)]]) == [[(SDK, b), (GIT, url)]]
    ensures CheckEntries(DecodeEntries([[(SDK, a), (GIT, url), (SDK, b)]])) == Pass
  {
    var c: PodConfig := [(SDK, b), (GIT, url)];
    var d := DecodeEntries([[(SDK, a), (GIT, url), (SDK, b)]]);
    RepeatedSdkDecoded(a, url, b);
    assert d == [c];
    StripStripped(b);
    WellShapedIsAccepted(c);
  }

  lemma RepeatedSdkDecoded(a: string, url: string, b: string)
    ensures FromPairs([(SDK, a), (GIT, url), (SDK, b)]) == [(SDK, b), (GIT, url)]
  {
    var raw: KeyValues := [(SDK, a), (GIT, url), (SDK, b)];
    var p: KeyValues := [(SDK, a)];
    var q: KeyValues := [(SDK, a), (GIT, url)];
    assert FromPairs(p) == p by {
      assert p[..0] == [];
    }
    assert FromPairs(q) == q by {
      assert q[..1] == p;
      assert Put(p, GIT, url) == [p[0]] + Put([], GIT, url);
    }
    assert raw[..2] == q;
    assert Put(q, SDK, b) == [(SDK, b)] + q[1..];
  }
}
