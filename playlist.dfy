/**
 * The playlist updater: fetch the target and the sources, replace the
 * target's groups with the first source's versions, optionally take one
 * named group from a second source, and write the header lines followed by
 * every group's lines.
 */
module Playlist {
  import opened Wrappers
  import opened Lines
  import opened GroupMaps
  import opened Parser
  import opened Metadata

  // ---------------------------------------------------------------------------
  // Downloads

  /** What an HTTP GET of a URL gives back: a status and a body, or no answer at all. */
  datatype Response = Response(status: int, text: string) | TransportFailure

  datatype Error =
    | DownloadFailed(url: string)  // a status other than 200, or no answer
    | NoPrimarySource              // `source_urls` is empty

  /** Download `url` and split its body into lines; only status 200 is accepted. */
  function Fetch(get: string -> Response, url: string): Result<seq<string>, Error>
  {
    match get(url)
    case Response(status, text) =>
      if status == 200 then Ok(SplitLines(text)) else Err(DownloadFailed(url))
    case TransportFailure => Err(DownloadFailed(url))
  }

  lemma FetchSpec(get: string -> Response, url: string)
    ensures Fetch(get, url).Ok? <==> get(url).Response? && get(url).status == 200
    ensures Fetch(get, url).Err? ==> Fetch(get, url).error == DownloadFailed(url)
    ensures Fetch(get, url).Ok? ==> forall l :: l in Fetch(get, url).value ==> NoBreak(l)
  {
    if get(url).Response? {
      SplitLinesNoBreak(get(url).text);
    }
  }

  // ---------------------------------------------------------------------------
  // The merge policy

  /** `if k in m: m[k] = v` */
  function ReplaceExisting(m: GroupMap, k: string, v: seq<string>): (r: GroupMap)
    requires ValidMap(m)
    ensures ValidMap(r)
  {
    if k in m.values then Put(m, k, v) else m
  }

  /** Replacing never adds a key or moves one; it changes only `k`'s lines, and only if `k` is present. */
  lemma ReplaceExistingSpec(m: GroupMap, k: string, v: seq<string>)
    requires ValidMap(m)
    ensures ReplaceExisting(m, k, v).keys == m.keys
    ensures forall x :: x in ReplaceExisting(m, k, v).values <==> x in m.values
    ensures forall x :: x in m.values ==> ReplaceExisting(m, k, v).values[x] == if x == k then v else m.values[x]
  {
    if k in m.values {
      PutSemantics(m, k, v);
    }
  }

  /** `ReplaceExistingSpec` at one key. */
  lemma ReplaceExistingAt(m: GroupMap, k: string, v: seq<string>, x: string)
    requires ValidMap(m) && x in m.values
    ensures x in ReplaceExisting(m, k, v).values
    ensures ReplaceExisting(m, k, v).values[x] == if x == k then v else m.values[x]
  {
    ReplaceExistingSpec(m, k, v);
  }

  /**
   * The first `j` groups of `primary` visited in order; each one the target
   * already has replaces the target's version.
   */
  function MergeFirst(target: GroupMap, primary: GroupMap, j: nat): (r: GroupMap)
    requires ValidMap(target) && ValidMap(primary) && j <= |primary.keys|
    ensures ValidMap(r)
  {
    if j == 0 then target
    else
      var k := primary.keys[j - 1];
      ReplaceExisting(MergeFirst(target, primary, j - 1), k, primary.values[k])
  }

  /** The merge loop keeps the target's keys, in order, and adds none. */
  lemma {:induction false} MergeFirstKeys(target: GroupMap, primary: GroupMap, j: nat)
    requires ValidMap(target) && ValidMap(primary) && j <= |primary.keys|
    ensures MergeFirst(target, primary, j).keys == target.keys
    ensures forall k :: k in MergeFirst(target, primary, j).values <==> k in target.values
  {
    if j > 0 {
      var k := primary.keys[j - 1];
      MergeFirstKeys(target, primary, j - 1);
      ReplaceExistingSpec(MergeFirst(target, primary, j - 1), k, primary.values[k]);
    }
  }

  /** A target group the loop has visited holds the first source's lines. */
  lemma {:induction false} MergeFirstReplaced(target: GroupMap, primary: GroupMap, j: nat, i: nat)
    requires ValidMap(target) && ValidMap(primary) && i < j <= |primary.keys|
    requires primary.keys[i] in target.values
    ensures primary.keys[i] in MergeFirst(target, primary, j).values
    ensures MergeFirst(target, primary, j).values[primary.keys[i]] == primary.values[primary.keys[i]]
  {
    var x := primary.keys[i];
    var k := primary.keys[j - 1];
    var m := MergeFirst(target, primary, j - 1);
    var r := ReplaceExisting(m, k, primary.values[k]);
    assert MergeFirst(target, primary, j) == r;
    MergeFirstKeys(target, primary, j - 1);
    ReplaceExistingAt(m, k, primary.values[k], x);
    if x != k {
      MergeFirstReplaced(target, primary, j - 1, i);
      assert r.values[x] == m.values[x];
    }
  }

  /** A target group the loop has not visited keeps its own lines. */
  lemma {:induction false} MergeFirstKept(target: GroupMap, primary: GroupMap, j: nat, k: string)
    requires ValidMap(target) && ValidMap(primary) && j <= |primary.keys|
    requires k in target.values && k !in primary.keys[..j]
    ensures k in MergeFirst(target, primary, j).values
    ensures MergeFirst(target, primary, j).values[k] == target.values[k]
  {
    MergeFirstKeys(target, primary, j);
    if j > 0 {
      var x := primary.keys[j - 1];
      var m := MergeFirst(target, primary, j - 1);
      assert primary.keys[..j] == primary.keys[..j - 1] + [x];
      MergeFirstKeys(target, primary, j - 1);
      ReplaceExistingAt(m, x, primary.values[x], k);
      MergeFirstKept(target, primary, j - 1, k);
    }
  }

  /** The loop over the first source's groups. */
  function MergePrimary(target: GroupMap, primary: GroupMap): (r: GroupMap)
    requires ValidMap(target) && ValidMap(primary)
    ensures ValidMap(r)
  {
    MergeFirst(target, primary, |primary.keys|)
  }

  /**
   * The target keeps its groups and their order; a group the first source
   * also has takes the source's lines, the others keep their own; groups
   * only the source has are not added.
   */
  lemma MergePrimarySpec(target: GroupMap, primary: GroupMap)
    requires ValidMap(target) && ValidMap(primary)
    ensures MergePrimary(target, primary).keys == target.keys
    ensures forall k :: k in MergePrimary(target, primary).values <==> k in target.values
    ensures forall k :: k in target.values ==>
              MergePrimary(target, primary).values[k]
                == if k in primary.values then primary.values[k] else target.values[k]
  {
    var n := |primary.keys|;
    MergeFirstKeys(target, primary, n);
    assert primary.keys[..n] == primary.keys;
    forall k | k in target.values
      ensures MergePrimary(target, primary).values[k]
                == if k in primary.values then primary.values[k] else target.values[k]
    {
      if k in primary.values {
        var i :| 0 <= i < n && primary.keys[i] == k;
        MergeFirstReplaced(target, primary, n, i);
      } else {
        MergeFirstKept(target, primary, n, k);
      }
    }
  }

  /** The group to take from the second source, and that source's groups. */
  datatype Special = Special(group: string, groups: GroupMap)

  /** The second-source step: the named group, if that source has it, overwrites or is added. */
  function ApplySpecial(m: GroupMap, s: Special): (r: GroupMap)
    requires ValidMap(m) && ValidMap(s.groups)
    ensures ValidMap(r)
  {
    if s.group in s.groups.values then Put(m, s.group, s.groups.values[s.group]) else m
  }

  /**
   * When the second source has the named group, its lines win and the group
   * keeps its place (or is appended if new); otherwise nothing changes.
   */
  lemma ApplySpecialSpec(m: GroupMap, s: Special)
    requires ValidMap(m) && ValidMap(s.groups)
    ensures s.group !in s.groups.values ==> ApplySpecial(m, s) == m
    ensures s.group in s.groups.values ==>
      var r := ApplySpecial(m, s);
      && r.values == m.values[s.group := s.groups.values[s.group]]
      && r.keys == if s.group in m.values then m.keys else m.keys + [s.group]
  {
    if s.group in s.groups.values {
      PutSemantics(m, s.group, s.groups.values[s.group]);
      assert ApplySpecial(m, s).values == m.values[s.group := s.groups.values[s.group]];
    }
  }

  /** The groups the updater writes. */
  function Merged(target: GroupMap, primary: GroupMap, special: Option<Special>): (r: GroupMap)
    requires ValidMap(target) && ValidMap(primary)
    requires special.Some? ==> ValidMap(special.value.groups)
    ensures ValidMap(r)
  {
    var m := MergePrimary(target, primary);
    if special.Some? then ApplySpecial(m, special.value) else m
  }

  /** The second source supplies the named group. */
  predicate Supplies(special: Option<Special>, k: string)
  {
    special.Some? && special.value.group == k && k in special.value.groups.values
  }

  /**
   * The whole merge policy: which groups are written, in which order, and
   * whose lines each one carries — the second source first, then the first
   * source, then the target itself.
   */
  lemma MergedSpec(target: GroupMap, primary: GroupMap, special: Option<Special>)
    requires ValidMap(target) && ValidMap(primary)
    requires special.Some? ==> ValidMap(special.value.groups)
    ensures var r := Merged(target, primary, special);
      && r.keys == target.keys
           + (if special.Some? && Supplies(special, special.value.group) && special.value.group !in target.values
              then [special.value.group] else [])
      && (forall k :: k in r.values <==> k in target.values || Supplies(special, k))
      && (forall k :: k in r.values ==>
            r.values[k] == if Supplies(special, k) then special.value.groups.values[k]
                           else if k in primary.values then primary.values[k]
                           else target.values[k])
  {
    var m := MergePrimary(target, primary);
    MergePrimarySpec(target, primary);
    if special.Some? && Supplies(special, special.value.group) {
      PutSemantics(m, special.value.group, special.value.groups.values[special.value.group]);
    }
  }

  /** Every written group is a run of entries of its own name when all three inputs are parses. */
  lemma MergedWellFormed(target: GroupMap, primary: GroupMap, special: Option<Special>)
    requires WellFormed(target) && WellFormed(primary)
    requires special.Some? ==> WellFormed(special.value.groups)
    ensures WellFormed(Merged(target, primary, special))
  {
    MergedSpec(target, primary, special);
  }

  // ---------------------------------------------------------------------------
  // The update as a whole

  /** The header lines and the groups that make up the written playlist. */
  datatype Plan = Plan(metadata: seq<string>, groups: GroupMap)

  /** `special_group and special_source` */
  predicate SpecialRequested(specialGroup: Option<string>, specialSource: Option<string>)
  {
    Truthy(specialGroup) && Truthy(specialSource)
  }

  /**
   * What the updater decides to write, or the first download that fails:
   * the target, then the first source, then the second source when a
   * special group is requested.
   */
  function Outcome(get: string -> Response, sourceUrls: seq<string>, targetUrl: string,
                   specialGroup: Option<string>, specialSource: Option<string>): (r: Result<Plan, Error>)
    ensures r.Ok? ==> ValidMap(r.value.groups)
  {
    match Fetch(get, targetUrl)
    case Err(e) => Err(e)
    case Ok(targetLines) =>
      if |sourceUrls| == 0 then Err(NoPrimarySource)
      else
        match Fetch(get, sourceUrls[0])
        case Err(e) => Err(e)
        case Ok(primaryLines) =>
          if SpecialRequested(specialGroup, specialSource) then
            match Fetch(get, specialSource.value)
            case Err(e) => Err(e)
            case Ok(specialLines) =>
              Ok(Plan(MetadataLines(targetLines),
                      Merged(Parse(targetLines), Parse(primaryLines),
                             Some(Special(specialGroup.value, Parse(specialLines))))))
          else
            Ok(Plan(MetadataLines(targetLines), Merged(Parse(targetLines), Parse(primaryLines), None)))
  }

  /** The text written: the header lines, then every group's lines, one per line. */
  function Render(meta: seq<string>, m: GroupMap): string
    requires ValidMap(m)
  {
    Serialise(meta + Flatten(m))
  }

  function Updated(get: string -> Response, sourceUrls: seq<string>, targetUrl: string,
                   specialGroup: Option<string>, specialSource: Option<string>): Result<string, Error>
  {
    match Outcome(get, sourceUrls, targetUrl, specialGroup, specialSource)
    case Ok(plan) => Ok(Render(plan.metadata, plan.groups))
    case Err(e) => Err(e)
  }

  /** The update fails exactly when a download it needs fails, and reports the first one. */
  lemma UpdatedErrors(get: string -> Response, sourceUrls: seq<string>, targetUrl: string,
                      specialGroup: Option<string>, specialSource: Option<string>)
    ensures var r := Updated(get, sourceUrls, targetUrl, specialGroup, specialSource);
      && (r.Err? <==> Fetch(get, targetUrl).Err? || |sourceUrls| == 0 || Fetch(get, sourceUrls[0]).Err?
                      || (SpecialRequested(specialGroup, specialSource) && Fetch(get, specialSource.value).Err?))
      && (Fetch(get, targetUrl).Err? ==> r == Err(DownloadFailed(targetUrl)))
      && (Fetch(get, targetUrl).Ok? && |sourceUrls| == 0 ==> r == Err(NoPrimarySource))
      && (Fetch(get, targetUrl).Ok? && |sourceUrls| > 0 && Fetch(get, sourceUrls[0]).Err? ==>
            r == Err(DownloadFailed(sourceUrls[0])))
      && (Fetch(get, targetUrl).Ok? && |sourceUrls| > 0 && Fetch(get, sourceUrls[0]).Ok?
          && SpecialRequested(specialGroup, specialSource) && Fetch(get, specialSource.value).Err? ==>
            r == Err(DownloadFailed(specialSource.value)))
  {
    FetchSpec(get, targetUrl);
    if |sourceUrls| > 0 {
      FetchSpec(get, sourceUrls[0]);
    }
    if SpecialRequested(specialGroup, specialSource) {
      FetchSpec(get, specialSource.value);
    }
  }

  // ---------------------------------------------------------------------------
  // Reading the written playlist back

  /**
   * The written text splits back into the header lines followed by the
   * groups' lines; parsing it gives back exactly the groups that were
   * written, and extracting metadata from it gives back the header lines.
   */
  lemma RenderReadsBack(meta: seq<string>, m: GroupMap)
    requires WellFormed(m)
    requires forall l :: l in meta ==> IsMetadata(l) && NoBreak(l)
    requires forall k, l :: k in m.values && l in m.values[k] ==> NoBreak(l)
    ensures SplitLines(Render(meta, m)) == meta + Flatten(m)
    ensures Parse(SplitLines(Render(meta, m))) == m
    ensures MetadataLines(SplitLines(Render(meta, m))) == meta
  {
    var body := Flatten(m);
    forall l | l in body ensures NoBreak(l) && IsKept(l) {
      FlattenKeysHas(m, m.keys, l);
      var k :| k in m.keys && l in m.values[k];
      assert IsGroup(k, m.values[k]);
    }
    SplitSerialise(meta + body);
    forall l | l in meta ensures !IsKept(l) {
      MetadataIsNotKept(l);
    }
    ParseFlatten(meta, m);
    MetadataAppend(meta, body);
    MetadataOfMetadata(meta);
    forall l | l in body ensures !IsMetadata(l) {
      if IsMetadata(l) {
        MetadataIsNotKept(l);
      }
    }
    MetadataOfNone(body);
  }

  /** A line of a written group comes from one of the three downloads. */
  lemma MergedDrawn(target: GroupMap, primary: GroupMap, special: Option<Special>, k: string, l: string)
    requires ValidMap(target) && ValidMap(primary)
    requires special.Some? ==> ValidMap(special.value.groups)
    requires k in Merged(target, primary, special).values && l in Merged(target, primary, special).values[k]
    ensures || (k in target.values && l in target.values[k])
            || (k in primary.values && l in primary.values[k])
            || (Supplies(special, k) && l in special.value.groups.values[k])
  {
    MergedSpec(target, primary, special);
  }

  /**
   * End to end: when the update succeeds, the written playlist parses to the
   * merged groups and its metadata is the target's header lines.
   */
  lemma UpdatedReadsBack(get: string -> Response, sourceUrls: seq<string>, targetUrl: string,
                         specialGroup: Option<string>, specialSource: Option<string>)
    requires Outcome(get, sourceUrls, targetUrl, specialGroup, specialSource).Ok?
    ensures var plan := Outcome(get, sourceUrls, targetUrl, specialGroup, specialSource).value;
      && Updated(get, sourceUrls, targetUrl, specialGroup, specialSource).Ok?
      && var lines := SplitLines(Updated(get, sourceUrls, targetUrl, specialGroup, specialSource).value);
      && lines == plan.metadata + Flatten(plan.groups)
      && Parse(lines) == plan.groups
      && MetadataLines(lines) == plan.metadata
      && WellFormed(plan.groups)
  {
    var targetLines := Fetch(get, targetUrl).value;
    var primaryLines := Fetch(get, sourceUrls[0]).value;
    FetchSpec(get, targetUrl);
    FetchSpec(get, sourceUrls[0]);
    ParseWellFormed(targetLines);
    ParseWellFormed(primaryLines);
    var t := Parse(targetLines);
    var p := Parse(primaryLines);
    var special: Option<Special> := None;
    if SpecialRequested(specialGroup, specialSource) {
      var specialLines := Fetch(get, specialSource.value).value;
      FetchSpec(get, specialSource.value);
      ParseWellFormed(specialLines);
      special := Some(Special(specialGroup.value, Parse(specialLines)));
    }
    var plan := Outcome(get, sourceUrls, targetUrl, specialGroup, specialSource).value;
    assert plan == Plan(MetadataLines(targetLines), Merged(t, p, special));
    MergedWellFormed(t, p, special);
    forall k, l | k in plan.groups.values && l in plan.groups.values[k] ensures NoBreak(l) {
      MergedDrawn(t, p, special, k, l);
    }
    RenderReadsBack(plan.metadata, plan.groups);
  }

  // ---------------------------------------------------------------------------
  // The updater

  /** The loop over the first source's groups, updating the target table in place. */
  method MergePrimaryInto(target: GroupTable, source: GroupTable)
    requires target.Valid() && source.Valid() && target != source
    modifies target
    ensures target.Valid()
    ensures target.Model() == MergePrimary(old(target.Model()), source.Model())
  {
    ghost var t0 := target.Model();
    for i := 0 to |source.keys|
      invariant target.Valid()
      invariant target.Model() == MergeFirst(t0, source.Model(), i)
    {
      var group := source.keys[i];
      if group in target.values {
        target.Assign(group, source.values[group]);
      }
    }
  }

  /** The second-source step on the target table. */
  method ApplySpecialTo(target: GroupTable, group: string, special: GroupTable)
    requires target.Valid() && special.Valid() && target != special
    modifies target
    ensures target.Valid()
    ensures target.Model() == ApplySpecial(old(target.Model()), Special(group, special.Model()))
  {
    if group in special.values {
      target.Assign(group, special.values[group]);
    }
  }

  /** The inner writing loop: `lines`, each followed by a newline, after `text`. */
  method WriteLines(text: string, lines: seq<string>) returns (out: string)
    ensures out == text + Serialise(lines)
  {
    out := text;
    for i := 0 to |lines|
      invariant out == text + Serialise(lines[..i])
    {
      SerialiseSnoc(lines[..i], lines[i]);
      assert lines[..i + 1] == lines[..i] + [lines[i]];
      out := out + lines[i] + "\n";
    }
    assert lines[..|lines|] == lines;
  }

  /** Writing group `i` after the first `i` groups extends the text by that group's lines. */
  lemma WriteGroupStep(meta: seq<string>, m: GroupMap, i: nat)
    requires ValidMap(m) && i < |m.keys|
    ensures Serialise(meta + FlattenKeys(m, m.keys[..i])) + Serialise(m.values[m.keys[i]])
              == Serialise(meta + FlattenKeys(m, m.keys[..i + 1]))
  {
    var written := FlattenKeys(m, m.keys[..i]);
    var channels := m.values[m.keys[i]];
    var a := meta + written;
    FlattenKeysNext(m, i + 1);
    assert meta + FlattenKeys(m, m.keys[..i + 1]) == a + channels;
    SerialiseAppend(a, channels);
  }

  /** The writing loops: each header line, then each line of each group in order. */
  method WritePlaylist(meta: seq<string>, m: GroupMap) returns (text: string)
    requires ValidMap(m)
    ensures text == Render(meta, m)
  {
    text := WriteLines("", meta);
    assert meta + FlattenKeys(m, m.keys[..0]) == meta;
    for i := 0 to |m.keys|
      invariant text == Serialise(meta + FlattenKeys(m, m.keys[..i]))
    {
      WriteGroupStep(meta, m, i);
      text := WriteLines(text, m.values[m.keys[i]]);
    }
    assert m.keys[..|m.keys|] == m.keys;
  }

  /**
   * `update_playlist`: the text written to the output file, or the first
   * download that failed.
   */
  method UpdatePlaylist(get: string -> Response, sourceUrls: seq<string>, targetUrl: string,
                        specialGroup: Option<string>, specialSource: Option<string>)
    returns (r: Result<string, Error>)
    ensures r == Updated(get, sourceUrls, targetUrl, specialGroup, specialSource)
  {
    var targetFetch := Fetch(get, targetUrl);
    if targetFetch.Err? {
      return Err(targetFetch.error);
    }
    var target := ParseM3U(targetFetch.value);
    if |sourceUrls| == 0 {
      return Err(NoPrimarySource);
    }
    var primaryFetch := Fetch(get, sourceUrls[0]);
    if primaryFetch.Err? {
      return Err(primaryFetch.error);
    }
    var source := ParseM3U(primaryFetch.value);
    MergePrimaryInto(target, source);
    if SpecialRequested(specialGroup, specialSource) {
      var specialFetch := Fetch(get, specialSource.value);
      if specialFetch.Err? {
        return Err(specialFetch.error);
      }
      var specialGroups := ParseM3U(specialFetch.value);
      ApplySpecialTo(target, specialGroup.value, specialGroups);
    }
    // `extract_metadata` downloads the target a second time, through the same `get`.
    var again := Fetch(get, targetUrl);
    var meta := ExtractMetadata(again.value);
    var text := WritePlaylist(meta, target.Model());
    r := Ok(text);
  }
}
