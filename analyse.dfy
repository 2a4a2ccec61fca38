/**
  The loudness analysis: audio clips are grouped by character key, each
  group's most conservative (smallest) linear safe gain becomes the
  character's ceiling, and every ceiling is expressed relative to the
  reference character's ceiling.  Each clip's safe gain is an input (it
  would come from decoding the file); the linear-to-dB conversion
  `20 * log10(x)` is the parameter `toDb`.

  The grouping is stated for any classification of names (`Classifier`); the
  scripts' classification is `FileNames.Prefix` (audio names, by character
  key), which the methods use.
*/
module Analyse {
  import opened Wrappers
  import opened FileNames

  /** A directory entry together with the linear safe gain its audio yields. */
  datatype Clip = Clip(name: string, safeGain: real)

  /** The per-character dictionary of the result. */
  datatype Stats = Stats(
    normalizationLinear: real,
    normalizationDb: real,
    maxSafeGainLinear: real,
    maxSafeGainDb: real)

  /** The prefix of a name that takes part in the grouping, `None` for one that does not. */
  type Classifier = string -> Option<string>

  /** The clip takes part and its prefix is `key`. */
  predicate InGroup(c: Clip, key: string, prefixOf: Classifier) {
    prefixOf(c.name) == Some(key)
  }

  /** The list `character_files[key]`: the clips of group `key`, in listing order. */
  function Members(files: seq<Clip>, key: string, prefixOf: Classifier): (g: seq<Clip>)
    ensures forall i :: 0 <= i < |g| ==> InGroup(g[i], key, prefixOf)
  {
    if files == [] then []
    else
      var rest := Members(files[..|files| - 1], key, prefixOf);
      if InGroup(files[|files| - 1], key, prefixOf) then rest + [files[|files| - 1]] else rest
  }

  /** The keys of `character_files` in insertion order: first appearance of each prefix. */
  function KeyOrder(files: seq<Clip>, prefixOf: Classifier): seq<string> {
    if files == [] then []
    else
      var rest := KeyOrder(files[..|files| - 1], prefixOf);
      match prefixOf(files[|files| - 1].name)
      case Some(key) => if key in rest then rest else rest + [key]
      case None => rest
  }

  /** The clips of the listing that take part, in order. */
  function Accepted(files: seq<Clip>, prefixOf: Classifier): seq<Clip> {
    if files == [] then []
    else
      var rest := Accepted(files[..|files| - 1], prefixOf);
      if prefixOf(files[|files| - 1].name).Some? then rest + [files[|files| - 1]] else rest
  }

  /** The dictionary `character_files` built from a listing. */
  function Grouping(files: seq<Clip>, prefixOf: Classifier): map<string, seq<Clip>> {
    map k | k in KeyOrder(files, prefixOf) :: Members(files, k, prefixOf)
  }

  function Gains(cs: seq<Clip>): (g: seq<real>)
    ensures |g| == |cs|
  {
    seq(|cs|, i requires 0 <= i < |cs| => cs[i].safeGain)
  }

  /** Python's `min` on a non-empty list: the first smallest element. */
  function Min(s: seq<real>): (m: real)
    requires |s| > 0
    ensures m in s
    ensures forall i :: 0 <= i < |s| ==> m <= s[i]
  {
    if |s| == 1 then s[0]
    else
      var m := Min(s[..|s| - 1]);
      if s[|s| - 1] < m then s[|s| - 1] else m
  }

  /** The statistics of one character, given its gains and the reference minimum. */
  function Profile(gains: seq<real>, refMin: real, toDb: real -> real): Stats
    requires |gains| > 0
  {
    var m := Min(gains);
    var n := if refMin != 0.0 then m / refMin else 1.0;
    Stats(n, toDb(n), m, toDb(m))
  }

  /** One statistics record per group. */
  function Profiles(groups: map<string, seq<Clip>>, refMin: real, toDb: real -> real): map<string, Stats>
    requires forall k :: k in groups ==> groups[k] != []
  {
    map k | k in groups :: Profile(Gains(groups[k]), refMin, toDb)
  }

  /** The result of `analyze_audio_files` as a value: `None`, or the per-character statistics. */
  function Analysis(files: seq<Clip>, refVoice: string, toDb: real -> real, prefixOf: Classifier)
    : (r: Option<map<string, Stats>>)
    ensures r.None? <==> Members(files, refVoice, prefixOf) == []
  {
    var refGains := Gains(Members(files, refVoice, prefixOf));
    if refGains == [] then None
    else
      GroupsNonEmpty(files, prefixOf);
      Some(Profiles(Grouping(files, prefixOf), Min(refGains), toDb))
  }

  // Facts about the grouping

  lemma {:induction false} MembersFromListing(files: seq<Clip>, key: string, prefixOf: Classifier)
    ensures forall c :: c in Members(files, key, prefixOf) ==> c in files
  {
    if files != [] {
      var init := files[..|files| - 1];
      MembersFromListing(init, key, prefixOf);
      forall c | c in init ensures c in files {
        var j :| 0 <= j < |init| && init[j] == c;
        assert files[j] == c;
      }
    }
  }

  lemma {:induction false} KeyOrderMembers(files: seq<Clip>, k: string, prefixOf: Classifier)
    ensures k in KeyOrder(files, prefixOf) <==> Members(files, k, prefixOf) != []
  {
    if files != [] {
      KeyOrderMembers(files[..|files| - 1], k, prefixOf);
    }
  }

  lemma GroupsNonEmpty(files: seq<Clip>, prefixOf: Classifier)
    ensures forall k :: k in Grouping(files, prefixOf) ==> Grouping(files, prefixOf)[k] != []
  {
    forall k | k in KeyOrder(files, prefixOf) ensures Members(files, k, prefixOf) != [] {
      KeyOrderMembers(files, k, prefixOf);
    }
  }

  predicate Distinct(s: seq<string>) {
    forall i, j :: 0 <= i < j < |s| ==> s[i] != s[j]
  }

  lemma {:induction false} KeyOrderDistinct(files: seq<Clip>, prefixOf: Classifier)
    ensures Distinct(KeyOrder(files, prefixOf))
  {
    if files != [] {
      var init := files[..|files| - 1];
      KeyOrderDistinct(init, prefixOf);
      var ks := KeyOrder(init, prefixOf);
      match prefixOf(files[|files| - 1].name)
      case None =>
        assert KeyOrder(files, prefixOf) == ks;
      case Some(key) =>
        if key !in ks {
          assert KeyOrder(files, prefixOf) == ks + [key];
        }
    }
  }

  /** Every clip that takes part is in the group keyed by its own prefix. */
  lemma {:induction false} MembersComplete(files: seq<Clip>, j: int, prefixOf: Classifier)
    requires 0 <= j < |files| && prefixOf(files[j].name).Some?
    ensures files[j] in Members(files, prefixOf(files[j].name).value, prefixOf)
  {
    if j < |files| - 1 {
      var init := files[..|files| - 1];
      assert init[j] == files[j];
      MembersComplete(init, j, prefixOf);
    }
  }

  /** A group is non-empty exactly when some clip of the listing has that prefix. */
  lemma GroupExists(files: seq<Clip>, k: string, prefixOf: Classifier)
    ensures Members(files, k, prefixOf) != [] <==> exists j :: 0 <= j < |files| && InGroup(files[j], k, prefixOf)
  {
    if exists j :: 0 <= j < |files| && InGroup(files[j], k, prefixOf) {
      var j :| 0 <= j < |files| && InGroup(files[j], k, prefixOf);
      MembersComplete(files, j, prefixOf);
    }
    if Members(files, k, prefixOf) != [] {
      var c := Members(files, k, prefixOf)[0];
      MembersFromListing(files, k, prefixOf);
      assert c in Members(files, k, prefixOf);
      var j :| 0 <= j < |files| && files[j] == c;
    }
  }

  /** Groups keep listing order: the clips of an earlier part of the listing come first. */
  lemma {:induction false} MembersAppend(a: seq<Clip>, b: seq<Clip>, k: string, prefixOf: Classifier)
    ensures Members(a + b, k, prefixOf) == Members(a, k, prefixOf) + Members(b, k, prefixOf)
  {
    if b == [] {
      assert a + b == a;
    } else {
      assert (a + b)[..|a + b| - 1] == a + b[..|b| - 1];
      MembersAppend(a, b[..|b| - 1], k, prefixOf);
    }
  }

  /** The total number of clips in the groups named by `keys`. */
  function TotalSize(files: seq<Clip>, keys: seq<string>, prefixOf: Classifier): nat {
    if keys == [] then 0
    else TotalSize(files, keys[..|keys| - 1], prefixOf) + |Members(files, keys[|keys| - 1], prefixOf)|
  }

  lemma {:induction false} TotalSizeSame(a: seq<Clip>, b: seq<Clip>, keys: seq<string>, prefixOf: Classifier)
    requires forall k :: k in keys ==> Members(a, k, prefixOf) == Members(b, k, prefixOf)
    ensures TotalSize(a, keys, prefixOf) == TotalSize(b, keys, prefixOf)
  {
    if keys != [] {
      TotalSizeSame(a, b, keys[..|keys| - 1], prefixOf);
    }
  }

  lemma {:induction false} TotalSizeGrows(a: seq<Clip>, b: seq<Clip>, keys: seq<string>, kf: string, prefixOf: Classifier)
    requires forall i, j :: 0 <= i < j < |keys| ==> keys[i] != keys[j]
    requires kf in keys
    requires forall k :: k in keys && k != kf ==> Members(a, k, prefixOf) == Members(b, k, prefixOf)
    requires |Members(b, kf, prefixOf)| == |Members(a, kf, prefixOf)| + 1
    ensures TotalSize(b, keys, prefixOf) == TotalSize(a, keys, prefixOf) + 1
  {
    var init := keys[..|keys| - 1];
    if keys[|keys| - 1] == kf {
      assert kf !in init;
      TotalSizeSame(a, b, init, prefixOf);
    } else {
      TotalSizeGrows(a, b, init, kf, prefixOf);
    }
  }

  /** Every clip that takes part is counted in exactly one group: the group sizes add up to them. */
  lemma {:induction false} GroupsPartition(files: seq<Clip>, prefixOf: Classifier)
    ensures TotalSize(files, KeyOrder(files, prefixOf), prefixOf) == |Accepted(files, prefixOf)|
  {
    if files != [] {
      var init := files[..|files| - 1];
      var f := files[|files| - 1];
      var ks := KeyOrder(init, prefixOf);
      GroupsPartition(init, prefixOf);
      KeyOrderDistinct(init, prefixOf);
      match prefixOf(f.name)
      case None =>
        TotalSizeSame(init, files, ks, prefixOf);
      case Some(kf) =>
        KeyOrderMembers(init, kf, prefixOf);
        if kf in ks {
          TotalSizeGrows(init, files, ks, kf, prefixOf);
        } else {
          TotalSizeSame(init, files, ks, prefixOf);
          assert (ks + [kf])[..|ks|] == ks;
        }
    }
  }

  lemma MembersStep(files: seq<Clip>, i: int, k: string, prefixOf: Classifier)
    requires 0 <= i < |files|
    ensures Members(files[..i + 1], k, prefixOf)
      == if InGroup(files[i], k, prefixOf) then Members(files[..i], k, prefixOf) + [files[i]]
         else Members(files[..i], k, prefixOf)
  {
    assert files[..i + 1][..i] == files[..i];
  }

  /** How the grouping of a listing prefix changes when one more clip is taken in. */
  lemma GroupingStep(files: seq<Clip>, i: int, prefixOf: Classifier)
    requires 0 <= i < |files|
    ensures var f, g, o := files[i], Grouping(files[..i], prefixOf), KeyOrder(files[..i], prefixOf);
      match prefixOf(f.name)
      case None =>
        KeyOrder(files[..i + 1], prefixOf) == o && Grouping(files[..i + 1], prefixOf) == g
      case Some(key) =>
        && KeyOrder(files[..i + 1], prefixOf) == (if key in o then o else o + [key])
        && Grouping(files[..i + 1], prefixOf) == g[key := (if key in g then g[key] else []) + [f]]
  {
    var init, next, f := files[..i], files[..i + 1], files[i];
    assert next[..i] == init;
    assert next[i] == f;
    var g, g' := Grouping(init, prefixOf), Grouping(next, prefixOf);
    match prefixOf(f.name)
    case None =>
      forall k ensures (k in g' <==> k in g) && (k in g' ==> g'[k] == g[k]) {
        KeyOrderMembers(init, k, prefixOf);
        KeyOrderMembers(next, k, prefixOf);
      }
      assert g' == g;
    case Some(key) =>
      KeyOrderMembers(init, key, prefixOf);
      var h := g[key := (if key in g then g[key] else []) + [f]];
      forall k ensures (k in g' <==> k in h) && (k in g' ==> g'[k] == h[k]) {
        KeyOrderMembers(init, k, prefixOf);
        KeyOrderMembers(next, k, prefixOf);
      }
      assert g' == h;
  }

  // Facts about the result

  /** `None` is returned exactly when no clip has the reference prefix. */
  lemma AnalysisNone(files: seq<Clip>, refVoice: string, toDb: real -> real, prefixOf: Classifier)
    ensures Analysis(files, refVoice, toDb, prefixOf).None?
      <==> !exists j :: 0 <= j < |files| && InGroup(files[j], refVoice, prefixOf)
  {
    GroupExists(files, refVoice, prefixOf);
  }

  /** The characters of the result are exactly the prefixes of the clips that take part. */
  lemma AnalysisKeys(files: seq<Clip>, refVoice: string, toDb: real -> real, prefixOf: Classifier, k: string)
    requires Analysis(files, refVoice, toDb, prefixOf).Some?
    ensures k in Analysis(files, refVoice, toDb, prefixOf).value
      <==> exists j :: 0 <= j < |files| && InGroup(files[j], k, prefixOf)
  {
    KeyOrderMembers(files, k, prefixOf);
    GroupExists(files, k, prefixOf);
  }

  /**
    When the reference group and a character's group are non-empty, the
    character is in the result and its statistics are the profile of its group.
  */
  lemma AnalysisEntry(files: seq<Clip>, refVoice: string, toDb: real -> real, prefixOf: Classifier, k: string)
    requires Members(files, refVoice, prefixOf) != [] && Members(files, k, prefixOf) != []
    ensures var r := Analysis(files, refVoice, toDb, prefixOf);
      && r.Some? && k in r.value
      && r.value[k]
           == Profile(Gains(Members(files, k, prefixOf)), Min(Gains(Members(files, refVoice, prefixOf))), toDb)
  {
    KeyOrderMembers(files, k, prefixOf);
    assert Grouping(files, prefixOf)[k] == Members(files, k, prefixOf);
  }

  /**
    Each character's ceiling is at most every one of its clips' safe gains and
    is one of them; the dB figures are the conversions of the linear ones.
  */
  lemma AnalysisCeilings(files: seq<Clip>, refVoice: string, toDb: real -> real, prefixOf: Classifier, k: string)
    requires Members(files, refVoice, prefixOf) != [] && Members(files, k, prefixOf) != []
    ensures var r := Analysis(files, refVoice, toDb, prefixOf);
      r.Some? && k in r.value &&
      var s := r.value[k];
      && (forall c :: c in Members(files, k, prefixOf) ==> s.maxSafeGainLinear <= c.safeGain)
      && (exists c :: c in Members(files, k, prefixOf) && s.maxSafeGainLinear == c.safeGain)
      && s.maxSafeGainDb == toDb(s.maxSafeGainLinear)
      && s.normalizationDb == toDb(s.normalizationLinear)
  {
    AnalysisEntry(files, refVoice, toDb, prefixOf, k);
    var g := Members(files, k, prefixOf);
    var gs := Gains(g);
    var m := Min(gs);
    forall c | c in g ensures m <= c.safeGain {
      var i :| 0 <= i < |g| && g[i] == c;
      assert gs[i] == c.safeGain;
    }
    var i :| 0 <= i < |gs| && gs[i] == m;
    assert g[i] in g;
  }

  /**
    The reference character is in the result, its ceiling is the minimum of
    the reference clips' safe gains, and its own ratio is 1.
  */
  lemma AnalysisReference(files: seq<Clip>, refVoice: string, toDb: real -> real, prefixOf: Classifier)
    requires Analysis(files, refVoice, toDb, prefixOf).Some?
    ensures refVoice in Analysis(files, refVoice, toDb, prefixOf).value
    ensures Analysis(files, refVoice, toDb, prefixOf).value[refVoice].maxSafeGainLinear
      == Min(Gains(Members(files, refVoice, prefixOf)))
    ensures Analysis(files, refVoice, toDb, prefixOf).value[refVoice].normalizationLinear == 1.0
  {
    KeyOrderMembers(files, refVoice, prefixOf);
    AnalysisEntry(files, refVoice, toDb, prefixOf, refVoice);
    RatioToSelf(Min(Gains(Members(files, refVoice, prefixOf))));
  }

  /** Line 51's ratio of a ceiling to itself, 1 also when the ceiling is 0. */
  lemma RatioToSelf(m: real)
    ensures (if m != 0.0 then m / m else 1.0) == 1.0
  {
  }

  /**
    Every character's ratio is its ceiling over the reference character's
    ceiling, or 1 when the reference ceiling is 0.
  */
  lemma AnalysisRatio(files: seq<Clip>, refVoice: string, toDb: real -> real, prefixOf: Classifier, k: string)
    requires Members(files, refVoice, prefixOf) != [] && Members(files, k, prefixOf) != []
    ensures Analysis(files, refVoice, toDb, prefixOf).Some?
    ensures var r := Analysis(files, refVoice, toDb, prefixOf).value;
      && k in r && refVoice in r
      && r[k].normalizationLinear
           == if r[refVoice].maxSafeGainLinear != 0.0
              then r[k].maxSafeGainLinear / r[refVoice].maxSafeGainLinear
              else 1.0
  {
    AnalysisEntry(files, refVoice, toDb, prefixOf, k);
    AnalysisReference(files, refVoice, toDb, prefixOf);
  }

  // The scripts' classification

  /** With the scripts' classification, only `.wav`/`.mp3` clips take part, each under its key. */
  lemma PrefixGroups(c: Clip, key: string)
    ensures InGroup(c, key, Prefix) <==> IsAudio(c.name) && CharacterKey(c.name) == key
  {
  }

  // The script

  /** One pass of the first loop keeps its three accumulators equal to their definitions. */
  lemma GroupByPrefixStep(
    files: seq<Clip>, i: int, refVoice: string, prefixOf: Classifier,
    characterFiles: map<string, seq<Clip>>, order: seq<string>, referenceMaxGainLinear: seq<real>)
    requires 0 <= i < |files|
    requires order == KeyOrder(files[..i], prefixOf)
    requires characterFiles == Grouping(files[..i], prefixOf)
    requires referenceMaxGainLinear == Gains(Members(files[..i], refVoice, prefixOf))
    ensures match prefixOf(files[i].name)
      case None =>
        && order == KeyOrder(files[..i + 1], prefixOf)
        && characterFiles == Grouping(files[..i + 1], prefixOf)
        && referenceMaxGainLinear == Gains(Members(files[..i + 1], refVoice, prefixOf))
      case Some(prefix) =>
        var withKey := if prefix in characterFiles then characterFiles else characterFiles[prefix := []];
        && (if prefix in characterFiles then order else order + [prefix]) == KeyOrder(files[..i + 1], prefixOf)
        && withKey[prefix := withKey[prefix] + [files[i]]] == Grouping(files[..i + 1], prefixOf)
        && (if prefix == refVoice then referenceMaxGainLinear + [files[i].safeGain] else referenceMaxGainLinear)
           == Gains(Members(files[..i + 1], refVoice, prefixOf))
  {
    GroupingStep(files, i, prefixOf);
    MembersStep(files, i, refVoice, prefixOf);
    GainsAppend(Members(files[..i], refVoice, prefixOf), files[i]);
    match prefixOf(files[i].name)
    case None =>
    case Some(prefix) =>
      var withKey := if prefix in characterFiles then characterFiles else characterFiles[prefix := []];
      assert withKey[prefix := withKey[prefix] + [files[i]]]
        == characterFiles[prefix := (if prefix in characterFiles then characterFiles[prefix] else []) + [files[i]]];
  }

  /** One pass of the second loop adds the profile of the next character of `order`. */
  lemma ProfilesStep(
    groups: map<string, seq<Clip>>, order: seq<string>, j: int, refMin: real, toDb: real -> real,
    stats: map<string, Stats>)
    requires 0 <= j < |order|
    requires forall k :: k in groups <==> k in order
    requires forall k :: k in groups ==> groups[k] != []
    requires forall k :: k in stats <==> k in order[..j]
    requires forall k :: k in stats ==> k in groups && stats[k] == Profile(Gains(groups[k]), refMin, toDb)
    ensures order[j] in groups && groups[order[j]] != []
    ensures var stats' := stats[order[j] := Profile(Gains(groups[order[j]]), refMin, toDb)];
      && (forall k :: k in stats' <==> k in order[..j + 1])
      && (forall k :: k in stats' ==> k in groups && stats'[k] == Profile(Gains(groups[k]), refMin, toDb))
  {
    assert order[..j + 1] == order[..j] + [order[j]];
  }

  /** After the second loop the records are exactly the profiles of all groups. */
  lemma ProfilesDone(
    groups: map<string, seq<Clip>>, order: seq<string>, refMin: real, toDb: real -> real,
    stats: map<string, Stats>)
    requires forall k :: k in groups <==> k in order
    requires forall k :: k in groups ==> groups[k] != []
    requires forall k :: k in stats <==> k in order[..|order|]
    requires forall k :: k in stats ==> k in groups && stats[k] == Profile(Gains(groups[k]), refMin, toDb)
    ensures stats == Profiles(groups, refMin, toDb)
  {
    assert order[..|order|] == order;
    assert stats.Keys == groups.Keys;
  }

  lemma GainsAppend(cs: seq<Clip>, c: Clip)
    ensures Gains(cs + [c]) == Gains(cs) + [c.safeGain]
  {
  }

  /**
    The first loop of `analyze_audio_files`: groups the audio clips by prefix
    into `character_files` (keys in first-appearance order) and collects the
    safe gains of the reference clips.
  */
  method GroupByPrefix(files: seq<Clip>, refVoice: string)
    returns (characterFiles: map<string, seq<Clip>>, order: seq<string>, referenceMaxGainLinear: seq<real>)
    ensures characterFiles == Grouping(files, Prefix)
    ensures order == KeyOrder(files, Prefix)
    ensures referenceMaxGainLinear == Gains(Members(files, refVoice, Prefix))
  {
    characterFiles, order, referenceMaxGainLinear := map[], [], [];
    for i := 0 to |files|
      invariant order == KeyOrder(files[..i], Prefix)
      invariant characterFiles == Grouping(files[..i], Prefix)
      invariant referenceMaxGainLinear == Gains(Members(files[..i], refVoice, Prefix))
    {
      GroupByPrefixStep(files, i, refVoice, Prefix, characterFiles, order, referenceMaxGainLinear);
      var fileName := files[i].name;
      if IsAudio(fileName) {
        var prefix := CharacterKey(fileName);
        if prefix == refVoice {
          referenceMaxGainLinear := referenceMaxGainLinear + [files[i].safeGain];
        }
        if prefix !in characterFiles {
          characterFiles := characterFiles[prefix := []];
          order := order + [prefix];
        }
        characterFiles := characterFiles[prefix := characterFiles[prefix] + [files[i]]];
      }
    }
    assert files[..|files|] == files;
  }

  /**
    `analyze_audio_files`: after the first loop (`GroupByPrefix`), `None`
    when there are no reference clips; otherwise the second loop records,
    for each character in order, the minimum of its safe gains and that
    minimum relative to the reference minimum (1 when the reference minimum
    is 0), each also in dB.
  */
  method AnalyzeAudioFiles(files: seq<Clip>, refVoice: string, toDb: real -> real)
    returns (results: Option<map<string, Stats>>)
    ensures results == Analysis(files, refVoice, toDb, Prefix)
  {
    var characterFiles, order, referenceMaxGainLinear := GroupByPrefix(files, refVoice);
    if referenceMaxGainLinear == [] {
      return None;
    }
    var refSafeGainLinear := Min(referenceMaxGainLinear);
    assert forall k :: k in characterFiles <==> k in order;
    assert forall k :: k in characterFiles ==> characterFiles[k] != [] by {
      GroupsNonEmpty(files, Prefix);
    }

    var stats: map<string, Stats> := map[];
    for j := 0 to |order|
      invariant forall k :: k in stats <==> k in order[..j]
      invariant forall k :: k in stats ==> k in characterFiles && stats[k] == Profile(Gains(characterFiles[k]), refSafeGainLinear, toDb)
    {
      ProfilesStep(characterFiles, order, j, refSafeGainLinear, toDb, stats);
      var character := order[j];
      var charSafeGainsLinear := Gains(characterFiles[character]);
      var maxSafeGainLinear := Min(charSafeGainsLinear);
      var maxSafeGainDb := toDb(maxSafeGainLinear);
      var normalizationLinear := if refSafeGainLinear != 0.0 then maxSafeGainLinear / refSafeGainLinear else 1.0;
      var normalizationDb := toDb(normalizationLinear);
      stats := stats[character := Stats(normalizationLinear, normalizationDb, maxSafeGainLinear, maxSafeGainDb)];
    }
    ProfilesDone(characterFiles, order, refSafeGainLinear, toDb, stats);
    results := Some(stats);
  }
}
