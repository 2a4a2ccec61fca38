/**
  The deployment script: every `.wav`/`.mp3` clip of the source directory is
  re-encoded as an `.mp3` of the same stem in the destination directory, with
  the gain of its character's settings, unless the destination already exists
  and overwriting is off.  The destination directory is the set of names
  present in it; decoding and encoding are recorded as a description of the
  audio processing chain.
*/
module Deploy {
  import opened Wrappers
  import opened FileNames

  const OVERWRITE: bool := false
  const SAMPLE_RATE: nat := 44100
  const FORCE_MONO: bool := true

  /** Per-character settings; each is a dictionary holding a "gain" in dB. */
  const CHARACTER_SETTINGS: map<string, map<string, int>> := map[
    "alice" := map["gain" := 5],
    "n" := map["gain" := 7],
    "dodo" := map["gain" := 4],
    "mouse" := map["gain" := -3],
    "eaglet" := map["gain" := -2],
    "lory" := map["gain" := 3],
    "canry" := map["gain" := 3],
    "pigeon" := map["gain" := 3]
  ]

  /** `get_character_settings`: the table entry of the clip's prefix, `{"gain": 0}` when there is none. */
  function GetCharacterSettings(fileName: string): (settings: map<string, int>)
    ensures "gain" in settings && -3 <= settings["gain"] <= 7
  {
    SettingsGains();
    var prefix := CharacterKey(fileName);
    if prefix in CHARACTER_SETTINGS then CHARACTER_SETTINGS[prefix] else map["gain" := 0]
  }

  /** `settings.get("gain", 0)` on the clip's settings. */
  function GainOf(fileName: string): (gain: int)
    ensures -3 <= gain <= 7
  {
    var settings := GetCharacterSettings(fileName);
    if "gain" in settings then settings["gain"] else 0
  }

  /** Every entry of the table has a gain, between -3 and 7 dB. */
  lemma SettingsGains()
    ensures forall k :: k in CHARACTER_SETTINGS ==> "gain" in CHARACTER_SETTINGS[k]
    ensures forall k :: k in CHARACTER_SETTINGS ==> -3 <= CHARACTER_SETTINGS[k]["gain"] <= 7
  {
  }

  /**
    The settings always hold a gain; the gain is the table's gain for a known
    character and 0 for any other, so it lies between -3 and 7 dB.
  */
  lemma GainOfTable(fileName: string)
    ensures "gain" in GetCharacterSettings(fileName)
    ensures var key := CharacterKey(fileName);
      GainOf(fileName) == if key in CHARACTER_SETTINGS then CHARACTER_SETTINGS[key]["gain"] else 0
    ensures -3 <= GainOf(fileName) <= 7
  {
    SettingsGains();
  }

  /** A numbered clip gets the gain of its base name's character, 0 when it has no settings. */
  lemma NumberedClipGain(base: string, suffix: string, ext: string)
    requires !AllDots(base) && NoDigits(base) && base[|base| - 1] != '_'
    requires forall i :: 0 <= i < |suffix| ==> IsDigit(suffix[i]) || suffix[i] == '_'
    requires |ext| > 0 && ext[0] == '.' && '.' !in ext[1..]
    ensures GainOf(base + suffix + ext) == if base in CHARACTER_SETTINGS then CHARACTER_SETTINGS[base]["gain"] else 0
  {
    NumberedClipKey(base, suffix, ext);
    GainOfTable(base + suffix + ext);
  }

  /** The table's example: "alice_012.wav" belongs to "alice" and gets gain 5. */
  lemma AliceGain()
    ensures GainOf("alice_012.wav") == 5
  {
    assert "alice_012.wav" == "alice" + "_012" + ".wav";
    assert "alice"[0] != '.';
    NumberedClipGain("alice", "_012", ".wav");
  }

  /** `os.path.splitext(file_name)[0] + ".mp3"`. */
  function DestinationName(fileName: string): (destination: string)
    ensures IsAudio(destination) && EndsWith(destination, ".mp3")
    ensures !AllDots(Stem(fileName)) ==> SplitExt(destination) == (Stem(fileName), ".mp3")
  {
    if !AllDots(Stem(fileName)) then SplitExtOf(Stem(fileName), ".mp3"); Stem(fileName) + ".mp3"
    else Stem(fileName) + ".mp3"
  }

  /** An `.mp3` clip keeps its name and a `.wav` clip changes extension. */
  lemma DestinationOfAudio(base: string)
    requires !AllDots(base)
    ensures DestinationName(base + ".mp3") == base + ".mp3"
    ensures DestinationName(base + ".wav") == base + ".mp3"
  {
    SplitExtOf(base, ".mp3");
    SplitExtOf(base, ".wav");
  }

  /** A name that is all dots before its extension has no extension: ".mp3" becomes ".mp3.mp3". */
  lemma DestinationOfDotName()
    ensures DestinationName(".mp3") == ".mp3.mp3"
  {
    var d := LastIndexOf(".mp3", '.');
    assert ".mp3"[0] == '.' && ".mp3"[1] != '.' && ".mp3"[2] != '.' && ".mp3"[3] != '.';
    assert d == 0;
    assert AllDots(".mp3"[..d]);
  }

  /** The list comprehension selecting the audio files of the listing, in order. */
  function SourceFiles(listing: seq<string>): (sources: seq<string>)
    ensures forall i :: 0 <= i < |sources| ==> IsAudio(sources[i])
  {
    if listing == [] then []
    else
      var rest := SourceFiles(listing[..|listing| - 1]);
      if IsAudio(listing[|listing| - 1]) then rest + [listing[|listing| - 1]] else rest
  }

  /** A name is selected exactly when it is listed and is an audio file. */
  lemma {:induction false} SourceFilesSelect(listing: seq<string>, name: string)
    ensures name in SourceFiles(listing) <==> name in listing && IsAudio(name)
  {
    if listing != [] {
      var init := listing[..|listing| - 1];
      SourceFilesSelect(init, name);
      assert listing == init + [listing[|listing| - 1]];
    }
  }

  /** The selection is case-sensitive. */
  lemma SourceFilesCaseSensitive()
    ensures SourceFiles(["a.WAV", "b.wav", "c.Mp3", "d.mp3", "e.ogg"]) == ["b.wav", "d.mp3"]
  {
    var l := ["a.WAV", "b.wav", "c.Mp3", "d.mp3", "e.ogg"];
    assert !IsAudio(l[0]) && IsAudio(l[1]) && !IsAudio(l[2]) && IsAudio(l[3]) && !IsAudio(l[4]);
    assert l[..1][..0] == [];
    assert l[..2][..1] == l[..1];
    assert l[..3][..2] == l[..2];
    assert l[..4][..3] == l[..3];
    assert l[..5][..4] == l[..4];
    assert SourceFiles(l[..1]) == [];
    assert SourceFiles(l[..2]) == ["b.wav"];
    assert SourceFiles(l[..3]) == ["b.wav"];
    assert SourceFiles(l[..4]) == ["b.wav", "d.mp3"];
    assert l[..5] == l;
  }

  /** The audio processing chain an exported file is made of, innermost first. */
  datatype Audio =
    | Loaded(path: string)
    | Amplified(input: Audio, gainDb: int)
    | Resampled(input: Audio, frameRate: nat)
    | Rechanneled(input: Audio, channels: nat)

  /** One `export` call: the file written and what was written to it. */
  datatype Export = Export(destination: string, audio: Audio, format: string)

  function Origin(a: Audio): string {
    match a
    case Loaded(p) => p
    case Amplified(i, _) => Origin(i)
    case Resampled(i, _) => Origin(i)
    case Rechanneled(i, _) => Origin(i)
  }

  /** The gains applied along the chain, innermost first. */
  function GainsApplied(a: Audio): seq<int> {
    match a
    case Loaded(_) => []
    case Amplified(i, g) => GainsApplied(i) + [g]
    case Resampled(i, _) => GainsApplied(i)
    case Rechanneled(i, _) => GainsApplied(i)
  }

  /** The frame rate set last, if any. */
  function FrameRate(a: Audio): Option<nat> {
    match a
    case Loaded(_) => None
    case Amplified(i, _) => FrameRate(i)
    case Resampled(_, r) => Some(r)
    case Rechanneled(i, _) => FrameRate(i)
  }

  /** The channel count set last, if any. */
  function Channels(a: Audio): Option<nat> {
    match a
    case Loaded(_) => None
    case Amplified(i, _) => Channels(i)
    case Resampled(i, _) => Channels(i)
    case Rechanneled(_, c) => Some(c)
  }

  predicate Resamples(a: Audio) {
    FrameRate(a).Some?
  }

  /** Every gain is applied to the decoded signal before any resampling. */
  predicate GainBeforeResampling(a: Audio) {
    match a
    case Loaded(_) => true
    case Amplified(i, _) => !Resamples(i) && GainBeforeResampling(i)
    case Resampled(i, _) => GainBeforeResampling(i)
    case Rechanneled(i, _) => GainBeforeResampling(i)
  }

  /**
    `convert_and_copy_audio`: load, add the gain when it is nonzero, set the
    frame rate, force mono, export as mp3.
  */
  method ConvertAndCopyAudio(sourceFile: string, destinationFile: string, gain: int) returns (e: Export)
    ensures e.destination == destinationFile && e.format == "mp3"
    ensures Origin(e.audio) == sourceFile
    ensures GainsApplied(e.audio) == if gain == 0 then [] else [gain]
    ensures FrameRate(e.audio) == Some(SAMPLE_RATE)
    ensures Channels(e.audio) == if FORCE_MONO then Some(1) else None
    ensures GainBeforeResampling(e.audio)
  {
    var audio := Loaded(sourceFile);
    if gain != 0 {
      audio := Amplified(audio, gain);
      assert FrameRate(audio) == None;
    }
    assert Origin(audio) == sourceFile && GainsApplied(audio) == (if gain == 0 then [] else [gain]);
    assert !Resamples(audio) && GainBeforeResampling(audio);
    audio := Resampled(audio, SAMPLE_RATE);
    assert Origin(audio) == sourceFile && GainsApplied(audio) == (if gain == 0 then [] else [gain]);
    assert FrameRate(audio) == Some(SAMPLE_RATE) && GainBeforeResampling(audio);
    if FORCE_MONO {
      audio := Rechanneled(audio, 1);
    }
    e := Export(destinationFile, audio, "mp3");
  }

  /** What `process_files` hands to `convert_and_copy_audio` for one clip. */
  datatype Conversion = Conversion(source: string, destination: string, gain: int)

  /** The conversion prescribed for a selected clip: its mp3 destination and its character's gain. */
  function ConversionFor(fileName: string): Conversion {
    Conversion(fileName, DestinationName(fileName), GainOf(fileName))
  }

  /** How a clip's conversion is worked out; the script's is `ConversionFor`. */
  type Prescription = string -> Conversion

  /** The prescribed conversion of every selected clip, in listing order. */
  function Candidates(sources: seq<string>, prescribe: Prescription): (cs: seq<Conversion>)
    ensures |cs| == |sources|
    ensures forall i :: 0 <= i < |sources| ==> cs[i] == prescribe(sources[i])
  {
    seq(|sources|, i requires 0 <= i < |sources| => prescribe(sources[i]))
  }

  lemma CandidatesStep(sources: seq<string>, i: int, prescribe: Prescription)
    requires 0 <= i < |sources|
    ensures Candidates(sources[..i + 1], prescribe) == Candidates(sources[..i], prescribe) + [prescribe(sources[i])]
  {
  }

  /** The export made for a conversion: right file, right source, its gain, mp3. */
  predicate Performs(e: Export, c: Conversion) {
    && e.destination == c.destination
    && e.format == "mp3"
    && Origin(e.audio) == c.source
    && GainsApplied(e.audio) == (if c.gain == 0 then [] else [c.gain])
    && FrameRate(e.audio) == Some(SAMPLE_RATE)
    && Channels(e.audio) == (if FORCE_MONO then Some(1) else None)
  }

  /** Each export performs the conversion at the same position. */
  predicate PerformsAll(exports: seq<Export>, cs: seq<Conversion>) {
    |exports| == |cs| && forall i :: 0 <= i < |exports| ==> Performs(exports[i], cs[i])
  }

  lemma PerformsAllAppend(exports: seq<Export>, cs: seq<Conversion>, e: Export, c: Conversion)
    requires PerformsAll(exports, cs) && Performs(e, c)
    ensures PerformsAll(exports + [e], cs + [c])
  {
  }

  function Destinations(cs: seq<Conversion>): set<string> {
    set c | c in cs :: c.destination
  }

  lemma DestinationsAppend(cs: seq<Conversion>, c: Conversion)
    ensures Destinations(cs + [c]) == Destinations(cs) + {c.destination}
  {
    assert forall d :: d in cs + [c] <==> d in cs || d == c;
  }

  /** The conversions made so far and the names present in the destination directory. */
  datatype Batch = Batch(conversions: seq<Conversion>, present: set<string>)

  /**
    The loop of `process_files` as a value: a candidate is skipped when
    overwriting is off and its destination is present (possibly because an
    earlier clip of the same stem created it); otherwise it is converted and
    its destination becomes present.
  */
  function Plan(cs: seq<Conversion>, existing: set<string>, overwrite: bool): (b: Batch)
    ensures existing <= b.present
  {
    if cs == [] then Batch([], existing)
    else
      var before := Plan(cs[..|cs| - 1], existing, overwrite);
      var c := cs[|cs| - 1];
      if !overwrite && c.destination in before.present then before
      else Batch(before.conversions + [c], before.present + {c.destination})
  }

  lemma PlanAppend(cs: seq<Conversion>, c: Conversion, existing: set<string>, overwrite: bool)
    ensures var before := Plan(cs, existing, overwrite);
      Plan(cs + [c], existing, overwrite)
        == if !overwrite && c.destination in before.present then before
           else Batch(before.conversions + [c], before.present + {c.destination})
  {
    assert (cs + [c])[..|cs|] == cs;
  }

  /**
    Afterwards the directory holds what it held plus every destination
    written, and every conversion made is one of the candidates.
  */
  lemma {:induction false} PlanWrites(cs: seq<Conversion>, existing: set<string>, overwrite: bool)
    ensures Plan(cs, existing, overwrite).present == existing + Destinations(Plan(cs, existing, overwrite).conversions)
    ensures forall c :: c in Plan(cs, existing, overwrite).conversions ==> c in cs
  {
    if cs != [] {
      var init, c := cs[..|cs| - 1], cs[|cs| - 1];
      PlanWrites(init, existing, overwrite);
      var before := Plan(init, existing, overwrite);
      if !(!overwrite && c.destination in before.present) {
        DestinationsAppend(before.conversions, c);
      }
      assert forall d :: d in init ==> d in cs;
    }
  }

  /** With overwriting on, every candidate is converted, in listing order. */
  lemma {:induction false} PlanOverwrite(cs: seq<Conversion>, existing: set<string>)
    ensures Plan(cs, existing, true).conversions == cs
  {
    if cs != [] {
      PlanOverwrite(cs[..|cs| - 1], existing);
    }
  }

  /**
    With overwriting off, no destination is written twice, none that existed
    is written, and every other candidate destination is written.
  */
  lemma {:induction false} PlanSkips(cs: seq<Conversion>, existing: set<string>)
    ensures var done := Plan(cs, existing, false).conversions;
      && (forall i, j :: 0 <= i < j < |done| ==> done[i].destination != done[j].destination)
      && (forall i :: 0 <= i < |done| ==> done[i].destination !in existing)
      && Destinations(done) == Destinations(cs) - existing
  {
    if cs != [] {
      var init, c := cs[..|cs| - 1], cs[|cs| - 1];
      PlanSkips(init, existing);
      PlanWrites(init, existing, false);
      var before := Plan(init, existing, false);
      assert cs == init + [c];
      DestinationsAppend(init, c);
      if c.destination !in before.present {
        DestinationsAppend(before.conversions, c);
        var done := before.conversions + [c];
        forall i | 0 <= i < |before.conversions|
          ensures done[i].destination != c.destination
        {
          assert done[i] in before.conversions;
        }
      }
    }
  }

  /**
    Reference definition of the skipping rule: keep a candidate when its
    destination neither existed beforehand nor belongs to an earlier candidate.
  */
  function FirstPerDestination(cs: seq<Conversion>, existing: set<string>): seq<Conversion> {
    if cs == [] then []
    else
      var init, c := cs[..|cs| - 1], cs[|cs| - 1];
      FirstPerDestination(init, existing)
        + (if c.destination in existing || c.destination in Destinations(init) then [] else [c])
  }

  /**
    With overwriting off, among the candidates sharing a destination that is
    not yet present only the first listed is converted, and the conversions
    keep listing order.
  */
  lemma {:induction false} PlanFirstPerDestination(cs: seq<Conversion>, existing: set<string>)
    ensures Plan(cs, existing, false).conversions == FirstPerDestination(cs, existing)
  {
    if cs != [] {
      var init, c := cs[..|cs| - 1], cs[|cs| - 1];
      PlanFirstPerDestination(init, existing);
      PlanWrites(init, existing, false);
      PlanSkips(init, existing);
      var before := Plan(init, existing, false);
      assert before.present == existing + (Destinations(init) - existing);
      assert c.destination in before.present <==> c.destination in existing || c.destination in Destinations(init);
    }
  }

  /**
    A `.wav` and an `.mp3` clip of the same stem give one conversion, from
    whichever of the two is listed first.
  */
  lemma SameStemOnce(base: string, existing: set<string>)
    requires !AllDots(base)
    requires base + ".mp3" !in existing
    ensures Plan(Candidates([base + ".wav", base + ".mp3"], ConversionFor), existing, false).conversions
      == [ConversionFor(base + ".wav")]
    ensures Plan(Candidates([base + ".mp3", base + ".wav"], ConversionFor), existing, false).conversions
      == [ConversionFor(base + ".mp3")]
  {
    var wav, mp3 := base + ".wav", base + ".mp3";
    CandidatesPair(wav, mp3, ConversionFor);
    DestinationOfAudio(base);
    SecondOfDestinationSkipped(ConversionFor(wav), ConversionFor(mp3), existing);
    CandidatesPair(mp3, wav, ConversionFor);
    SecondOfDestinationSkipped(ConversionFor(mp3), ConversionFor(wav), existing);
  }

  lemma CandidatesPair(first: string, second: string, prescribe: Prescription)
    ensures Candidates([first, second], prescribe) == [prescribe(first), prescribe(second)]
  {
  }

  /** Of two candidates with one new destination, only the first is converted. */
  lemma SecondOfDestinationSkipped(first: Conversion, second: Conversion, existing: set<string>)
    requires first.destination == second.destination && first.destination !in existing
    ensures Plan([first, second], existing, false).conversions == [first]
  {
    assert [first] == [] + [first] && [first, second] == [first] + [second];
    PlanAppend([], first, existing, false);
    PlanAppend([first], second, existing, false);
  }

  /**
    With the script's own setting (`OVERWRITE` is off) no existing file is
    written, no destination is written twice, and every new destination is.
  */
  lemma ScriptNeverOverwrites(listing: seq<string>, existing: set<string>)
    ensures var done := Plan(Candidates(SourceFiles(listing), ConversionFor), existing, OVERWRITE).conversions;
      && (forall i, j :: 0 <= i < j < |done| ==> done[i].destination != done[j].destination)
      && (forall i :: 0 <= i < |done| ==> done[i].destination !in existing)
      && Destinations(done) == Destinations(Candidates(SourceFiles(listing), ConversionFor)) - existing
  {
    PlanSkips(Candidates(SourceFiles(listing), ConversionFor), existing);
  }

  /**
    `process_files`: select the audio files of the listing; for each, work
    out its destination, skip it when overwriting is off and the destination
    is present, otherwise convert it with its character's gain, after which
    the destination is present.
  */
  method ProcessFiles(listing: seq<string>, existing: set<string>, overwrite: bool)
    returns (exports: seq<Export>, present: set<string>)
    ensures var plan := Plan(Candidates(SourceFiles(listing), ConversionFor), existing, overwrite);
      PerformsAll(exports, plan.conversions) && present == plan.present
  {
    var sourceFiles := SourceFiles(listing);
    exports, present := [], existing;
    ghost var conversions: seq<Conversion> := [];
    for i := 0 to |sourceFiles|
      invariant Plan(Candidates(sourceFiles[..i], ConversionFor), existing, overwrite) == Batch(conversions, present)
      invariant PerformsAll(exports, conversions)
    {
      var fileName := sourceFiles[i];
      ghost var c := ConversionFor(fileName);
      CandidatesStep(sourceFiles, i, ConversionFor);
      PlanAppend(Candidates(sourceFiles[..i], ConversionFor), c, existing, overwrite);
      var destinationFileName := DestinationName(fileName);
      if !overwrite && destinationFileName in present {
        continue;
      }
      var gain := GainOf(fileName);
      var e := ConvertAndCopyAudio(fileName, destinationFileName, gain);
      PerformsAllAppend(exports, conversions, e, c);
      exports := exports + [e];
      present := present + {destinationFileName};
      conversions := conversions + [c];
    }
    assert sourceFiles[..|sourceFiles|] == sourceFiles;
  }
}
