# Voice clip analysis and deployment, modelled in Dafny

The repository has two scripts for the voice clips of an "Alice in Wonderland" game.

- `voice/analyse.py` measures loudness. It groups the raw clips by character and finds each character's largest gain that does not clip. It also computes how loud each character is compared with a reference character.
- `voice/deploy_audio.py` copies the clips into the game. It converts each `.wav` or `.mp3` clip to a mono 44100 Hz mp3. It applies the character's gain from a fixed table. When overwriting is off, it skips clips whose destination file already exists.

Both scripts identify a character by a key taken from the file name. The key is the name without its extension, with every digit removed and all trailing underscores stripped. For example, `alice_012.wav` has the key `alice`.

The project has four modules:

- `Wrappers` (`wrappers.dfy`) holds the `Option` type.
- `FileNames` (`filenames.dfy`) models file names:
  - the test for the `.wav`/`.mp3` extensions;
  - `os.path.splitext`, where a leading dot does not start an extension;
  - digit removal and `rstrip('_')`;
  - the character key.
- `Analyse` (`analyse.dfy`) models `analyze_audio_files`:
  - specification functions define the grouping (`Grouping`, `KeyOrder`, `Members`) and the result (`Analysis`);
  - lemmas prove what the result means;
  - two imperative methods are proved equal to those functions. `GroupByPrefix` is the first loop. `AnalyzeAudioFiles` is the whole function.
- `Deploy` (`deploy_audio.dfy`) models `deploy_audio.py`:
  - the settings table and its lookup;
  - the destination name and the source filter;
  - `convert_and_copy_audio`, as the chain of audio operations that gets exported;
  - `process_files`, as an imperative loop proved equal to a specification function `Plan`. Lemmas then prove the skip and overwrite behaviour of `Plan`.

Each clip's safe gain is an input. It is the linear gain the script derives from the decoded peak level. The conversion `20 * log10(x)` is a function parameter `toDb`. In the deployment model, the destination directory is a set of file names. Each export adds one name to that set.

## Model

| member | source | states |
|---|---|---|
| FileNames.IsAudio | voice/analyse.py:16 | The character-by-character test accepts a name exactly when it ends in `.wav` or in `.mp3`. |
| FileNames.AudioCaseSensitive | voice/analyse.py:16 | The extension test is case-sensitive: `a.WAV` and `a.Mp3` are rejected, as are `a.ogg` and `wav`; `a.wav` and `a.mp3` are accepted. |
| FileNames.LastIndexOf | voice/analyse.py:18 | The result is -1, or the position of an occurrence of the character such that no later position holds it. |
| FileNames.SplitExt | voice/analyse.py:18 | Like `os.path.splitext`, root and extension concatenate back to the name. The extension is empty or is a dot followed by no dot. A name made only of dots (leading dots) has an empty extension. |
| FileNames.SplitExtOf | voice/analyse.py:18 | For a base that is not all dots and an extension `.x` without dots, `base + ".x"` splits into exactly `base` and `.x`. |
| FileNames.RemoveDigits | voice/analyse.py:18 | The result contains no digit, is no longer than the input, and every character of it occurs in the input. With `RemoveDigitsAppend` this means each digit is deleted, not replaced. |
| FileNames.RemoveDigitsAppend | voice/analyse.py:18 | Removing digits from `a + b` gives the digit-free `a` followed by the digit-free `b`. |
| FileNames.RemoveDigitsKeeps | voice/analyse.py:18 | A string without digits is left unchanged. |
| FileNames.RStripUnderscores | voice/analyse.py:18 | The result is a prefix of the input, does not end in `_`, and only underscores were removed. |
| FileNames.RStripUnderscoresOf | voice/analyse.py:18 | Stripping a tail made only of underscores from a base that does not end in `_` gives back the base. |
| FileNames.Prefix | voice/analyse.py:16-18 | A file gets a key exactly when its name ends in `.wav` or `.mp3`. |
| FileNames.CharacterKey | voice/analyse.py:18 | Every character key is free of digits and is empty or does not end in `_`. |
| FileNames.NumberedClipKey | voice/deploy_audio.py:29 | Take a base that has no digits, is not all dots and does not end in `_`. The base followed by any run of digits and underscores and by a one-dot extension has the base as its key. |
| FileNames.AliceClipKey | voice/deploy_audio.py:29 | `alice_012.wav` has the key `alice`. |
| Analyse.Members | voice/analyse.py:30-32 | Every clip in a character's list has that character's key. |
| Analyse.MembersFromListing | voice/analyse.py:30-32 | Every clip in a group comes from the listing. |
| Analyse.KeyOrderMembers | voice/analyse.py:30-31 | A key is created exactly when its group is non-empty. |
| Analyse.GroupsNonEmpty | voice/analyse.py:30-32 | Every group that is created holds at least one clip. |
| Analyse.KeyOrderDistinct | voice/analyse.py:30-31 | Each key is created once. |
| Analyse.MembersComplete | voice/analyse.py:15-32 | Every accepted clip is in the group of its key. |
| Analyse.GroupExists | voice/analyse.py:15-32 | A key's group is non-empty exactly when some clip of the listing is classified under that key. |
| Analyse.MembersAppend | voice/analyse.py:32 | The group for a listing `a + b` is the group for `a` followed by the group for `b`, so clips keep listing order. |
| Analyse.GroupsPartition | voice/analyse.py:15-32 | The group sizes add up to the number of accepted clips: accepted clips are partitioned among the groups, each in exactly one. |
| Analyse.Min | voice/analyse.py:47 | The minimum is an element of the non-empty list and is no greater than any element. |
| Analyse.AnalysisNone | voice/analyse.py:27-37 | The result is `None` exactly when no accepted clip has the reference key. |
| Analyse.Analysis | voice/analyse.py:9-63 | The analysis is `None` exactly when the reference character's group is empty. |
| Analyse.AnalysisKeys | voice/analyse.py:43-61 | When there is a result, its keys are exactly the keys of accepted clips. |
| Analyse.AnalysisEntry | voice/analyse.py:43-61 | When the reference group is non-empty, every character with clips is in the result, and its statistics are the profile of its group's safe gains against the minimum of the reference gains. |
| Analyse.AnalysisCeilings | voice/analyse.py:44-54 | When the reference group is non-empty, every character with clips is in the result. Its `max_safe_gain_linear` is at most every member's safe gain and equals one member's safe gain, and both dB fields are `toDb` of their linear values. |
| Analyse.AnalysisReference | voice/analyse.py:27-51 | The reference character is in the result. Its `max_safe_gain_linear` is the minimum of the reference gains, and its `normalization_linear` is 1. |
| Analyse.AnalysisRatio | voice/analyse.py:51 | When the reference group is non-empty, every character with clips is in the result with the reference. Its `normalization_linear` is its maximum divided by the reference's when the reference maximum is nonzero, and 1 otherwise. |
| Analyse.PrefixGroups | voice/analyse.py:16-18 | Under the scripts' classification, a clip belongs to a key exactly when its name is `.wav`/`.mp3` and its character key is that key. |
| Analyse.GroupByPrefix | voice/analyse.py:11-32 | The first loop builds exactly the grouping dictionary, the key creation order and the list of reference gains that the specification functions define. |
| Analyse.AnalyzeAudioFiles | voice/analyse.py:9-63 | The result equals `Analysis`, so the lemmas above all hold of `analyze_audio_files`. |
| Deploy.SettingsGains | voice/deploy_audio.py:12-21 | Every table entry has a `"gain"`, and all table gains lie between -3 and 7. |
| Deploy.GetCharacterSettings | voice/deploy_audio.py:23-30 | The settings returned for any clip hold a `"gain"`, and it lies between -3 and 7. |
| Deploy.GainOf | voice/deploy_audio.py:70 | The gain handed to the conversion lies between -3 and 7 for every clip. |
| Deploy.GainOfTable | voice/deploy_audio.py:23-30 | The settings always hold a `"gain"`. A clip's gain is the table gain of its key when the key is in the table and 0 otherwise, so it lies between -3 and 7. |
| Deploy.NumberedClipGain | voice/deploy_audio.py:29-30 | Take a clip named as in `FileNames.NumberedClipKey`. It gets the table gain of its base, or 0 when the base is not in the table. |
| Deploy.AliceGain | voice/deploy_audio.py:13 | `alice_012.wav` gets gain 5. |
| Deploy.DestinationName | voice/deploy_audio.py:60 | The destination ends in `.mp3`, so it passes the audio filter. When the source's stem is not all dots, splitting the destination gives back the source's stem and `.mp3`. |
| Deploy.DestinationOfAudio | voice/deploy_audio.py:60 | For a base that is not all dots, `base.mp3` keeps its name and `base.wav` becomes `base.mp3`. |
| Deploy.DestinationOfDotName | voice/deploy_audio.py:60 | A clip named `.mp3` has no extension under `splitext`, so its destination is `.mp3.mp3`. |
| Deploy.SourceFiles | voice/deploy_audio.py:55 | Every selected source ends in `.wav` or `.mp3`. |
| Deploy.SourceFilesSelect | voice/deploy_audio.py:55 | A name is selected exactly when it is in the listing and ends in `.wav` or `.mp3`. |
| Deploy.SourceFilesCaseSensitive | voice/deploy_audio.py:55 | On a sample listing, upper-case extensions and other formats are dropped and listing order is kept. |
| Deploy.ConvertAndCopyAudio | voice/deploy_audio.py:32-46 | The export writes the destination as mp3 from the loaded source. It applies the gain once when the gain is nonzero and not at all when it is 0. The gain comes before resampling to 44100 Hz, and the result is mono. |
| Deploy.Plan | voice/deploy_audio.py:58-73 | The destination directory only grows: every name present beforehand is still present afterwards. |
| Deploy.PlanWrites | voice/deploy_audio.py:58-73 | Afterwards the directory holds what it held plus exactly the destinations converted, and every conversion made is one of the candidates. |
| Deploy.PlanOverwrite | voice/deploy_audio.py:58-73 | With overwriting on, every selected clip is converted once, in listing order. |
| Deploy.PlanSkips | voice/deploy_audio.py:63-66 | With overwriting off, no destination is written twice and no existing file is overwritten. Every destination not already present is written. |
| Deploy.PlanFirstPerDestination | voice/deploy_audio.py:58-73 | With overwriting off, the conversions are exactly the candidates whose destination neither existed beforehand nor belongs to an earlier candidate, in listing order. So among clips sharing a new destination, only the first listed is converted. |
| Deploy.ScriptNeverOverwrites | voice/deploy_audio.py:7-73 | With the script's own setting `OVERWRITE = False`, no existing file is written, no destination is written twice, and every new destination is written. |
| Deploy.SecondOfDestinationSkipped | voice/deploy_audio.py:63-66 | Of two candidates with the same new destination, only the first is converted, since its export creates the destination. |
| Deploy.SameStemOnce | voice/deploy_audio.py:60-66 | With overwriting off, `x.wav` and `x.mp3` give a single conversion, from whichever is listed first, because its export creates `x.mp3`. So which of the two is converted depends on the listing order. |
| Deploy.ProcessFiles | voice/deploy_audio.py:49-73 | The loop's exports perform exactly the conversions of `Plan`, in order. Each export writes its destination as mp3 from its source, with its character's gain when that is nonzero, at 44100 Hz and mono. The final directory is `Plan`'s. |

## Left out

- Decoding and encoding audio is left out (`AudioSegment.from_file`, `max_dBFS`). Each clip's safe gain is an input value instead. The script's `safe_gain_dB` and the decoded audio stored beside each clip are not kept, because nothing reads them.
- Floating-point arithmetic is left out. `10 ** (x / 20)` happens before the inputs, and `20 * log10` is the uninterpreted parameter `toDb`. Division and minimum are over exact reals.
- Filesystem calls are replaced by values. `os.listdir` becomes a sequence of names, and `os.path.exists` becomes a set of destination names. `os.makedirs` and `os.path.join` are left out, and names are bare directory entries without path separators.
- Console output and the module-level script code are left out. This includes the `__main__` entry and the printing of results.
- `isdigit` is modelled for the ASCII digits 0-9 only. Python also counts other Unicode digits.
- Analyse.AnalyzeAudioFiles: the result is a Dafny `map`, so it does not carry the insertion order of the Python dictionary. That order is the key creation order, which `KeyOrder` and `GroupByPrefix` state.
- Analyse.AnalyzeAudioFiles: an exception from decoding a file aborts the Python function. The model has no such failure.
- Deploy.ProcessFiles: `OVERWRITE` is a parameter. The script fixes it to `False`. The model records that as the constant `Deploy.OVERWRITE`, and `Deploy.ScriptNeverOverwrites` states the plan under it.
- Deploy.ProcessFiles: the source and destination directories are implicit, and the exports are returned as values instead of written to disk.
- Deploy.ProcessFiles: an exception from `AudioSegment.from_file` or from `export` propagates out of `process_files`, which has no `try`, and the remaining clips are not processed. The model has no such failure, so it always processes every selected clip.
- Deploy.ConvertAndCopyAudio: the audio operations are recorded as a chain of values. What `audio + gain` or resampling does to samples is not modelled.
- Several behaviours are modelled as the code does them, not as a general description of the tools might suggest:
  - `rstrip('_')` removes every trailing underscore, not only one;
  - a missing reference character gives `None`, not an error;
  - a zero reference ceiling gives a ratio of 1, not a rejection;
  - there are no clip-range gain overrides and no per-file error reporting, because the code has neither.
