/**
  File-name conventions shared by the analysis and the deployment scripts:
  Python's `os.path.splitext` applied to a bare directory entry, the character
  key (stem, digits deleted, trailing underscores stripped) and the
  case-sensitive `.wav`/`.mp3` extension test.
*/
module FileNames {
  import opened Wrappers

  /** `str.isdigit` on one character, restricted to ASCII digits. */
  predicate IsDigit(c: char) {
    '0' <= c <= '9'
  }

  predicate EndsWith(s: string, suffix: string) {
    |suffix| <= |s| && s[|s| - |suffix|..] == suffix
  }

  /**
    The extension filter `endswith(".wav") or endswith(".mp3")`, case-sensitive,
    written character by character (its ensures shows it is that test).
  */
  predicate IsAudio(name: string)
    ensures IsAudio(name) <==> EndsWith(name, ".wav") || EndsWith(name, ".mp3")
  {
    var n := |name|;
    && n >= 4
    && name[n - 4] == '.'
    && ((name[n - 3] == 'w' && name[n - 2] == 'a' && name[n - 1] == 'v')
        || (name[n - 3] == 'm' && name[n - 2] == 'p' && name[n - 1] == '3'))
  }

  /** The extension test is case-sensitive. */
  lemma AudioCaseSensitive()
    ensures IsAudio("a.wav") && IsAudio("a.mp3")
    ensures !IsAudio("a.WAV") && !IsAudio("a.Mp3") && !IsAudio("a.ogg") && !IsAudio("wav")
  {
  }

  predicate AllDots(s: string) {
    forall i :: 0 <= i < |s| ==> s[i] == '.'
  }

  predicate NoDigits(s: string) {
    forall i :: 0 <= i < |s| ==> !IsDigit(s[i])
  }

  /** Index of the last occurrence of `c` in `s`, or -1 (Python's `str.rfind`). */
  function LastIndexOf(s: string, c: char): (i: int)
    ensures -1 <= i < |s|
    ensures 0 <= i ==> s[i] == c
    ensures forall j :: i < j < |s| ==> s[j] != c
  {
    if s == [] then -1
    else if s[|s| - 1] == c then |s| - 1
    else LastIndexOf(s[..|s| - 1], c)
  }

  /**
    `os.path.splitext` on a name without directory separators: the extension
    starts at the last dot, unless everything before that dot is dots
    (a leading dot does not start an extension), in which case it is empty.
  */
  function SplitExt(name: string): (r: (string, string))
    ensures r.0 + r.1 == name
    ensures r.1 != [] ==> r.1[0] == '.' && '.' !in r.1[1..] && !AllDots(r.0)
    ensures r.1 == [] ==> forall i :: 0 <= i < |name| && name[i] == '.' ==> AllDots(name[..i])
  {
    var d := LastIndexOf(name, '.');
    if 0 <= d && !AllDots(name[..d]) then (name[..d], name[d..]) else (name, [])
  }

  function Stem(name: string): string {
    SplitExt(name).0
  }

  /** A name made of a stem that is not all dots and a one-dot extension splits there. */
  lemma SplitExtOf(base: string, ext: string)
    requires !AllDots(base)
    requires |ext| > 0 && ext[0] == '.' && '.' !in ext[1..]
    ensures SplitExt(base + ext) == (base, ext)
  {
    var name := base + ext;
    var d := LastIndexOf(name, '.');
    assert name[|base|] == '.';
    assert d == |base|;
    assert name[..d] == base;
    assert name[d..] == ext;
  }

  /** The list comprehension that keeps the non-digit characters. */
  function RemoveDigits(s: string): (r: string)
    ensures NoDigits(r)
    ensures |r| <= |s|
    ensures forall i :: 0 <= i < |r| ==> r[i] in s
  {
    if s == [] then []
    else (if IsDigit(s[0]) then [] else [s[0]]) + RemoveDigits(s[1..])
  }

  lemma {:induction false} RemoveDigitsAppend(a: string, b: string)
    ensures RemoveDigits(a + b) == RemoveDigits(a) + RemoveDigits(b)
  {
    if a != [] {
      assert (a + b)[0] == a[0] && (a + b)[1..] == a[1..] + b;
      RemoveDigitsAppend(a[1..], b);
      assert RemoveDigits(a + b) == (if IsDigit(a[0]) then [] else [a[0]]) + RemoveDigits(a[1..] + b);
    } else {
      assert a + b == b;
    }
  }

  lemma {:induction false} RemoveDigitsKeeps(s: string)
    requires NoDigits(s)
    ensures RemoveDigits(s) == s
  {
    if s != [] {
      RemoveDigitsKeeps(s[1..]);
    }
  }

  /** `str.rstrip('_')`: removes every trailing underscore, not just one. */
  function RStripUnderscores(s: string): (r: string)
    ensures r <= s
    ensures forall i :: |r| <= i < |s| ==> s[i] == '_'
    ensures r == [] || r[|r| - 1] != '_'
  {
    if s != [] && s[|s| - 1] == '_' then RStripUnderscores(s[..|s| - 1]) else s
  }

  lemma {:induction false} RStripUnderscoresOf(base: string, tail: string)
    requires base == [] || base[|base| - 1] != '_'
    requires forall i :: 0 <= i < |tail| ==> tail[i] == '_'
    ensures RStripUnderscores(base + tail) == base
  {
    if tail != [] {
      assert (base + tail)[..|base + tail| - 1] == base + tail[..|tail| - 1];
      RStripUnderscoresOf(base, tail[..|tail| - 1]);
    } else {
      assert base + tail == base;
    }
  }

  /** The character prefix computed by both scripts from a file name. */
  function CharacterKey(name: string): (key: string)
    ensures NoDigits(key)
    ensures key == [] || key[|key| - 1] != '_'
  {
    RStripUnderscores(RemoveDigits(Stem(name)))
  }

  /**
    The file selection and prefix of both scripts: an audio file's character
    key, `None` for a name the scripts pass over.
  */
  function Prefix(name: string): (p: Option<string>)
    ensures p.Some? <==> IsAudio(name)
  {
    if IsAudio(name) then Some(CharacterKey(name)) else None
  }

  /**
    Clips of one character share its key whatever their numeric suffix:
    `<key><digits and underscores><.ext>` maps back to `<key>`.
  */
  lemma NumberedClipKey(base: string, suffix: string, ext: string)
    requires !AllDots(base) && NoDigits(base) && base[|base| - 1] != '_'
    requires forall i :: 0 <= i < |suffix| ==> IsDigit(suffix[i]) || suffix[i] == '_'
    requires |ext| > 0 && ext[0] == '.' && '.' !in ext[1..]
    ensures CharacterKey(base + suffix + ext) == base
  {
    assert !AllDots(base + suffix) by {
      var i :| 0 <= i < |base| && base[i] != '.';
      assert (base + suffix)[i] == base[i];
    }
    SplitExtOf(base + suffix, ext);
    RemoveDigitsAppend(base, suffix);
    RemoveDigitsKeeps(base);
    var rest := RemoveDigits(suffix);
    assert forall i :: 0 <= i < |rest| ==> rest[i] == '_' by {
      UnderscoresSurvive(suffix);
    }
    RStripUnderscoresOf(base, rest);
  }

  lemma {:induction false} UnderscoresSurvive(s: string)
    requires forall i :: 0 <= i < |s| ==> IsDigit(s[i]) || s[i] == '_'
    ensures forall i :: 0 <= i < |RemoveDigits(s)| ==> RemoveDigits(s)[i] == '_'
  {
    if s != [] {
      UnderscoresSurvive(s[1..]);
    }
  }

  /** The example of the settings table: "alice_012.wav" belongs to "alice". */
  lemma AliceClipKey()
    ensures CharacterKey("alice_012.wav") == "alice"
  {
    assert "alice_012.wav" == "alice" + "_012" + ".wav";
    assert "alice"[0] != '.';
    NumberedClipKey("alice", "_012", ".wav");
  }
}
