/**
  Input validation and the default output name: the project path must end
  in `.sunvox` and name an existing file; without a usable `-o` value the
  output path is the input path with that suffix replaced by `.wav`.
 */
module OutputName {

  import opened Wrappers

  const PROJECT_SUFFIX: string := ".sunvox"
  const WAV_SUFFIX: string := ".wav"

  /** `str.endswith`: `s` is some prefix followed by `suffix`. */
  predicate EndsWith(s: string, suffix: string): (b: bool)
    ensures b <==> |suffix| <= |s| && s == s[..|s| - |suffix|] + suffix
  {
    |suffix| <= |s| && s[|s| - |suffix|..] == suffix
  }

  /** Any prefix followed by `suffix` ends with it. */
  lemma EndsWithAppend(prefix: string, suffix: string)
    ensures EndsWith(prefix + suffix, suffix)
    ensures (prefix + suffix)[..|prefix|] == prefix
  {
    assert (prefix + suffix)[|prefix|..] == suffix;
  }

  /** Why argparse rejected the command line. */
  datatype UsageError = NotAProject(path: string) | BadByteWidth(bytes: int)

  /**
    The `infile` argument type: accepted when it ends in `.sunvox` and the
    file exists (`isFile` stands for `os.path.isfile`).
   */
  function CheckProject(s: string, isFile: bool): (r: Result<string, UsageError>)
    ensures r.Success? <==> EndsWith(s, PROJECT_SUFFIX) && isFile
    ensures r.Success? ==> r.value == s
    ensures r.Failure? ==> r.error == NotAProject(s)
  {
    if !EndsWith(s, PROJECT_SUFFIX) || !isFile then Failure(NotAProject(s)) else Success(s)
  }

  /**
    `re.sub(r"\.sunvox$", ".wav", s)`: `$` matches at the very end and just
    before a final newline, so at most one `.sunvox` is rewritten.
   */
  function ReplaceProjectSuffix(s: string): (r: string)
    ensures EndsWith(s, PROJECT_SUFFIX) ==>
      EndsWith(r, WAV_SUFFIX) && r[..|r| - |WAV_SUFFIX|] == s[..|s| - |PROJECT_SUFFIX|]
    ensures !EndsWith(s, PROJECT_SUFFIX) && !EndsWith(s, PROJECT_SUFFIX + "\n") ==> r == s
  {
    if EndsWith(s, PROJECT_SUFFIX) then s[..|s| - |PROJECT_SUFFIX|] + WAV_SUFFIX
    else if EndsWith(s, PROJECT_SUFFIX + "\n") then s[..|s| - |PROJECT_SUFFIX| - 1] + WAV_SUFFIX + "\n"
    else s
  }

  /**
    `args.out or re.sub(...)`: a non-empty `-o` value is used verbatim; an
    absent or empty one (both falsy in Python) gives the default name.
   */
  function OutputPath(infile: string, out: Option<string>): (r: string)
    ensures out.Some? && out.value != "" ==> r == out.value
    ensures (out.None? || out.value == "") && EndsWith(infile, PROJECT_SUFFIX) ==>
      EndsWith(r, WAV_SUFFIX) && r[..|r| - |WAV_SUFFIX|] == infile[..|infile| - |PROJECT_SUFFIX|]
  {
    if out.Some? && out.value != "" then out.value else ReplaceProjectSuffix(infile)
  }

  /** Swapping `.wav` back for `.sunvox` recovers an accepted input path. */
  lemma DefaultNameInverse(infile: string)
    requires EndsWith(infile, PROJECT_SUFFIX)
    ensures var r := OutputPath(infile, None);
      r[..|r| - |WAV_SUFFIX|] + PROJECT_SUFFIX == infile
  {
    var r := OutputPath(infile, None);
    assert infile == infile[..|infile| - |PROJECT_SUFFIX|] + infile[|infile| - |PROJECT_SUFFIX|..];
  }

  /** Distinct accepted inputs get distinct default outputs. */
  lemma DefaultNameInjective(a: string, b: string)
    requires EndsWith(a, PROJECT_SUFFIX) && EndsWith(b, PROJECT_SUFFIX)
    requires OutputPath(a, None) == OutputPath(b, None)
    ensures a == b
  {
    DefaultNameInverse(a);
    DefaultNameInverse(b);
  }

  /** A default output path never overwrites the input project. */
  lemma DefaultNameDiffersFromInput(infile: string)
    requires EndsWith(infile, PROJECT_SUFFIX)
    ensures OutputPath(infile, None) != infile
  {
    var r := OutputPath(infile, None);
    assert |r| == |infile| - 3;
  }
}
