/**
 * `infer_output_path` and the argument precedence of `load_text_source`
 * (`src/paper2kb/io_utils.py`). Paths are POSIX paths. A missing `localfile`
 * is the empty string: `None` and "" are both falsy and take the same branch.
 */
module IoUtils {
  import opened Wrappers
  import opened Text
  import opened Values

  /** The index of the last occurrence of `c` in `s`. */
  function LastIndexOf(s: string, c: char): (r: Option<nat>)
    ensures r.Some? ==> r.value < |s| && s[r.value] == c && c !in s[r.value + 1..]
    ensures r.None? ==> c !in s
  {
    if s == [] then None
    else if s[|s| - 1] == c then Some(|s| - 1)
    else
      var r := LastIndexOf(s[..|s| - 1], c);
      assert s == s[..|s| - 1] + [s[|s| - 1]];
      if r.Some? then assert s[r.value + 1..] == s[..|s| - 1][r.value + 1..] + [s[|s| - 1]]; r
      else r
  }

  /** `os.path.basename(p)`: everything after the last "/". */
  function Basename(p: string): (b: string)
    ensures '/' !in b
    ensures EndsWith(p, b)
    ensures b == p || (|b| < |p| && p[|p| - |b| - 1] == '/')
  {
    match LastIndexOf(p, '/')
    case Some(i) => p[i + 1..]
    case None => p
  }

  /**
   * `os.path.splitext(b)[0]` for a name without "/": the name up to its last
   * ".", unless every character before that dot is a dot as well (".bashrc",
   * "..txt"), in which case the whole name.
   */
  function Stem(b: string): (stem: string)
    ensures stem <= b
    ensures stem != b <==> exists i, j :: 0 <= j < i < |b| && b[j] != '.' && b[i] == '.'
    ensures stem != b ==> b[|stem|] == '.' && '.' !in b[|stem| + 1..]
  {
    match LastIndexOf(b, '.')
    case Some(i) =>
      if exists j :: 0 <= j < i && b[j] != '.' then
        assert b[..i] != b by { assert |b[..i]| < |b|; }
        b[..i]
      else
        b
    case None => b
  }

  /** `os.path.join(outdir, name)` for a `name` that does not start with "/". */
  function PathJoin(outdir: string, name: string): string {
    if outdir == [] || outdir[|outdir| - 1] == '/' then outdir + name else outdir + "/" + name
  }

  const NoSourceMessage := "Cannot infer output path without PMID or localfile"

  /** `infer_output_path(pmid, localfile, format, outdir)`; the `makedirs` call is left out. */
  function InferOutputPath(pmid: Value, localfile: string, format: string, outdir: string): (r: Result<string, PyError>)
    ensures r.Success? <==> Truthy(pmid) || localfile != []
    ensures r.Failure? ==> r.error == ValueError(NoSourceMessage)
    ensures r.Success? ==> outdir <= r.value && EndsWith(r.value, "." + format)
  {
    if Truthy(pmid) then
      OutputNameShape(outdir, "pmid" + Display(pmid), format);
      Success(PathJoin(outdir, "pmid" + Display(pmid) + "." + format))
    else if localfile != [] then
      OutputNameShape(outdir, Stem(Basename(localfile)) + "_parsed", format);
      Success(PathJoin(outdir, Stem(Basename(localfile)) + "_parsed" + "." + format))
    else Failure(ValueError(NoSourceMessage))
  }

  /** An output file `base + "." + format` joined to `outdir` lies under `outdir` and keeps the extension. */
  lemma OutputNameShape(outdir: string, base: string, format: string)
    ensures outdir <= PathJoin(outdir, base + "." + format)
    ensures EndsWith(PathJoin(outdir, base + "." + format), "." + format)
  {
    var name := base + "." + format;
    PathJoinShape(outdir, name);
    var j := PathJoin(outdir, name);
    assert name[|name| - |"." + format|..] == "." + format;
    assert j[|j| - |"." + format|..] == j[|j| - |name|..][|name| - |"." + format|..];
  }

  /** What `load_text_source` reads. */
  datatype TextSource = ReadPdf(path: string) | ReadFile(path: string) | FetchPmid(pmid: Value)

  /** `load_text_source(pmid, localfile)`: a local file (PDF by extension) first, then the PMID, else `ValueError`. */
  function LoadTextSource(pmid: Value, localfile: string): (r: Result<TextSource, PyError>)
    ensures r.Success? <==> localfile != [] || Truthy(pmid)
    ensures r.Success? && r.value.FetchPmid? <==> localfile == [] && Truthy(pmid)
    ensures r.Success? && !r.value.FetchPmid? ==> r.value.path == localfile
    ensures r.Success? && r.value.ReadPdf? <==> EndsWith(localfile, ".pdf") && localfile != []
  {
    if localfile != [] then
      if EndsWith(localfile, ".pdf") then Success(ReadPdf(localfile)) else Success(ReadFile(localfile))
    else if Truthy(pmid) then Success(FetchPmid(pmid))
    else Failure(ValueError("Must provide either PMID or local file path."))
  }

  /** The joined path starts with the directory, ends with the name, and has a "/" just before the name. */
  lemma PathJoinShape(outdir: string, name: string)
    ensures outdir <= PathJoin(outdir, name)
    ensures EndsWith(PathJoin(outdir, name), name)
    ensures outdir != [] ==> |PathJoin(outdir, name)| > |name| &&
                             PathJoin(outdir, name)[|PathJoin(outdir, name)| - |name| - 1] == '/'
  {
    var j := PathJoin(outdir, name);
    if outdir != [] && outdir[|outdir| - 1] == '/' {
      assert j[|j| - |name| - 1] == outdir[|outdir| - 1];
    }
  }

  /** A truthy `pmid` decides the name, whatever `localfile` is: the PMID wins over the local file. */
  lemma PmidTakesPrecedence(pmid: Value, localfile: string, localfile': string, format: string, outdir: string)
    requires Truthy(pmid)
    ensures InferOutputPath(pmid, localfile, format, outdir) == InferOutputPath(pmid, localfile', format, outdir)
    ensures InferOutputPath(pmid, localfile, format, outdir).Success?
    ensures EndsWith(InferOutputPath(pmid, localfile, format, outdir).value, "pmid" + Display(pmid) + "." + format)
  {
    PathJoinShape(outdir, "pmid" + Display(pmid) + "." + format);
  }

  /**
   * With only a local file, the name is the file's base name without its last
   * extension, then "_parsed." and the format; the directory part never reaches the name.
   */
  lemma LocalfileName(pmid: Value, localfile: string, format: string, outdir: string)
    requires !Truthy(pmid) && localfile != []
    ensures var r := InferOutputPath(pmid, localfile, format, outdir);
            && r.Success?
            && EndsWith(r.value, Stem(Basename(localfile)) + "_parsed" + "." + format)
            && '/' !in Stem(Basename(localfile))
            && EndsWith(localfile, Basename(localfile))
  {
    PathJoinShape(outdir, Stem(Basename(localfile)) + "_parsed" + "." + format);
    var b := Basename(localfile);
    var st := Stem(b);
    assert forall i :: 0 <= i < |st| ==> st[i] == b[i];
  }

  /** With neither a truthy PMID nor a local file, `ValueError` is raised. */
  lemma NoSourceRaises(pmid: Value, format: string, outdir: string)
    requires !Truthy(pmid)
    ensures InferOutputPath(pmid, "", format, outdir) == Failure(ValueError(NoSourceMessage))
    ensures LoadTextSource(pmid, "").Failure?
  {
  }

  /** `Stem` drops exactly the last extension: a name with a non-dot character before its last "." loses that "." and what follows. */
  lemma StemRemovesLastExtension(name: string, ext: string)
    requires exists j :: 0 <= j < |name| && name[j] != '.'
    requires '.' !in ext
    ensures Stem(name + "." + ext) == name
  {
    var b := name + "." + ext;
    var j :| 0 <= j < |name| && name[j] != '.';
    assert b[j] != '.' && b[|name|] == '.';
    var stem := Stem(b);
    assert stem != b;
    assert stem == b[..|name|];
  }

  /** The two routines disagree on precedence: given both, text is read from the local file but the output is named after the PMID. */
  lemma OppositePrecedence(pmid: Value, localfile: string, format: string, outdir: string)
    requires Truthy(pmid) && localfile != []
    ensures !LoadTextSource(pmid, localfile).value.FetchPmid?
    ensures InferOutputPath(pmid, localfile, format, outdir) == InferOutputPath(pmid, "", format, outdir)
  {
  }
}
