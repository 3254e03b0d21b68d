/**
 * main.c: what the program does with its command line once the options
 * are parsed: usage without files, the display mode from -m (or from the
 * number of files), and the background branch for ROOT.
 */
module Startup {
  import opened Wrappers
  import opened Util
  import FileMulti
  import Root

  /** UI window modes (ui_window.h); -1 selects the background, -2 is unset. */
  const ModeFull: int := 0
  const ModeSlide: int := 1
  const ModeThumb: int := 2
  const ModeRoot: int := -1
  const ModeUnset: int := -2

  /** The default background colour option. */
  const DefaultRootColor: string := "#000000"

  /**
   * What a run comes to: the usage message, a rejected -m value, the
   * image window in a mode with a progress total, or the background set
   * from a file with a colour and root mode, or a fetch that failed.
   */
  datatype Run =
    | Usage
    | BadMode(modeStr: string)
    | Window(mode: int, total: nat)
    | Background(path: string, color: string, rootMode: nat)
    | FetchFailed(path: string)

  /** main's return value: 1 for usage and a bad mode, 0 otherwise. */
  function ExitStatus(r: Run): (status: int)
    ensures status == 1 <==> r.Usage? || r.BadMode?
    ensures status == 0 || status == 1
  {
    if r.Usage? || r.BadMode? then 1 else 0
  }

  /**
   * The -m value compared with g_strcasecmp against THUMB, FULL, SLIDE
   * and ROOT in that order; None for anything else.
   */
  function ModeOf(s: string): (m: Option<int>)
    ensures m.Some? ==> m.value in {ModeThumb, ModeFull, ModeSlide, ModeRoot}
    ensures m == Some(ModeThumb) <==> SameIgnoringCase(s, "THUMB")
    ensures m == Some(ModeFull) <==> SameIgnoringCase(s, "FULL")
    ensures m == Some(ModeSlide) <==> SameIgnoringCase(s, "SLIDE")
    ensures m == Some(ModeRoot) <==> SameIgnoringCase(s, "ROOT")
  {
    if SameIgnoringCase(s, "THUMB") then
      assert AsciiUpper(s[0]) == AsciiUpper("THUMB"[0]);
      Some(ModeThumb)
    else if SameIgnoringCase(s, "FULL") then
      assert AsciiUpper(s[0]) == AsciiUpper("FULL"[0]);
      Some(ModeFull)
    else if SameIgnoringCase(s, "SLIDE") then Some(ModeSlide)
    else if SameIgnoringCase(s, "ROOT") then Some(ModeRoot)
    else None
  }

  /** Mode names are recognised whatever the case they are typed in. */
  lemma {:induction false} ModeOfIgnoresCase(s: string)
    ensures ModeOf(Upper(s)) == ModeOf(s)
  {
    var u := Upper(s);
    forall t: string ensures SameIgnoringCase(u, t) <==> SameIgnoringCase(s, t) {
      if |u| == |t| {
        forall i | 0 <= i < |s| ensures AsciiUpper(u[i]) == AsciiUpper(s[i]) {
          assert u[i] == AsciiUpper(s[i]);
        }
      }
    }
  }

  /** `n` entries of the NULL-terminated array come before its first NULL. */
  predicate Counted(files: seq<Option<string>>, n: nat)
  {
    n < |files| && files[n].None? && forall i :: 0 <= i < n ==> files[i].Some?
  }

  /**
   * The counting loop over the NULL-terminated file array: the number of
   * entries before the first NULL.
   */
  method CountFiles(files: seq<Option<string>>) returns (count: nat)
    requires exists k :: 0 <= k < |files| && files[k].None?
    ensures Counted(files, count)
  {
    count := 0;
    while files[count] != None
      invariant count < |files|
      invariant forall i :: 0 <= i < count ==> files[i].Some?
      invariant exists k :: count <= k < |files| && files[k].None?
      decreases |files| - count
    {
      count := count + 1;
    }
  }

  /**
   * main after option parsing.  `files` is the file argument array
   * (None when there were no file arguments; otherwise NULL-terminated
   * with at least one file); `modeStr` the -m value.  In the background
   * branch only the first file is used: it is opened and, if it needs
   * fetching, fetched with the given outcomes (`env`, `tmpName`,
   * `stdinOpens`, `run` as in FileMulti); the background is then set
   * from it with the colour option and the centre mode.
   */
  method Start(files: Option<seq<Option<string>>>, modeStr: Option<string>, color: string,
              env: FileMulti.Env, tmpName: Option<string>, stdinOpens: bool, run: FileMulti.WgetRun)
    returns (r: Run)
    requires files.Some? ==> |files.value| > 1 && files.value[0].Some?
    requires files.Some? ==> exists k :: 0 <= k < |files.value| && files.value[k].None?
    ensures files.None? ==> r == Usage
    ensures files.Some? && modeStr.Some? && ModeOf(modeStr.value).None? ==> r == BadMode(modeStr.value)
    ensures r.Window? ==> files.Some? && Counted(files.value, r.total)
    ensures files.Some? && modeStr.None? ==>
      r.Window? && r.mode == if r.total > 1 then ModeSlide else ModeFull
    ensures files.Some? && modeStr.Some? && ModeOf(modeStr.value).Some? && ModeOf(modeStr.value).value != ModeRoot ==>
      r.Window? && r.mode == ModeOf(modeStr.value).value
    ensures files.Some? && modeStr.Some? && ModeOf(modeStr.value) == Some(ModeRoot) ==>
      var path := files.value[0].value;
      var local := FileMulti.GetMethod(path) == FileMulti.Plain;
      var fetched := tmpName.Some? &&
        if FileMulti.GetMethod(path) == FileMulti.Stdin then stdinOpens else run == FileMulti.Exited(0);
      r == if local || fetched then Background(path, color, Root.ModeCenter) else FetchFailed(path)
  {
    if files.None? {
      return Usage;
    }
    var fileCount := CountFiles(files.value);
    var mode := ModeUnset;
    if modeStr.Some? {
      var m := ModeOf(modeStr.value);
      if m.None? {
        return BadMode(modeStr.value);
      }
      mode := m.value;
    }
    if mode != ModeRoot {
      if modeStr.None? {
        if fileCount > 1 {
          mode := ModeSlide;
        } else {
          mode := ModeFull;
        }
      }
      r := Window(mode, fileCount);
    } else {
      var path := files.value[0].value;
      var file := new FileMulti.MultiFile.Open(path, env);
      var ok := !file.needFetch;
      if !ok {
        ok := file.Fetch(false, tmpName, stdinOpens, run);
      }
      if ok {
        r := Background(path, color, Root.ModeCenter);
      } else {
        r := FetchFailed(path);
      }
    }
  }
}
