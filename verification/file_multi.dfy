/**
 * file_multi.c: a file named by a path that may be a local file, standard
 * input or an http/https/ftp URL, with its name, extension, URI and
 * directory worked out on demand and remembered, and the fetching of
 * remote and piped files into a temporary file.
 */
module FileMulti {
  import opened Wrappers
  import opened CText
  import opened Util
  import opened Paths

  /** How a path is fetched (FILE_MULTI_METHOD_PLAIN 1 .. FTP 4). */
  datatype Method = Plain | Stdin | Http | Ftp

  /** What create_uri reads from the process: the home and current directory. */
  datatype Env = Env(home: string, cwd: string)

  /**
   * How wget ended: it could not be started, or it was reaped with this
   * exit status (after being killed when the stop flag was raised).
   */
  datatype WgetRun = NotSpawned | Exited(status: int)

  predicate IsWebUrl(path: string)
  {
    StartsWithIgnoringCase(path, "http://") || StartsWithIgnoringCase(path, "https://")
  }

  /**
   * get_method: "-" alone is standard input; a path starting with
   * http:// or https:// (any case) is fetched over http; a path holding
   * ftp:// anywhere (any case) over ftp; anything else is a plain file.
   */
  function GetMethod(path: string): (m: Method)
    ensures m == Stdin <==> path == "-"
    ensures m == Http <==> path != "-" && IsWebUrl(path)
    ensures m == Ftp <==> path != "-" && !IsWebUrl(path) && ContainsIgnoringCase(path, "ftp://")
  {
    StrIPosAtStart(path, "http://");
    StrIPosAtStart(path, "https://");
    if |path| == 1 && path[0] == '-' then
      assert path == "-";
      Stdin
    else if StrIPos(path, "http://") == Some(0) || StrIPos(path, "https://") == Some(0) then Http
    else if StrIPos(path, "ftp://").Some? then Ftp
    else Plain
  }

  /** create_name: "stdin" for standard input, the path's basename otherwise. */
  function CreateName(path: string, m: Method): (name: string)
    ensures m == Stdin ==> name == "stdin"
    ensures |name| > 0
    ensures m != Stdin ==> name == "." || name == "/" || '/' !in name
  {
    if m == Stdin then "stdin" else Basename(path)
  }

  /**
   * create_ext: the text after the last `.` of the path, and no
   * extension when the path has no `.`.
   */
  function CreateExt(path: string): (ext: Option<string>)
    ensures ext.None? <==> '.' !in path
    ensures ext.Some? ==> '.' !in ext.value && |ext.value| < |path|
    ensures ext.Some? ==> path == path[..|path| - |ext.value| - 1] + "." + ext.value
  {
    match LastIndexOf(path, '.')
    case None => None
    case Some(i) =>
      assert path == path[..i] + "." + path[i + 1..];
      Some(path[i + 1..])
  }

  /**
   * create_uri: "stdin" for standard input; a plain path becomes a
   * file:// URI, with a leading `~` replaced by the home directory and a
   * relative path put under the current directory; a URL is its own URI.
   */
  function CreateUri(path: string, m: Method, env: Env): (uri: string)
    ensures m == Stdin ==> uri == "stdin"
    ensures m == Http || m == Ftp ==> uri == path
    ensures m == Plain ==> |uri| >= 7 && uri[..7] == "file://"
    ensures m == Plain && |path| > 0 && path[0] == '/' ==> uri[7..] == path
    ensures m == Plain && |path| > 0 && path[0] == '~' ==> uri[7..] == env.home + "/" + path[1..]
    ensures m == Plain && (|path| == 0 || (path[0] != '/' && path[0] != '~')) ==>
      uri[7..] == env.cwd + "/" + path
  {
    match m
    case Stdin => "stdin"
    case Plain =>
      if |path| > 0 && path[0] == '~' then "file:/" + "/" + env.home + "/" + path[1..]
      else if |path| > 0 && path[0] == '/' then "file://" + path
      else "file:/" + "/" + env.cwd + "/" + path
    case _ => path
  }

  /**
   * The size get_size is meant to remember: the size stat reports, the
   * first time it succeeds.
   */
  function SizeAfterStat(cached: int, stat: Option<int>): (size: int)
    ensures cached != -1 ==> size == cached
    ensures cached == -1 && stat.Some? ==> size == stat.value
    ensures cached == -1 && stat.None? ==> size == -1
  {
    if cached == -1 && stat.Some? then stat.value else cached
  }

  /**
   * get_size as written: the cached size is replaced only when g_stat
   * fails (it returns 0 on success), and then by whatever the unfilled
   * stat buffer held.
   */
  function SizeAsWritten(cached: int, stat: Option<int>, stale: int): (size: int)
    ensures cached != -1 ==> size == cached
  {
    if cached == -1 && stat.None? then stale else cached
  }

  /** As written, a successful stat never reaches the cache, while a failed one stores garbage. */
  lemma SizeAsWrittenInverted(n: int, stale: int)
    requires n != -1 && stale != -1
    ensures SizeAsWritten(-1, Some(n), stale) == -1 != SizeAfterStat(-1, Some(n))
    ensures SizeAsWritten(-1, None, stale) == stale != SizeAfterStat(-1, None)
  {
  }

  class MultiFile {
    var name: Option<string>
    var ext: Option<string>
    var uri: Option<string>
    var dir: Option<string>
    var path: string
    var pathTmp: Option<string>
    var size: int
    var mtime: int
    var how: Method
    var needFetch: bool
    const env: Env

    /**
     * Every remembered string is what would be computed from the current
     * path now, and a plain file never needs fetching.
     */
    ghost predicate Valid()
      reads this
    {
      (name.Some? ==> name.value == CreateName(path, how)) &&
      (ext.Some? ==> ext == CreateExt(path)) &&
      (uri.Some? ==> uri.value == CreateUri(path, how, env)) &&
      (dir.Some? ==> dir.value == Dirname(path)) &&
      (how == Plain ==> !needFetch)
    }

    /**
     * file_multi_open: nothing is remembered yet, there is no temporary
     * file, size and mtime are unknown (-1), and everything but a plain
     * file needs fetching.
     */
    constructor Open(p: string, e: Env)
      ensures Valid()
      ensures path == p && env == e && how == GetMethod(p)
      ensures needFetch <==> how != Plain
      ensures name.None? && ext.None? && uri.None? && dir.None? && pathTmp.None?
      ensures size == -1 && mtime == -1
    {
      name, ext, uri, dir := None, None, None, None;
      path := p;
      pathTmp := None;
      size, mtime := -1, -1;
      env := e;
      how := GetMethod(p);
      needFetch := GetMethod(p) != Plain;
    }

    /** get_path: the temporary copy when there is one, else the path itself. */
    function GetPath(): (p: string)
      reads this
      ensures pathTmp.Some? ==> p == pathTmp.value
      ensures pathTmp.None? ==> p == path
    {
      if pathTmp.Some? then pathTmp.value else path
    }

    /**
     * close_tmp: the temporary file (removed from disk) is forgotten;
     * nothing else changes, so a second call does nothing.
     */
    method CloseTmp()
      modifies this
      ensures pathTmp.None?
      ensures name == old(name) && ext == old(ext) && uri == old(uri) && dir == old(dir)
      ensures path == old(path) && size == old(size) && mtime == old(mtime)
      ensures how == old(how) && needFetch == old(needFetch)
      ensures old(pathTmp).None? ==> unchanged(this)
    {
      if pathTmp.Some? {
        pathTmp := None;
      }
    }

    /** get_name: the name of the path, computed once and then remembered. */
    method GetName() returns (n: string)
      requires Valid()
      modifies this
      ensures Valid()
      ensures n == CreateName(path, how) && name == Some(n)
      ensures old(name).Some? ==> unchanged(this)
      ensures ext == old(ext) && uri == old(uri) && dir == old(dir)
      ensures path == old(path) && pathTmp == old(pathTmp) && size == old(size) && mtime == old(mtime)
      ensures how == old(how) && needFetch == old(needFetch)
    {
      if name.None? {
        name := Some(CreateName(path, how));
      }
      n := name.value;
    }

    /**
     * get_ext: the extension, or "" when the path has none; a missing
     * extension is not remembered and is looked for again next time.
     */
    method GetExt() returns (e: string)
      requires Valid()
      modifies this
      ensures Valid()
      ensures ext == CreateExt(path)
      ensures e == if ext.Some? then ext.value else ""
      ensures old(ext).Some? ==> unchanged(this)
      ensures name == old(name) && uri == old(uri) && dir == old(dir)
      ensures path == old(path) && pathTmp == old(pathTmp) && size == old(size) && mtime == old(mtime)
      ensures how == old(how) && needFetch == old(needFetch)
    {
      if ext.None? {
        ext := CreateExt(path);
      }
      e := if ext.Some? then ext.value else "";
    }

    /** get_uri: the URI of the path, computed once and then remembered. */
    method GetUri() returns (u: string)
      requires Valid()
      modifies this
      ensures Valid()
      ensures u == CreateUri(path, how, env) && uri == Some(u)
      ensures old(uri).Some? ==> unchanged(this)
      ensures name == old(name) && ext == old(ext) && dir == old(dir)
      ensures path == old(path) && pathTmp == old(pathTmp) && size == old(size) && mtime == old(mtime)
      ensures how == old(how) && needFetch == old(needFetch)
    {
      if uri.None? {
        uri := Some(CreateUri(path, how, env));
      }
      u := uri.value;
    }

    /** get_dir: the directory of the path, computed once and then remembered. */
    method GetDir() returns (d: string)
      requires Valid()
      modifies this
      ensures Valid()
      ensures d == Dirname(path) && dir == Some(d)
      ensures old(dir).Some? ==> unchanged(this)
      ensures name == old(name) && ext == old(ext) && uri == old(uri)
      ensures path == old(path) && pathTmp == old(pathTmp) && size == old(size) && mtime == old(mtime)
      ensures how == old(how) && needFetch == old(needFetch)
    {
      if dir.None? {
        dir := Some(Dirname(path));
      }
      d := dir.value;
    }

    /**
     * get_mtime: while the mtime is unknown (-1), a successful stat of
     * get_path supplies it; once known it is kept.  `stat` is what stat
     * reports, None when it fails.
     */
    method GetMtime(stat: Option<int>) returns (t: int)
      modifies this
      ensures t == mtime
      ensures old(mtime) != -1 ==> t == old(mtime)
      ensures old(mtime) == -1 ==> t == if stat.Some? then stat.value else -1
      ensures name == old(name) && ext == old(ext) && uri == old(uri) && dir == old(dir)
      ensures path == old(path) && pathTmp == old(pathTmp) && size == old(size)
      ensures how == old(how) && needFetch == old(needFetch)
    {
      if mtime == -1 {
        if stat.Some? {
          mtime := stat.value;
        }
      }
      t := mtime;
    }

    /**
     * get_size, corrected to follow get_mtime: while the size is unknown
     * (-1), a successful stat supplies it.
     */
    method GetSize(stat: Option<int>) returns (s: int)
      modifies this
      ensures s == size == SizeAfterStat(old(size), stat)
      ensures name == old(name) && ext == old(ext) && uri == old(uri) && dir == old(dir)
      ensures path == old(path) && pathTmp == old(pathTmp) && mtime == old(mtime)
      ensures how == old(how) && needFetch == old(needFetch)
    {
      if size == -1 {
        if stat.Some? {
          size := stat.value;
        }
      }
      s := size;
    }

    /**
     * fetch_wget: nothing happens when the stop flag is up.  When wget
     * ran, exit status 0 means the file is fetched; any other status
     * drops the temporary file.  The result is whether the file no
     * longer needs fetching.
     */
    method FetchWget(stop: bool, run: WgetRun) returns (ok: bool)
      modifies this
      ensures stop ==> !ok && unchanged(this)
      ensures !stop ==> ok == !needFetch
      ensures !stop && run.NotSpawned? ==> unchanged(this)
      ensures !stop && run.Exited? && run.status == 0 ==> ok && pathTmp == old(pathTmp)
      ensures !stop && run.Exited? && run.status != 0 ==>
        pathTmp.None? && needFetch == old(needFetch)
      ensures name == old(name) && ext == old(ext) && uri == old(uri) && dir == old(dir)
      ensures path == old(path) && size == old(size) && mtime == old(mtime) && how == old(how)
      ensures !old(needFetch) ==> !needFetch
    {
      if stop {
        return false;
      }
      if run.Exited? {
        if run.status == 0 {
          needFetch := false;
        } else {
          CloseTmp();
        }
      }
      ok := !needFetch;
    }

    /**
     * fetch: TRUE at once when no fetch is needed or a temporary file is
     * already there.  Otherwise a temporary file is made (`tmpName`,
     * None when mkstemp fails, which is FALSE) and filled by method:
     * standard input succeeds when the temporary file can be opened
     * (`stdinOpens`) and leaves need-fetch set; http and ftp run wget.
     */
    method Fetch(stop: bool, tmpName: Option<string>, stdinOpens: bool, run: WgetRun) returns (ok: bool)
      requires Valid()
      modifies this
      ensures Valid()
      ensures !old(needFetch) || old(pathTmp).Some? ==> ok && unchanged(this)
      ensures old(needFetch) && old(pathTmp).None? && tmpName.None? ==> !ok && unchanged(this)
      ensures old(needFetch) && old(pathTmp).None? && tmpName.Some? && how == Stdin ==>
        ok == stdinOpens && pathTmp == tmpName && needFetch
      ensures old(needFetch) && old(pathTmp).None? && tmpName.Some? && how != Stdin ==>
        ok == (!stop && run == Exited(0))
      ensures old(needFetch) && old(pathTmp).None? && tmpName.Some? && how != Stdin && (stop || run.NotSpawned?) ==>
        pathTmp == tmpName && needFetch
      ensures old(needFetch) && old(pathTmp).None? && tmpName.Some? && how != Stdin && !stop && run == Exited(0) ==>
        pathTmp == tmpName && !needFetch
      ensures old(needFetch) && old(pathTmp).None? && tmpName.Some? && how != Stdin && !stop && run.Exited? && run.status != 0 ==>
        pathTmp.None? && needFetch
      ensures old(needFetch) && old(pathTmp).None? && ok ==> pathTmp == tmpName
      ensures name == old(name) && ext == old(ext) && uri == old(uri) && dir == old(dir)
      ensures path == old(path) && size == old(size) && mtime == old(mtime) && how == old(how)
    {
      if !needFetch || pathTmp.Some? {
        return true;
      }
      pathTmp := tmpName;
      if pathTmp.None? {
        return false;
      }
      match how
      case Stdin =>
        ok := stdinOpens;
      case Http =>
        ok := FetchWget(stop, run);
      case Ftp =>
        ok := FetchWget(stop, run);
      case Plain =>
        ok := false;
    }

    /**
     * rename: the new path is the remembered directory, `/` and the new
     * name.  When rename(2) succeeds (`renameOk`) every remembered string
     * is dropped and the path, and the temporary path if there is one,
     * become the new path; when it fails only the directory and the name
     * (looked up for the warning) are remembered.
     */
    method Rename(newName: string, renameOk: bool) returns (ok: bool)
      requires Valid()
      modifies this
      ensures Valid()
      ensures ok == renameOk
      ensures ok ==> path == Dirname(old(path)) + "/" + newName
      ensures ok ==> pathTmp == if old(pathTmp).Some? then Some(path) else None
      ensures ok ==> name.None? && ext.None? && uri.None? && dir.None?
      ensures !ok ==> path == old(path) && pathTmp == old(pathTmp)
      ensures !ok ==> name == Some(CreateName(path, how)) && dir == Some(Dirname(path))
      ensures !ok ==> ext == old(ext) && uri == old(uri)
      ensures size == old(size) && mtime == old(mtime)
      ensures how == old(how) && needFetch == old(needFetch)
    {
      var d := GetDir();
      var pathNew := d + "/" + newName;
      if renameOk {
        name, ext, uri, dir := None, None, None, None;
        path := pathNew;
        if pathTmp.Some? {
          pathTmp := Some(path);
        }
        ok := true;
      } else {
        var _ := GetName();
        ok := false;
      }
    }
  }

  /** A web URL is fetched over http and is its own URI. */
  lemma WebUrlIsItsOwnUri(path: string, env: Env)
    requires IsWebUrl(path)
    ensures GetMethod(path) == Http
    ensures CreateUri(path, GetMethod(path), env) == path
  {
  }

  /**
   * After a successful rename to a name without `/`, the file is still
   * in the same directory and its name is the new name (standard input
   * keeps calling itself "stdin").  A directory ending in `/`, i.e. the
   * root, is the exception: the new path starts with "//".
   */
  lemma RenameKeepsDirectory(oldPath: string, newName: string, m: Method)
    requires |newName| > 0 && '/' !in newName
    requires Dirname(oldPath)[|Dirname(oldPath)| - 1] != '/'
    ensures var p := Dirname(oldPath) + "/" + newName;
      Dirname(p) == Dirname(oldPath) &&
      CreateName(p, m) == (if m == Stdin then "stdin" else newName)
  {
    DirnameOfJoin(Dirname(oldPath), newName);
    BasenameOfJoin(Dirname(oldPath), newName);
  }
}
