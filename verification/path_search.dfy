/**
  `which(command)` of borg_sya/util.py: the first directory on `PATH` that
  lists `command`, joined with it the way `os.path.join` joins two parts.

  The environment variable and the directory listings are inputs: `path` is
  `os.environ.get('PATH')` and `listdir(d)` is the listing of `d`, or `None`
  when `os.listdir` raises `OSError`.
 */
module PathSearch {
  import opened Errors
  import opened Text

  /** `os.path.join(dir, name)` for two parts on POSIX. */
  function PathJoin(dir: string, name: string): (p: string)
    ensures StartsWith(name, "/") ==> p == name
    ensures !StartsWith(name, "/") ==> |p| >= |dir| + |name| && p[..|dir|] == dir && p[|p| - |name|..] == name
    ensures !StartsWith(name, "/") && dir != "" && dir[|dir| - 1] != '/' ==> p == dir + "/" + name
    ensures !StartsWith(name, "/") && (dir == "" || dir[|dir| - 1] == '/') ==> p == dir + name
  {
    if StartsWith(name, "/") then name
    else if dir == "" || dir[|dir| - 1] == '/' then dir + name
    else dir + "/" + name
  }

  /** Splitting `x + [c] + y` on `c`, when `y` holds no `c`, ends with the piece `y`. */
  lemma {:induction false} SplitSnoc(x: string, c: char, y: string)
    requires c !in y
    ensures var parts := Split(x + [c] + y, c);
            |parts| >= 2 && parts[|parts| - 1] == y
    decreases |x|
  {
    if |x| == 0 {
      SplitCons([], c, y);
      SplitNoSeparator(y, c);
      assert [] + [c] + y == x + [c] + y;
    } else {
      var s := x + [c] + y;
      assert s[1..] == x[1..] + [c] + y;
      SplitSnoc(x[1..], c, y);
    }
  }

  /**
    The last path component of a join is the name joined, for a relative
    name without slashes: `os.path.basename(os.path.join(d, name)) == name`.
   */
  lemma BasenameOfJoin(dir: string, name: string)
    requires name != "" && '/' !in name
    ensures var parts := Split(PathJoin(dir, name), '/');
            parts[|parts| - 1] == name
  {
    assert !StartsWith(name, "/") by {
      assert name[0] != '/';
    }
    if dir == "" {
      SplitNoSeparator(name, '/');
    } else if dir[|dir| - 1] == '/' {
      var x := dir[..|dir| - 1];
      assert dir + name == x + ['/'] + name;
      SplitSnoc(x, '/', name);
    } else {
      SplitSnoc(dir, '/', name);
    }
  }

  /** Directory `d` can be listed and its listing contains `command`. */
  predicate Lists(listdir: string -> Option<seq<string>>, d: string, command: string) {
    listdir(d).Some? && command in listdir(d).value
  }

  /** The directories of a `PATH` value, in order, empty entries included. */
  function Directories(path: string): seq<string> {
    Split(path, ':')
  }

  function NotFoundMessage(command: string): string {
    "Command not found: " + command + "."
  }

  /**
    `which(command)`. Without `PATH` the lookup itself raises `KeyError`.
    Otherwise the result is the join of `command` onto the first directory
    whose listing contains it; unreadable directories are skipped, and when
    no directory lists it the result is `RuntimeError`.
   */
  method Which(command: string, path: Option<string>, listdir: string -> Option<seq<string>>) returns (r: Result<string>)
    ensures path.None? ==> r == Err(KeyError("PATH"))
    ensures path.Some? ==>
              var dirs := Directories(path.value);
              && (r.Ok? <==> exists i :: 0 <= i < |dirs| && Lists(listdir, dirs[i], command))
              && (r.Ok? ==> exists i :: && 0 <= i < |dirs| && Lists(listdir, dirs[i], command)
                                        && (forall j :: 0 <= j < i ==> !Lists(listdir, dirs[j], command))
                                        && r.value == PathJoin(dirs[i], command))
              && (r.Err? ==> r.error == RuntimeError(NotFoundMessage(command)))
  {
    if path.None? {
      return Err(KeyError("PATH"));
    }
    var dirs := Directories(path.value);
    var i := 0;
    while i < |dirs|
      invariant 0 <= i <= |dirs|
      invariant forall j :: 0 <= j < i ==> !Lists(listdir, dirs[j], command)
    {
      var listing := listdir(dirs[i]);
      if listing.Some? {
        var k := 0;
        while k < |listing.value|
          invariant 0 <= k <= |listing.value|
          invariant forall j :: 0 <= j < k ==> listing.value[j] != command
        {
          if listing.value[k] == command {
            return Ok(PathJoin(dirs[i], command));
          }
          k := k + 1;
        }
      }
      i := i + 1;
    }
    return Err(RuntimeError(NotFoundMessage(command)));
  }
}
