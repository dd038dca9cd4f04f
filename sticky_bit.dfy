/**
  Marking a runtime file and its parent directory with the sticky bit (S_ISVTX),
  so that periodic cleanup of the runtime directory leaves them alone.

  The filesystem is a value: the mode that `stat` reports for each existing path,
  and the errno that `chmod` fails with on the paths where it fails. Warnings are
  returned instead of being handed to the warnings machinery.
*/
module StickyBit {
  import opened Wrappers

  type Path = string

  /** `st_mode`, as the 32-bit `mode_t` of POSIX. */
  type Mode = bv32

  type Errno = int

  /** S_ISVTX, octal 1000. */
  const S_ISVTX: Mode := 0x200

  /** EPERM, "operation not permitted". */
  const EPERM: Errno := 1

  predicate IsSticky(m: Mode) {
    m & S_ISVTX == S_ISVTX
  }

  /** The mode `chmod` is asked for: `permissions | stat.S_ISVTX`. */
  function WithSticky(m: Mode): (r: Mode)
    ensures r & m == m                      // every original bit is kept
    ensures IsSticky(r)
    ensures r == m <==> IsSticky(m)         // the mode changes exactly when the bit was clear
  {
    m | S_ISVTX
  }

  /** WithSticky changes no bit but S_ISVTX, and asking for it twice is asking once. */
  lemma WithStickyOnlySetsSticky(m: Mode)
    ensures WithSticky(m) & !S_ISVTX == m & !S_ISVTX
    ensures WithSticky(WithSticky(m)) == WithSticky(m)
  {
  }

  // ---------------------------------------------------------------------------
  // os.path.dirname, POSIX flavour
  // ---------------------------------------------------------------------------

  predicate HasSlash(p: Path) {
    exists j :: 0 <= j < |p| && p[j] == '/'
  }

  predicate AllSlashes(s: Path) {
    forall j :: 0 <= j < |s| ==> s[j] == '/'
  }

  /** `p.rfind('/') + 1`: one past the last slash, 0 when there is none. */
  function AfterLastSlash(p: Path): (i: nat)
    ensures i <= |p|
    ensures i > 0 ==> p[i - 1] == '/'
    ensures forall j :: i <= j < |p| ==> p[j] != '/'
  {
    if p == [] then 0
    else if p[|p| - 1] == '/' then |p|
    else AfterLastSlash(p[..|p| - 1])
  }

  /** `s.rstrip('/')`. */
  function RStripSlashes(s: Path): (r: Path)
    ensures r <= s
    ensures r == [] || r[|r| - 1] != '/'
    ensures forall j :: |r| <= j < |s| ==> s[j] == '/'
  {
    if s != [] && s[|s| - 1] == '/' then RStripSlashes(s[..|s| - 1]) else s
  }

  /** os.path.dirname: the part before the last slash, with trailing slashes
      stripped unless it consists of slashes only. */
  function Dirname(p: Path): (d: Path)
    ensures d <= p
    ensures d == [] <==> !HasSlash(p)
    ensures d == p <==> AllSlashes(p)    // only a path of slashes is its own parent
    // the parent: the part before the last slash, less the slashes that end it,
    // which are stripped unless nothing else is left
    ensures var i := AfterLastSlash(p);
      && d <= p[..i]
      && AllSlashes(p[|d|..i])
      && (AllSlashes(d) ==> d == p[..i])
      && (!AllSlashes(d) ==> d[|d| - 1] != '/')
  {
    var i := AfterLastSlash(p);
    var head := p[..i];
    if head != [] && !AllSlashes(head) then
      var d := RStripSlashes(head);
      assert d != [] by {
        var k :| 0 <= k < |head| && head[k] != '/';
      }
      assert |d| < |p| by {
        assert head[i - 1] == '/' && d[|d| - 1] != '/';
        assert d != head;
      }
      assert !AllSlashes(p) by {
        var k :| 0 <= k < |head| && head[k] != '/';
        assert p[k] == head[k];
      }
      assert !AllSlashes(d) by {
        var k :| 0 <= k < |head| && head[k] != '/';
        assert k < |d|;
      }
      d
    else
      assert head != [] ==> p[i - 1] == '/';
      assert head == p ==> AllSlashes(p);
      assert AllSlashes(p) ==> head == p by {
        if AllSlashes(p) && p != [] {
          assert p[|p| - 1] == '/';
        }
      }
      head
  }

  /** The paths set_sticky_bit handles, in order: the file, then its parent
      directory when the file name has one. */
  function TargetPaths(fname: Path): (ps: seq<Path>)
    ensures |ps| == if HasSlash(fname) then 2 else 1
    ensures ps[0] == fname
    ensures |ps| == 2 ==> ps[1] == Dirname(fname) && ps[1] != []
  {
    var runtimeDir := Dirname(fname);
    if runtimeDir != [] then [fname, runtimeDir] else [fname]
  }

  // ---------------------------------------------------------------------------
  // The state the loop threads through, and one iteration of it
  // ---------------------------------------------------------------------------

  /** A RuntimeWarning "Failed to set sticky bit on <path>: <error>". */
  datatype Warning = StickyWarning(path: Path, errno: Errno)

  /** `modes` holds the paths `os.stat` can see; `chmod` on a path in
      `chmodErrors` fails with that errno and succeeds everywhere else. */
  datatype FileSystem = FileSystem(modes: map<Path, Mode>, chmodErrors: map<Path, Errno>)

  /** Modes after the calls, warnings issued in order, and the path whose
      `os.stat` raised, if one did (that error is not caught). */
  datatype Run = Run(modes: map<Path, Mode>, warnings: seq<Warning>, statFailure: Option<Path>)

  function Start(fs: FileSystem): Run {
    Run(fs.modes, [], None)
  }

  /** A failed chmod that is passed over silently: EPERM on the runtime
      directory, which the caller may not own. */
  predicate Suppressed(errno: Errno, path: Path, runtimeDir: Path) {
    errno == EPERM && path == runtimeDir
  }

  /** One iteration of the loop over `paths`; nothing happens once a stat has raised. */
  function Step(r: Run, path: Path, runtimeDir: Path, chmodErrors: map<Path, Errno>): Run {
    if r.statFailure.Some? then r
    else if path !in r.modes then r.(statFailure := Some(path))
    else
      var permissions := r.modes[path];
      var newPermissions := WithSticky(permissions);
      if newPermissions == permissions then r
      else if path in chmodErrors then
        var e := chmodErrors[path];
        if Suppressed(e, path, runtimeDir) then r
        else r.(warnings := r.warnings + [StickyWarning(path, e)])
      else r.(modes := r.modes[path := newPermissions])
  }

  /** The loop over `paths`, from a starting state. */
  function RunPaths(paths: seq<Path>, runtimeDir: Path, chmodErrors: map<Path, Errno>, start: Run): Run
    decreases |paths|
  {
    if paths == [] then start
    else Step(RunPaths(paths[..|paths| - 1], runtimeDir, chmodErrors, start), paths[|paths| - 1], runtimeDir, chmodErrors)
  }

  /** What set_sticky_bit(fname) does to the filesystem `fs`. */
  function StickyOutcome(platformHasSticky: bool, fname: Path, fs: FileSystem): Run {
    if !platformHasSticky then Start(fs)
    else RunPaths(TargetPaths(fname), Dirname(fname), fs.chmodErrors, Start(fs))
  }

  // ---------------------------------------------------------------------------
  // set_sticky_bit
  // ---------------------------------------------------------------------------

  method SetStickyBit(platformHasSticky: bool, fname: Path, fs: FileSystem) returns (r: Run)
    ensures r == StickyOutcome(platformHasSticky, fname, fs)
    ensures !platformHasSticky ==> r == Start(fs)
  {
    r := Start(fs);
    if !platformHasSticky {
      return;
    }
    var paths := [fname];
    var runtimeDir := Dirname(fname);
    if runtimeDir != [] {
      paths := paths + [runtimeDir];
    }
    assert paths == TargetPaths(fname);
    var i := 0;
    while i < |paths|
      invariant 0 <= i <= |paths|
      invariant r.statFailure.None?
      invariant r == RunPaths(paths[..i], runtimeDir, fs.chmodErrors, Start(fs))
    {
      var path := paths[i];
      assert paths[..i + 1][..i] == paths[..i];
      if path !in r.modes {
        // os.stat raises, and nothing catches it
        r := r.(statFailure := Some(path));
        FailureIsFinal(paths, i + 1, runtimeDir, fs.chmodErrors, Start(fs));
        return;
      }
      var permissions := r.modes[path];
      var newPermissions := WithSticky(permissions);
      if newPermissions != permissions {
        if path in fs.chmodErrors {
          var e := fs.chmodErrors[path];
          if e == EPERM && path == runtimeDir {
            // the runtime directory may belong to someone else
          } else {
            r := r.(warnings := r.warnings + [StickyWarning(path, e)]);
          }
        } else {
          r := r.(modes := r.modes[path := newPermissions]);
        }
      }
      i := i + 1;
    }
    assert paths[..i] == paths;
  }

  // ---------------------------------------------------------------------------
  // Properties of the loop
  // ---------------------------------------------------------------------------

  /** Once a stat has raised, the remaining paths are not looked at. */
  lemma {:induction false} FailureIsFinal(paths: seq<Path>, k: nat, runtimeDir: Path, chmodErrors: map<Path, Errno>, start: Run)
    requires k <= |paths|
    requires RunPaths(paths[..k], runtimeDir, chmodErrors, start).statFailure.Some?
    ensures RunPaths(paths, runtimeDir, chmodErrors, start) == RunPaths(paths[..k], runtimeDir, chmodErrors, start)
    decreases |paths|
  {
    if k < |paths| {
      var init := paths[..|paths| - 1];
      assert init[..k] == paths[..k];
      FailureIsFinal(init, k, runtimeDir, chmodErrors, start);
    } else {
      assert paths[..k] == paths;
    }
  }

  /** Every bit set in `before` is still set in `after`. */
  predicate KeepsBits(before: Mode, after: Mode) {
    after & before == before
  }

  lemma KeepsBitsTransitive(a: Mode, b: Mode, c: Mode)
    requires KeepsBits(a, b) && KeepsBits(b, c)
    ensures KeepsBits(a, c)
  {
  }

  /** One iteration leaves the modes alone or gives `path` the sticky bit. */
  lemma StepModes(r: Run, path: Path, runtimeDir: Path, chmodErrors: map<Path, Errno>)
    ensures var r' := Step(r, path, runtimeDir, chmodErrors);
      r'.modes == r.modes || (path in r.modes && r'.modes == r.modes[path := WithSticky(r.modes[path])])
  {
  }

  /** The loop keeps the set of paths, keeps every bit of every mode and
      changes only the modes of the paths it visits. */
  lemma {:induction false} RunPathsModes(paths: seq<Path>, runtimeDir: Path, chmodErrors: map<Path, Errno>, start: Run)
    ensures var r := RunPaths(paths, runtimeDir, chmodErrors, start);
      && r.modes.Keys == start.modes.Keys
      && (forall p :: p in start.modes ==> KeepsBits(start.modes[p], r.modes[p]))
      && (forall p :: p in start.modes && p !in paths ==> r.modes[p] == start.modes[p])
    decreases |paths|
  {
    if paths != [] {
      var init := paths[..|paths| - 1];
      var last := paths[|paths| - 1];
      RunPathsModes(init, runtimeDir, chmodErrors, start);
      var mid := RunPaths(init, runtimeDir, chmodErrors, start);
      var r := Step(mid, last, runtimeDir, chmodErrors);
      StepModes(mid, last, runtimeDir, chmodErrors);
      forall p | p in start.modes
        ensures KeepsBits(start.modes[p], r.modes[p])
      {
        if p == last && r.modes != mid.modes {
          KeepsBitsTransitive(start.modes[p], mid.modes[p], r.modes[p]);
        }
      }
      assert forall p :: p in init ==> p in paths;
    }
  }

  /** The loop only appends warnings, at most one per element of `paths` (a path
      listed twice can be warned about twice), each about a listed path whose
      chmod failed with an error that is not suppressed. */
  lemma {:induction false} RunPathsWarnings(paths: seq<Path>, runtimeDir: Path, chmodErrors: map<Path, Errno>, start: Run)
    ensures var r := RunPaths(paths, runtimeDir, chmodErrors, start);
      && start.warnings <= r.warnings
      && |r.warnings| <= |start.warnings| + |paths|
      && (forall k :: |start.warnings| <= k < |r.warnings| ==>
            && r.warnings[k].path in paths
            && r.warnings[k].path in chmodErrors
            && r.warnings[k].errno == chmodErrors[r.warnings[k].path]
            && !Suppressed(r.warnings[k].errno, r.warnings[k].path, runtimeDir))
    decreases |paths|
  {
    if paths != [] {
      var init := paths[..|paths| - 1];
      RunPathsWarnings(init, runtimeDir, chmodErrors, start);
      assert forall p :: p in init ==> p in paths;
    }
  }

  /** A path whose sticky bit is already set is never chmod-ed and never warned about. */
  lemma {:induction false} AlreadyStickyIsSkipped(paths: seq<Path>, runtimeDir: Path, chmodErrors: map<Path, Errno>, start: Run, p: Path)
    requires p in start.modes && IsSticky(start.modes[p])
    ensures var r := RunPaths(paths, runtimeDir, chmodErrors, start);
      && p in r.modes && r.modes[p] == start.modes[p]
      && start.warnings <= r.warnings
      && forall k :: |start.warnings| <= k < |r.warnings| ==> r.warnings[k].path != p
    decreases |paths|
  {
    if paths != [] {
      AlreadyStickyIsSkipped(paths[..|paths| - 1], runtimeDir, chmodErrors, start, p);
      RunPathsWarnings(paths[..|paths| - 1], runtimeDir, chmodErrors, start);
    }
  }

  // ---------------------------------------------------------------------------
  // Properties of set_sticky_bit
  // ---------------------------------------------------------------------------

  /** The mode a present path ends with when it is handled once: it gains the
      sticky bit unless it had it already or its chmod fails. */
  function MarkedMode(modes: map<Path, Mode>, chmodErrors: map<Path, Errno>, p: Path): Mode
    requires p in modes
  {
    if IsSticky(modes[p]) || p in chmodErrors then modes[p] else WithSticky(modes[p])
  }

  /** The warnings a present path yields when it is handled once: one, exactly
      when its chmod is attempted and fails with an error that is not suppressed. */
  function WarningsFor(modes: map<Path, Mode>, chmodErrors: map<Path, Errno>, p: Path, runtimeDir: Path): seq<Warning>
    requires p in modes
  {
    if !IsSticky(modes[p]) && p in chmodErrors && !Suppressed(chmodErrors[p], p, runtimeDir)
    then [StickyWarning(p, chmodErrors[p])]
    else []
  }

  /** One iteration on a present path, in the terms above. */
  lemma StepPresent(r: Run, path: Path, runtimeDir: Path, chmodErrors: map<Path, Errno>)
    requires r.statFailure.None? && path in r.modes
    ensures Step(r, path, runtimeDir, chmodErrors)
         == Run(r.modes[path := MarkedMode(r.modes, chmodErrors, path)],
                r.warnings + WarningsFor(r.modes, chmodErrors, path, runtimeDir),
                None)
  {
    if IsSticky(r.modes[path]) || path in chmodErrors {
      assert r.modes[path := r.modes[path]] == r.modes;
    }
  }

  /** Which stat raises: the file's if it is missing, else the parent's if that
      is handled and missing; none when the platform lacks S_ISVTX. */
  lemma StickyOutcomeStatFailure(platformHasSticky: bool, fname: Path, fs: FileSystem)
    ensures var d := Dirname(fname);
      StickyOutcome(platformHasSticky, fname, fs).statFailure ==
        if !platformHasSticky then None
        else if fname !in fs.modes then Some(fname)
        else if d != [] && d !in fs.modes then Some(d)
        else None
  {
    if platformHasSticky {
      var d := Dirname(fname);
      var s := Start(fs);
      var first := Step(s, fname, d, fs.chmodErrors);
      assert RunPaths([fname], d, fs.chmodErrors, s) == first by {
        assert [fname][..0] == [];
      }
      if d != [] {
        assert [fname, d][..1] == [fname];
        RunPathsModes([fname], d, fs.chmodErrors, s);
      }
    }
  }

  /** With every handled path present and the file distinct from its parent,
      each path ends as if handled alone: it gains the sticky bit unless it had
      it or its chmod failed, and it yields a warning exactly when its chmod
      failed with an error that is not EPERM on the parent. */
  lemma StickyOutcomeExact(fname: Path, fs: FileSystem)
    requires fname in fs.modes && !AllSlashes(fname)
    requires Dirname(fname) != [] ==> Dirname(fname) in fs.modes
    ensures var d := Dirname(fname);
      var r := StickyOutcome(true, fname, fs);
      var m, c := fs.modes, fs.chmodErrors;
      && r.statFailure == None
      && (d == [] ==>
            && r.modes == m[fname := MarkedMode(m, c, fname)]
            && r.warnings == WarningsFor(m, c, fname, d))
      && (d != [] ==>
            && r.modes == m[fname := MarkedMode(m, c, fname)][d := MarkedMode(m, c, d)]
            && r.warnings == WarningsFor(m, c, fname, d) + WarningsFor(m, c, d, d))
  {
    var d := Dirname(fname);
    var s := Start(fs);
    var first := Step(s, fname, d, fs.chmodErrors);
    StepPresent(s, fname, d, fs.chmodErrors);
    assert RunPaths([fname], d, fs.chmodErrors, s) == first by {
      assert [fname][..0] == [];
    }
    if d != [] {
      assert [fname, d][..1] == [fname];
      assert first.modes[d] == fs.modes[d];
      StepPresent(first, d, d, fs.chmodErrors);
    }
  }

  /** The cases of the failure policy, for a file with a parent directory. */
  lemma ChmodFailurePolicy(fname: Path, fs: FileSystem)
    requires fname in fs.modes && Dirname(fname) != [] && !AllSlashes(fname)
    requires Dirname(fname) in fs.modes
    ensures var d := Dirname(fname);
      var r := StickyOutcome(true, fname, fs);
      && r.modes.Keys == fs.modes.Keys
      // EPERM on the parent directory: silent, parent left as it was
      && (!IsSticky(fs.modes[d]) && d in fs.chmodErrors && fs.chmodErrors[d] == EPERM ==>
            r.modes[d] == fs.modes[d] && forall w :: w in r.warnings ==> w.path != d)
      // any failure on the file: exactly one warning, first, and the parent is still handled
      && (!IsSticky(fs.modes[fname]) && fname in fs.chmodErrors ==>
            && |r.warnings| >= 1
            && r.warnings[0] == StickyWarning(fname, fs.chmodErrors[fname])
            && (forall k :: 1 <= k < |r.warnings| ==> r.warnings[k].path == d)
            && r.modes[d] == MarkedMode(fs.modes, fs.chmodErrors, d))
      // any other failure on the parent: exactly one warning naming it
      && (!IsSticky(fs.modes[d]) && d in fs.chmodErrors && fs.chmodErrors[d] != EPERM ==>
            |r.warnings| >= 1 && r.warnings[|r.warnings| - 1] == StickyWarning(d, fs.chmodErrors[d]))
  {
    StickyOutcomeExact(fname, fs);
  }

  /** Nothing set_sticky_bit does loses a permission bit, touches a path other
      than the file and its parent, or raises a warning that is not about a
      failed chmod on one of them. */
  lemma StickyOutcomeSafe(platformHasSticky: bool, fname: Path, fs: FileSystem)
    ensures var r := StickyOutcome(platformHasSticky, fname, fs);
      var d := Dirname(fname);
      && r.modes.Keys == fs.modes.Keys
      && (forall p :: p in fs.modes ==> KeepsBits(fs.modes[p], r.modes[p]))
      && (forall p :: p in fs.modes && p != fname && (d == [] || p != d) ==> r.modes[p] == fs.modes[p])
      && |r.warnings| <= 2
      && (forall w :: w in r.warnings ==>
            && (w.path == fname || (d != [] && w.path == d))
            && w.path in fs.chmodErrors
            && w.errno == fs.chmodErrors[w.path]
            && !Suppressed(w.errno, w.path, d))
      && (forall p :: p in fs.modes && IsSticky(fs.modes[p]) ==>
            r.modes[p] == fs.modes[p] && forall w :: w in r.warnings ==> w.path != p)
  {
    var r := StickyOutcome(platformHasSticky, fname, fs);
    if platformHasSticky {
      var d := Dirname(fname);
      var ps := TargetPaths(fname);
      RunPathsModes(ps, d, fs.chmodErrors, Start(fs));
      RunPathsWarnings(ps, d, fs.chmodErrors, Start(fs));
      forall p | p in fs.modes && IsSticky(fs.modes[p])
        ensures r.modes[p] == fs.modes[p] && forall w :: w in r.warnings ==> w.path != p
      {
        AlreadyStickyIsSkipped(ps, d, fs.chmodErrors, Start(fs), p);
      }
      forall w | w in r.warnings
        ensures w.path == fname || (d != [] && w.path == d)
      {
        var k :| 0 <= k < |r.warnings| && r.warnings[k] == w;
        assert w.path in ps;
      }
    }
  }
}
