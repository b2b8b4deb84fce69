/**
 * The recursive `copy` of a source tree to the FTP server and the two
 * entry points around it, as functions of the collaborators' behaviour
 * (`Env`) and of the destination state (`World`).
 *
 * A directory node creates its destination directory, lists its children,
 * filters the listing when a query is given, looks up the names already at
 * the destination unless overwriting, and then copies the children that are
 * not skipped, one after another; a file node uploads the file. Either kind
 * of node finally deletes its source when asked to. An exception anywhere
 * aborts the node and every node above it.
 */
module TreeCopy {
  import opened Entries
  import opened ContentFilter
  import opened TimeRange

  /**
   * What the collaborators do. The source filesystem answers `getFileStatus`
   * from `status` and `listStatus` from `listing`; the remaining sets say on
   * which paths an operation throws an `IOException` (`unreadable` for
   * `open` and `listStatus`, `mkdirFails` for `makeDirectory`, `lookupFails`
   * for `getFileNameMap`, `uploadFails` for `uploadToRemote`, `deleteFails`
   * for `delete`) or on which it returns false: `mkdirRefused` for a
   * `makeDirectory` the server turns down (an existing directory, or a file
   * in the way), `deleteRefused` for `delete`.
   */
  datatype Env = Env(
    status: map<Path, Entry>,
    listing: map<Path, seq<Entry>>,
    unreadable: set<Path>,
    mkdirFails: set<Path>,
    mkdirRefused: set<Path>,
    lookupFails: set<Path>,
    uploadFails: set<Path>,
    deleteFails: set<Path>,
    deleteRefused: set<Path>,
    acquireFails: bool,
    releaseFails: bool,
    regex: Regex,
    calendar: Calendar)

  /** `listStatus` returns the direct children of the directory it lists. */
  ghost predicate ValidFs(env: Env)
  {
    forall p, c :: p in env.listing && c in env.listing[p] ==> |c.path| == |p| + 1 && c.path[..|p|] == p
  }

  /** `listStatus` reports each path once: two entries of a listing with the same path are the same entry. */
  ghost predicate OnePerPath(env: Env)
  {
    forall p, c, c' :: p in env.listing && c in env.listing[p] && c' in env.listing[p] && c.path == c'.path ==> c == c'
  }

  /** What the calls on the two filesystems did, in order. */
  datatype Event =
    | MadeDirectory(dst: Path)             // makeDirectory(dst) returned, true or false
    | ListedNames(dst: Path)               // getFileNameMap(dst) returned
    | Uploaded(src: Path, dst: Path)       // uploadToRemote(dst, open(src)) returned
    | DeleteCalled(src: Path, removed: bool) // delete(src, true) returned `removed`
    | Acquired                             // getFTPClient() returned
    | Released                             // releaseFtpClient() was called

  /**
   * The destination server (its directories, and for each file the source
   * it was uploaded from), the source paths a recursive delete removed, and
   * the trace of calls.
   */
  datatype World = World(dirs: set<Path>, files: map<Path, Path>, deleted: set<Path>, trace: seq<Event>)

  /** How a call of the recursive `copy` ends: its boolean result or an exception. */
  datatype Outcome = Returned(value: bool) | Threw(error: Error)

  datatype Step = Step(outcome: Outcome, world: World)

  /** The state of the loop over a directory's children: an exception that stopped it, and the two counters. */
  datatype Progress = Progress(error: Option<Error>, world: World, skipped: nat, transferred: nat)

  /** How the entry points end: their result, or the exception that leaves them. */
  datatype TopOutcome = Done(value: bool) | Raised(error: Error)

  datatype TopStep = TopStep(outcome: TopOutcome, world: World)

  // ---------------------------------------------------------------- the calls

  /**
   * The effect of a `makeDirectory(d)` that returned: the directory exists
   * afterwards unless the server refused, which the caller does not notice.
   */
  function Made(env: Env, w: World, d: Path): World
  {
    w.(dirs := if d in env.mkdirRefused then w.dirs else w.dirs + {d}, trace := w.trace + [MadeDirectory(d)])
  }

  /** The names of the entries directly inside `d` on the server. */
  function NamesAt(w: World, d: Path): set<string>
  {
    set q | q in w.dirs + w.files.Keys && |q| == |d| + 1 && q[..|d|] == d :: Name(q)
  }

  /** The effect of a `getFileNameMap(d)` that returned. */
  function Looked(w: World, d: Path): World
  {
    w.(trace := w.trace + [ListedNames(d)])
  }

  /** The effect of uploading `src` to `dst`. */
  function Put(w: World, src: Path, dst: Path): World
  {
    w.(files := w.files[dst := src], trace := w.trace + [Uploaded(src, dst)])
  }

  /** The effect of a `delete(src, true)` that returned `removed`. */
  function Removed(w: World, src: Path, removed: bool): World
  {
    w.(deleted := if removed then w.deleted + {src} else w.deleted, trace := w.trace + [DeleteCalled(src, removed)])
  }

  // ------------------------------------------------------ where calls happen

  predicate AtOrBelowBoth(e: Event, src: Path, dst: Path)
  {
    match e
    case MadeDirectory(d) => AtOrBelow(d, dst)
    case ListedNames(d) => AtOrBelow(d, dst)
    case Uploaded(s, d) => AtOrBelow(s, src) && AtOrBelow(d, dst)
    case DeleteCalled(s, _) => AtOrBelow(s, src)
    case Acquired => false
    case Released => false
  }

  /**
   * Copying `src` to `dst` took `w` to `w'`: it only appended calls on paths
   * at or below `src` and `dst` (none on the session), it only added
   * directories, files and deletions, and it changed none of them outside
   * `dst` (or `src` for deletions).
   */
  ghost predicate Grows(w: World, w': World, src: Path, dst: Path)
  {
    && |w.trace| <= |w'.trace| && w'.trace[..|w.trace|] == w.trace
    && (forall k :: |w.trace| <= k < |w'.trace| ==> AtOrBelowBoth(w'.trace[k], src, dst))
    && w.dirs <= w'.dirs
    && (forall d :: d in w'.dirs && d !in w.dirs ==> AtOrBelow(d, dst))
    && w.files.Keys <= w'.files.Keys
    && (forall d :: d in w'.files && d !in w.files ==> AtOrBelow(d, dst))
    && (forall d :: d in w.files && !AtOrBelow(d, dst) ==> w'.files[d] == w.files[d])
    && w.deleted <= w'.deleted
    && (forall d :: d in w'.deleted && d !in w.deleted ==> AtOrBelow(d, src))
  }

  lemma AtOrBelowTrans(a: Path, b: Path, c: Path)
    requires AtOrBelow(a, b) && AtOrBelow(b, c)
    ensures AtOrBelow(a, c)
  {
    assert a[..|c|] == a[..|b|][..|c|];
  }

  lemma {:induction false} GrowsTrans(w: World, w': World, w'': World, src: Path, dst: Path)
    requires Grows(w, w', src, dst) && Grows(w', w'', src, dst)
    ensures Grows(w, w'', src, dst)
  {
    assert w''.trace[..|w.trace|] == w''.trace[..|w'.trace|][..|w.trace|];
    forall k | |w.trace| <= k < |w''.trace|
      ensures AtOrBelowBoth(w''.trace[k], src, dst)
    {
      if k < |w'.trace| {
        assert w''.trace[k] == w''.trace[..|w'.trace|][k];
      }
    }
  }

  /** What happens below a child of `src` and `dst` happens below `src` and `dst`. */
  lemma {:induction false} GrowsWiden(w: World, w': World, src: Path, dst: Path, src': Path, dst': Path)
    requires Grows(w, w', src', dst') && AtOrBelow(src', src) && AtOrBelow(dst', dst)
    ensures Grows(w, w', src, dst)
  {
    forall k | |w.trace| <= k < |w'.trace|
      ensures AtOrBelowBoth(w'.trace[k], src, dst)
    {
      match w'.trace[k]
      case MadeDirectory(d) => AtOrBelowTrans(d, dst', dst);
      case ListedNames(d) => AtOrBelowTrans(d, dst', dst);
      case Uploaded(s, d) => AtOrBelowTrans(s, src', src); AtOrBelowTrans(d, dst', dst);
      case DeleteCalled(s, _) => AtOrBelowTrans(s, src', src);
      case Acquired =>
      case Released =>
    }
    forall d | d in w'.dirs && d !in w.dirs
      ensures AtOrBelow(d, dst)
    {
      AtOrBelowTrans(d, dst', dst);
    }
    forall d | d in w'.files && d !in w.files
      ensures AtOrBelow(d, dst)
    {
      AtOrBelowTrans(d, dst', dst);
    }
    forall d | d in w.files && !AtOrBelow(d, dst)
      ensures w'.files[d] == w.files[d]
    {
      if AtOrBelow(d, dst') {
        AtOrBelowTrans(d, dst', dst);
      }
    }
    forall d | d in w'.deleted && d !in w.deleted
      ensures AtOrBelow(d, src)
    {
      AtOrBelowTrans(d, src', src);
    }
  }

  // ----------------------------------------------------------- termination

  ghost function MaxLength(keys: set<Path>): (m: nat)
    ensures forall q :: q in keys ==> |q| <= m
    decreases keys
  {
    if keys == {} then 0
    else
      var q :| q in keys;
      var m := MaxLength(keys - {q});
      if |q| > m then |q| else m
  }

  /** How many levels of directories the source may still have below `p`. */
  ghost function Rank(env: Env, p: Path): nat
  {
    var h := MaxLength(env.listing.Keys) + 1;
    if |p| < h then h - |p| else 0
  }

  lemma RankDecreases(env: Env, parent: Path, c: Path)
    requires parent in env.listing && |c| == |parent| + 1
    ensures Rank(env, c) < Rank(env, parent)
  {
  }

  // ------------------------------------------------------- the recursive copy

  /** What a node returns after its directory loop or upload: the result of `delete(src, true)`, or true. */
  function Finish(env: Env, w: World, src: Path, deleteSource: bool): (r: Step)
    ensures !deleteSource ==> r == Step(Returned(true), w)
    ensures deleteSource && src in env.deleteFails ==> r == Step(Threw(IoFailure(src)), w)
    ensures deleteSource && src !in env.deleteFails ==>
      && r.outcome == Returned(src !in env.deleteRefused)
      && r.world.trace == w.trace + [DeleteCalled(src, src !in env.deleteRefused)]
      && (src in r.world.deleted <==> src in w.deleted || src !in env.deleteRefused)
  {
    if !deleteSource then Step(Returned(true), w)
    else if src in env.deleteFails then Step(Threw(IoFailure(src)), w)
    else
      var removed := src !in env.deleteRefused;
      Step(Returned(removed), Removed(w, src, removed))
  }

  /** The test the directory loop skips a child by. */
  predicate Skips(names: set<string>, overwrite: bool, c: Entry)
  {
    !overwrite && Name(c.path) in names
  }

  /** The children of `parent` the loop may visit: entries of its listing. */
  ghost predicate FromListing(env: Env, parent: Path, cs: seq<Entry>)
  {
    parent in env.listing && forall k :: 0 <= k < |cs| ==> cs[k] in env.listing[parent]
  }

  lemma GrowsRefl(w: World, src: Path, dst: Path)
    ensures Grows(w, w, src, dst)
  {
    assert w.trace[..|w.trace|] == w.trace;
  }

  /** A single call on `src` or `dst` appends one event and changes nothing outside them. */
  lemma CallGrows(w: World, w': World, src: Path, dst: Path, e: Event)
    requires AtOrBelowBoth(e, src, dst) && w'.trace == w.trace + [e]
    requires w.dirs <= w'.dirs && forall d :: d in w'.dirs && d !in w.dirs ==> AtOrBelow(d, dst)
    requires w.files.Keys <= w'.files.Keys && forall d :: d in w'.files && d !in w.files ==> AtOrBelow(d, dst)
    requires forall d :: d in w.files && !AtOrBelow(d, dst) ==> w'.files[d] == w.files[d]
    requires w.deleted <= w'.deleted && forall d :: d in w'.deleted && d !in w.deleted ==> AtOrBelow(d, src)
    ensures Grows(w, w', src, dst)
  {
    assert w'.trace[..|w.trace|] == w.trace;
  }

  lemma FinishGrows(env: Env, w: World, src: Path, dst: Path, deleteSource: bool)
    ensures Grows(w, Finish(env, w, src, deleteSource).world, src, dst)
  {
    var w' := Finish(env, w, src, deleteSource).world;
    if w' == w {
      GrowsRefl(w, src, dst);
    } else {
      CallGrows(w, w', src, dst, DeleteCalled(src, src !in env.deleteRefused));
    }
  }

  lemma LookupGrows(w: World, src: Path, dst: Path, overwrite: bool)
    ensures Grows(w, if overwrite then w else Looked(w, dst), src, dst)
  {
    if overwrite {
      GrowsRefl(w, src, dst);
    } else {
      CallGrows(w, Looked(w, dst), src, dst, ListedNames(dst));
    }
  }

  /**
   * `copy(srcFS, e, dst, query, deleteSource, overwrite, conf, ftpClient)`:
   * a directory or a file node.
   */
  function CopyNode(env: Env, w: World, e: Entry, dst: Path, query: Option<string>, deleteSource: bool, overwrite: bool): (r: Step)
    requires ValidFs(env)
    ensures Grows(w, r.world, e.path, dst)
    ensures r.outcome.Returned? ==>
      if e.isDir then (dst in w.dirs || dst !in env.mkdirRefused ==> dst in r.world.dirs)
      else dst in r.world.files && r.world.files[dst] == e.path
    decreases Rank(env, e.path), 3, 0
  {
    if e.isDir then CopyDirectory(env, w, e, dst, query, deleteSource, overwrite)
    else CopyFile(env, w, e, dst, deleteSource)
  }

  /** The file branch: `open(src)`, then `uploadToRemote(dst, in)`, then the deletion. */
  function CopyFile(env: Env, w: World, e: Entry, dst: Path, deleteSource: bool): (r: Step)
    ensures Grows(w, r.world, e.path, dst)
    ensures r.outcome.Returned? ==> dst in r.world.files && r.world.files[dst] == e.path
  {
    if e.path in env.unreadable then GrowsRefl(w, e.path, dst); Step(Threw(IoFailure(e.path)), w)
    else if dst in env.uploadFails then GrowsRefl(w, e.path, dst); Step(Threw(IoFailure(dst)), w)
    else
      var w1 := Put(w, e.path, dst);
      CallGrows(w, w1, e.path, dst, Uploaded(e.path, dst));
      var s := Finish(env, w1, e.path, deleteSource);
      FinishGrows(env, w1, e.path, dst, deleteSource);
      GrowsTrans(w, w1, s.world, e.path, dst);
      s
  }

  /**
   * The directory branch: `makeDirectory(dst)` first; a directory that is
   * not listed (or whose listing throws) raises an `IOException`.
   */
  function CopyDirectory(env: Env, w: World, e: Entry, dst: Path, query: Option<string>, deleteSource: bool, overwrite: bool): (r: Step)
    requires ValidFs(env)
    ensures Grows(w, r.world, e.path, dst)
    ensures r.outcome.Returned? && (dst in w.dirs || dst !in env.mkdirRefused) ==> dst in r.world.dirs
    decreases Rank(env, e.path), 2, 0
  {
    if dst in env.mkdirFails then GrowsRefl(w, e.path, dst); Step(Threw(IoFailure(dst)), w)
    else
      var w1 := Made(env, w, dst);
      CallGrows(w, w1, e.path, dst, MadeDirectory(dst));
      if e.path in env.unreadable || e.path !in env.listing then Step(Threw(IoFailure(e.path)), w1)
      else
        var s := CopyListing(env, w1, e, dst, env.listing[e.path], query, deleteSource, overwrite);
        GrowsTrans(w, w1, s.world, e.path, dst);
        s
  }

  /**
   * The directory branch once the listing is in hand: the query filter, then
   * the rest of the branch on the children it keeps.
   */
  function CopyListing(env: Env, w: World, e: Entry, dst: Path, listed: seq<Entry>,
                       query: Option<string>, deleteSource: bool, overwrite: bool): (r: Step)
    requires ValidFs(env) && e.path in env.listing && listed == env.listing[e.path]
    ensures Grows(w, r.world, e.path, dst)
    ensures dst in w.dirs ==> dst in r.world.dirs
    decreases Rank(env, e.path), 1, 1
  {
    match ApplyQuery(env.regex, env.calendar, query, listed)
    case Failure(err) => GrowsRefl(w, e.path, dst); Step(Threw(err), w)
    case Success(cs) => CopyFiltered(env, w, e.path, dst, cs, query, deleteSource, overwrite)
  }

  /**
   * The lookup of the names already at `dst` (only when not overwriting),
   * the loop over the children `cs` of `src`, and the deletion.
   */
  function CopyFiltered(env: Env, w: World, src: Path, dst: Path, cs: seq<Entry>,
                        query: Option<string>, deleteSource: bool, overwrite: bool): (r: Step)
    requires ValidFs(env) && FromListing(env, src, cs)
    ensures Grows(w, r.world, src, dst)
    decreases Rank(env, src), 1, 0
  {
    if !overwrite && dst in env.lookupFails then GrowsRefl(w, src, dst); Step(Threw(IoFailure(dst)), w)
    else
      var names := if overwrite then {} else NamesAt(w, dst);
      var w1 := if overwrite then w else Looked(w, dst);
      LookupGrows(w, src, dst, overwrite);
      var p := CopyLoop(env, w1, src, dst, cs, names, query, deleteSource, overwrite);
      GrowsTrans(w, w1, p.world, src, dst);
      var s := Conclude(env, p, src, dst, deleteSource);
      GrowsTrans(w, p.world, s.world, src, dst);
      s
  }

  /** The end of a directory node: the loop's exception, or else the deletion of the source. */
  function Conclude(env: Env, p: Progress, src: Path, dst: Path, deleteSource: bool): (r: Step)
    ensures Grows(p.world, r.world, src, dst)
    ensures p.error.Some? ==> r == Step(Threw(p.error.value), p.world)
  {
    if p.error.Some? then GrowsRefl(p.world, src, dst); Step(Threw(p.error.value), p.world)
    else
      FinishGrows(env, p.world, src, dst, deleteSource);
      Finish(env, p.world, src, deleteSource)
  }

  /**
   * The loop of a directory node over the (filtered) children `cs`, taken
   * one at a time in listing order; the first exception ends it.
   */
  function CopyLoop(env: Env, w: World, parent: Path, dst: Path, cs: seq<Entry>, names: set<string>,
                    query: Option<string>, deleteSource: bool, overwrite: bool): (r: Progress)
    requires ValidFs(env) && FromListing(env, parent, cs)
    ensures Grows(w, r.world, parent, dst)
    decreases Rank(env, parent), 0, |cs|
  {
    if cs == [] then GrowsRefl(w, parent, dst); Progress(None, w, 0, 0)
    else
      var p := CopyLoop(env, w, parent, dst, cs[..|cs| - 1], names, query, deleteSource, overwrite);
      var r := LoopNext(env, p, parent, dst, cs[|cs| - 1], names, query, deleteSource, overwrite);
      GrowsTrans(w, p.world, r.world, parent, dst);
      r
  }

  /**
   * One turn of the loop: nothing once a child has thrown; a child whose
   * name is in `names` is counted as skipped (unless overwriting), any other
   * is copied to `dst/name` and counted as transferred.
   */
  function LoopNext(env: Env, p: Progress, parent: Path, dst: Path, c: Entry, names: set<string>,
                    query: Option<string>, deleteSource: bool, overwrite: bool): (r: Progress)
    requires ValidFs(env) && parent in env.listing && c in env.listing[parent]
    ensures Grows(p.world, r.world, parent, dst)
    decreases Rank(env, parent), 0, 0
  {
    if p.error.Some? then GrowsRefl(p.world, parent, dst); p
    else if Skips(names, overwrite, c) then GrowsRefl(p.world, parent, dst); p.(skipped := p.skipped + 1)
    else
      var target := Child(dst, Name(c.path));
      RankDecreases(env, parent, c.path);
      var s := CopyNode(env, p.world, c, target, query, deleteSource, overwrite);
      GrowsWiden(p.world, s.world, parent, dst, c.path, target);
      match s.outcome
      case Threw(err) => Progress(Some(err), s.world, p.skipped, p.transferred)
      case Returned(_) => Progress(None, s.world, p.skipped, p.transferred + 1)
  }

  /**
   * `copy(srcFS, src, dst, query, deleteSource, overwrite, conf)` and
   * `copyAndRemove` with the same arguments: the status lookup and the
   * session acquisition happen before the `try`, so their exceptions leave
   * the call; an exception of the body is swallowed into false; the session
   * is released on every path past the acquisition, and a failed release
   * raises `FTPException` in place of the result.
   */
  function TopCopy(env: Env, w: World, src: Path, dst: Path, query: Option<string>, deleteSource: bool, overwrite: bool): (r: TopStep)
    requires ValidFs(env)
    ensures src !in env.status ==> r == TopStep(Raised(IoFailure(src)), w)
    ensures src in env.status && env.acquireFails ==> r == TopStep(Raised(SessionFailure), w)
    ensures src in env.status && !env.acquireFails ==>
      && |r.world.trace| >= |w.trace| + 2
      && r.world.trace[|w.trace|] == Acquired
      && r.world.trace[|r.world.trace| - 1] == Released
      && (r.outcome.Raised? <==> env.releaseFails)
      && (r.outcome.Raised? ==> r.outcome.error == Disconnect)
  {
    if src !in env.status then TopStep(Raised(IoFailure(src)), w)
    else if env.acquireFails then TopStep(Raised(SessionFailure), w)
    else
      var w0 := w.(trace := w.trace + [Acquired]);
      var s := CopyNode(env, w0, env.status[src], dst, query, deleteSource, overwrite);
      var result := s.outcome.Returned? && s.outcome.value;
      var w1 := s.world.(trace := s.world.trace + [Released]);
      assert w1.trace[|w.trace|] == w0.trace[|w.trace|];
      if env.releaseFails then TopStep(Raised(Disconnect), w1) else TopStep(Done(result), w1)
  }
}
