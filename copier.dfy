/**
 * The copier as the program runs it: the destination server and the trace
 * are fields that the collaborator calls update in place, and the recursive
 * `copy` walks the source tree with a loop over each directory's children.
 * Every method is proved to end in the state, and with the result, that
 * the functions of `TreeCopy` describe.
 */
module FtpCopier {
  import opened Entries
  import opened ContentFilter
  import opened TreeCopy
  import opened TreeCopyFacts

  class Copier {
    /** How the source filesystem, the FTP session and the libraries behave. */
    const env: Env
    var dirs: set<Path>
    var files: map<Path, Path>
    var deleted: set<Path>
    var trace: seq<Event>

    function Snapshot(): World
      reads this
    {
      World(dirs, files, deleted, trace)
    }

    constructor (env: Env, start: World)
      ensures this.env == env && Snapshot() == start
    {
      this.env := env;
      dirs, files, deleted, trace := start.dirs, start.files, start.deleted, start.trace;
    }

    /** `srcFS.getFileStatus(src)`. */
    method GetFileStatus(src: Path) returns (r: Result<Entry, Error>)
      ensures src in env.status ==> r == Success(env.status[src])
      ensures src !in env.status ==> r == Failure(IoFailure(src))
    {
      if src in env.status {
        r := Success(env.status[src]);
      } else {
        r := Failure(IoFailure(src));
      }
    }

    /** `FtpClientUtil.getFTPClient()`. */
    method AcquireClient() returns (err: Option<Error>)
      modifies this
      ensures err == (if env.acquireFails then Some(SessionFailure) else None)
      ensures Snapshot() == if env.acquireFails then old(Snapshot()) else old(Snapshot()).(trace := old(trace) + [Acquired])
    {
      if env.acquireFails {
        return Some(SessionFailure);
      }
      trace := trace + [Acquired];
      err := None;
    }

    /** `FtpClientUtil.releaseFtpClient()`: recorded whether or not it throws. */
    method ReleaseClient() returns (err: Option<Error>)
      modifies this
      ensures err == (if env.releaseFails then Some(Disconnect) else None)
      ensures Snapshot() == old(Snapshot()).(trace := old(trace) + [Released])
    {
      trace := trace + [Released];
      err := if env.releaseFails then Some(Disconnect) else None;
    }

    /**
     * `ftpClient.makeDirectory(d)`: a refused request returns false, which
     * `copy` discards, and creates nothing.
     */
    method MakeDirectory(d: Path) returns (err: Option<Error>)
      modifies this
      ensures err == (if d in env.mkdirFails then Some(IoFailure(d)) else None)
      ensures Snapshot() == if err.Some? then old(Snapshot()) else Made(env, old(Snapshot()), d)
    {
      if d in env.mkdirFails {
        return Some(IoFailure(d));
      }
      if d !in env.mkdirRefused {
        dirs := dirs + {d};
      }
      trace := trace + [MadeDirectory(d)];
      err := None;
    }

    /** `srcFS.listStatus(src)`. */
    method ListStatus(src: Path) returns (r: Result<seq<Entry>, Error>)
      ensures src in env.unreadable || src !in env.listing ==> r == Failure(IoFailure(src))
      ensures src !in env.unreadable && src in env.listing ==> r == Success(env.listing[src])
    {
      if src in env.unreadable || src !in env.listing {
        r := Failure(IoFailure(src));
      } else {
        r := Success(env.listing[src]);
      }
    }

    /** `FtpClientUtil.getFileNameMap(d)`: the names directly inside `d`. */
    method FileNameMap(d: Path) returns (r: Result<set<string>, Error>)
      modifies this
      ensures d in env.lookupFails ==> r == Failure(IoFailure(d)) && Snapshot() == old(Snapshot())
      ensures d !in env.lookupFails ==> r == Success(NamesAt(old(Snapshot()), d)) && Snapshot() == Looked(old(Snapshot()), d)
    {
      if d in env.lookupFails {
        return Failure(IoFailure(d));
      }
      r := Success(NamesAt(Snapshot(), d));
      trace := trace + [ListedNames(d)];
    }

    /** `in = srcFS.open(src)` followed by `FtpClientUtil.uploadToRemote(dst, in)`. */
    method Upload(src: Path, dst: Path) returns (err: Option<Error>)
      modifies this
      ensures src in env.unreadable ==> err == Some(IoFailure(src))
      ensures src !in env.unreadable && dst in env.uploadFails ==> err == Some(IoFailure(dst))
      ensures src !in env.unreadable && dst !in env.uploadFails ==> err == None
      ensures Snapshot() == if err.Some? then old(Snapshot()) else Put(old(Snapshot()), src, dst)
    {
      if src in env.unreadable {
        return Some(IoFailure(src));
      }
      if dst in env.uploadFails {
        return Some(IoFailure(dst));
      }
      files := files[dst := src];
      trace := trace + [Uploaded(src, dst)];
      err := None;
    }

    /** `srcFS.delete(src, true)`. */
    method Delete(src: Path) returns (r: Result<bool, Error>)
      modifies this
      ensures src in env.deleteFails ==> r == Failure(IoFailure(src)) && Snapshot() == old(Snapshot())
      ensures src !in env.deleteFails ==>
        r == Success(src !in env.deleteRefused) && Snapshot() == Removed(old(Snapshot()), src, src !in env.deleteRefused)
    {
      if src in env.deleteFails {
        return Failure(IoFailure(src));
      }
      var removed := src !in env.deleteRefused;
      if removed {
        deleted := deleted + {src};
      }
      trace := trace + [DeleteCalled(src, removed)];
      r := Success(removed);
    }

    /** The tail of `copy`: `delete(src, true)` when asked to, otherwise true. */
    method FinishNode(src: Path, deleteSource: bool) returns (o: Outcome)
      modifies this
      ensures Step(o, Snapshot()) == Finish(env, old(Snapshot()), src, deleteSource)
    {
      if !deleteSource {
        return Returned(true);
      }
      var d := Delete(src);
      if d.Failure? {
        return Threw(d.error);
      }
      o := Returned(d.value);
    }

    /** `copy(srcFS, e, dst, query, deleteSource, overwrite, conf, ftpClient)`. */
    method CopyEntry(e: Entry, dst: Path, query: Option<string>, deleteSource: bool, overwrite: bool)
      returns (o: Outcome)
      requires ValidFs(env)
      modifies this
      ensures Step(o, Snapshot()) == CopyNode(env, old(Snapshot()), e, dst, query, deleteSource, overwrite)
      decreases Rank(env, e.path), 4
    {
      if !e.isDir {
        var err := Upload(e.path, dst);
        if err.Some? {
          return Threw(err.value);
        }
        o := FinishNode(e.path, deleteSource);
        return;
      }
      var err := MakeDirectory(dst);
      if err.Some? {
        return Threw(err.value);
      }
      var listed := ListStatus(e.path);
      if listed.Failure? {
        return Threw(listed.error);
      }
      o := CopyChildren(e, dst, listed.value, query, deleteSource, overwrite);
    }

    /**
     * The directory branch once listed: the query filter, the name lookup
     * (only when not overwriting) and the loop over the children, counting
     * the skipped and the transferred ones.
     */
    method CopyChildren(e: Entry, dst: Path, listed: seq<Entry>, query: Option<string>, deleteSource: bool, overwrite: bool)
      returns (o: Outcome)
      requires ValidFs(env) && e.path in env.listing && listed == env.listing[e.path]
      modifies this
      ensures Step(o, Snapshot()) == CopyListing(env, old(Snapshot()), e, dst, listed, query, deleteSource, overwrite)
      decreases Rank(env, e.path), 3
    {
      var filtered := FilterListing(env.regex, env.calendar, query, listed);
      if filtered.Failure? {
        return Threw(filtered.error);
      }
      var contents := filtered.value;
      var names: set<string> := {};
      if !overwrite {
        var m := FileNameMap(dst);
        if m.Failure? {
          return Threw(m.error);
        }
        names := m.value;
      }
      var error, skipped, transferred := CopyEach(e.path, dst, contents, names, query, deleteSource, overwrite);
      if error.Some? {
        return Threw(error.value);
      }
      o := FinishNode(e.path, deleteSource);
    }

    /**
     * The `for` loop of the directory branch: each child in listing order is
     * skipped when its name is in `names` (unless overwriting) and copied to
     * `dst/name` otherwise; an exception from a child ends the loop.
     */
    method CopyEach(parent: Path, dst: Path, contents: seq<Entry>, names: set<string>,
                    query: Option<string>, deleteSource: bool, overwrite: bool)
      returns (error: Option<Error>, skipped: nat, transferred: nat)
      requires ValidFs(env) && FromListing(env, parent, contents)
      modifies this
      ensures CopyLoop(env, old(Snapshot()), parent, dst, contents, names, query, deleteSource, overwrite)
           == Progress(error, Snapshot(), skipped, transferred)
      decreases Rank(env, parent), 2
    {
      ghost var start := Snapshot();
      skipped, transferred := 0, 0;
      var i := 0;
      while i < |contents|
        invariant 0 <= i <= |contents| && FromListing(env, parent, contents[..i])
        invariant CopyLoop(env, start, parent, dst, contents[..i], names, query, deleteSource, overwrite)
               == Progress(None, Snapshot(), skipped, transferred)
      {
        error, skipped, transferred := Turn(start, parent, dst, contents, i, names, query, deleteSource, overwrite, skipped, transferred);
        if error.Some? {
          return;
        }
        i := i + 1;
      }
      assert contents[..i] == contents;
      error := None;
    }

    /**
     * Turn `i` of the loop in `CopyEach`, taken from the state the first `i`
     * children left: it ends the loop with the state of the whole listing
     * when the child throws.
     */
    method Turn(ghost start: World, parent: Path, dst: Path, contents: seq<Entry>, i: nat, names: set<string>,
                query: Option<string>, deleteSource: bool, overwrite: bool, skipped: nat, transferred: nat)
      returns (error: Option<Error>, skipped': nat, transferred': nat)
      requires ValidFs(env) && FromListing(env, parent, contents) && i < |contents|
      requires FromListing(env, parent, contents[..i])
      requires CopyLoop(env, start, parent, dst, contents[..i], names, query, deleteSource, overwrite)
            == Progress(None, Snapshot(), skipped, transferred)
      modifies this
      ensures FromListing(env, parent, contents[..i + 1])
      ensures CopyLoop(env, start, parent, dst, contents[..i + 1], names, query, deleteSource, overwrite)
           == Progress(error, Snapshot(), skipped', transferred')
      ensures error.Some? ==>
        CopyLoop(env, start, parent, dst, contents, names, query, deleteSource, overwrite)
          == Progress(error, Snapshot(), skipped', transferred')
      decreases Rank(env, parent), 1
    {
      LoopUnfold(env, start, parent, dst, contents, i, names, query, deleteSource, overwrite);
      error, skipped', transferred' := VisitChild(parent, dst, contents[i], names, query, deleteSource, overwrite, skipped, transferred);
      if error.Some? {
        ErrorStops(env, start, parent, dst, contents, i + 1, names, query, deleteSource, overwrite);
      }
    }

    /** One turn of the `for` loop, with the counters as they stand before it. */
    method VisitChild(parent: Path, dst: Path, c: Entry, names: set<string>, query: Option<string>,
                      deleteSource: bool, overwrite: bool, skipped: nat, transferred: nat)
      returns (error: Option<Error>, skipped': nat, transferred': nat)
      requires ValidFs(env) && parent in env.listing && c in env.listing[parent]
      modifies this
      ensures LoopNext(env, Progress(None, old(Snapshot()), skipped, transferred), parent, dst, c, names, query, deleteSource, overwrite)
           == Progress(error, Snapshot(), skipped', transferred')
      decreases Rank(env, parent), 0
    {
      NextUnfold(env, Snapshot(), parent, dst, c, names, query, deleteSource, overwrite, skipped, transferred);
      if !overwrite && Name(c.path) in names {
        return None, skipped + 1, transferred;
      }
      var child := CopyEntry(c, Child(dst, Name(c.path)), query, deleteSource, overwrite);
      if child.Threw? {
        return Some(child.error), skipped, transferred;
      }
      error, skipped', transferred' := None, skipped, transferred + 1;
    }

    /**
     * `copy(srcFS, src, dst, query, deleteSource, overwrite, conf)`: the body
     * runs inside a try whose catch keeps the result false, and whose finally
     * releases the session and turns a failed release into `FTPException`.
     */
    method Copy(src: Path, dst: Path, query: Option<string>, deleteSource: bool, overwrite: bool)
      returns (r: TopOutcome)
      requires ValidFs(env)
      modifies this
      ensures TopStep(r, Snapshot()) == TopCopy(env, old(Snapshot()), src, dst, query, deleteSource, overwrite)
    {
      var status := GetFileStatus(src);
      if status.Failure? {
        return Raised(status.error);
      }
      var acquired := AcquireClient();
      if acquired.Some? {
        return Raised(acquired.value);
      }
      var result := false;
      var body := CopyEntry(status.value, dst, query, deleteSource, overwrite);
      if body.Returned? {
        result := body.value;
      }
      var released := ReleaseClient();
      if released.Some? {
        return Raised(released.value);
      }
      r := Done(result);
    }

    /** `copyAndRemove`: the source repeats the body of `copy` statement for statement. */
    method CopyAndRemove(src: Path, dst: Path, query: Option<string>, deleteSource: bool, overwrite: bool)
      returns (r: TopOutcome)
      requires ValidFs(env)
      modifies this
      ensures TopStep(r, Snapshot()) == TopCopy(env, old(Snapshot()), src, dst, query, deleteSource, overwrite)
    {
      r := Copy(src, dst, query, deleteSource, overwrite);
    }
  }
}
