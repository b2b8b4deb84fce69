/**
 * What the recursive `copy` and its entry points promise, proved about the
 * functions of `TreeCopy`.
 */
module TreeCopyFacts {
  import opened Entries
  import opened Selection
  import opened ContentFilter
  import opened TreeCopy

  // ------------------------------------------------------------ the loop

  /** The loop over the first `i + 1` children is the loop over the first `i` and one more turn. */
  lemma LoopUnfold(env: Env, w: World, parent: Path, dst: Path, cs: seq<Entry>, i: int,
                   names: set<string>, query: Option<string>, deleteSource: bool, overwrite: bool)
    requires ValidFs(env) && FromListing(env, parent, cs) && 0 <= i < |cs|
    ensures FromListing(env, parent, cs[..i]) && FromListing(env, parent, cs[..i + 1])
    ensures CopyLoop(env, w, parent, dst, cs[..i + 1], names, query, deleteSource, overwrite)
         == LoopNext(env, CopyLoop(env, w, parent, dst, cs[..i], names, query, deleteSource, overwrite),
                     parent, dst, cs[i], names, query, deleteSource, overwrite)
  {
    assert cs[..i + 1][..i] == cs[..i];
  }

  /** A turn of the loop that starts without an error: the skip, or the copy of the child and its outcome. */
  lemma NextUnfold(env: Env, w: World, parent: Path, dst: Path, c: Entry, names: set<string>,
                   query: Option<string>, deleteSource: bool, overwrite: bool, skipped: nat, transferred: nat)
    requires ValidFs(env) && parent in env.listing && c in env.listing[parent]
    ensures Rank(env, c.path) < Rank(env, parent)
    ensures var r := LoopNext(env, Progress(None, w, skipped, transferred), parent, dst, c, names, query, deleteSource, overwrite);
      var s := CopyNode(env, w, c, Child(dst, Name(c.path)), query, deleteSource, overwrite);
      r == if Skips(names, overwrite, c) then Progress(None, w, skipped + 1, transferred)
           else if s.outcome.Threw? then Progress(Some(s.outcome.error), s.world, skipped, transferred)
           else Progress(None, s.world, skipped, transferred + 1)
  {
    RankDecreases(env, parent, c.path);
  }

  /** Once a child has thrown, the remaining children are not visited. */
  lemma {:induction false} ErrorStops(env: Env, w: World, parent: Path, dst: Path, cs: seq<Entry>, n: int,
                                      names: set<string>, query: Option<string>, deleteSource: bool, overwrite: bool)
    requires ValidFs(env) && FromListing(env, parent, cs) && 0 <= n <= |cs|
    requires FromListing(env, parent, cs[..n])
    requires CopyLoop(env, w, parent, dst, cs[..n], names, query, deleteSource, overwrite).error.Some?
    ensures CopyLoop(env, w, parent, dst, cs, names, query, deleteSource, overwrite)
         == CopyLoop(env, w, parent, dst, cs[..n], names, query, deleteSource, overwrite)
    decreases |cs|
  {
    if n == |cs| {
      assert cs[..n] == cs;
    } else {
      var init := cs[..|cs| - 1];
      assert init[..n] == cs[..n];
      ErrorStops(env, w, parent, dst, init, n, names, query, deleteSource, overwrite);
    }
  }

  function SkipTest(names: set<string>, overwrite: bool): Entry -> bool
  {
    c => Skips(names, overwrite, c)
  }

  /** One turn of the loop counts the child as skipped or as transferred, unless it throws. */
  lemma NextCounts(env: Env, p: Progress, parent: Path, dst: Path, c: Entry, names: set<string>,
                   query: Option<string>, deleteSource: bool, overwrite: bool)
    requires ValidFs(env) && parent in env.listing && c in env.listing[parent]
    ensures var r := LoopNext(env, p, parent, dst, c, names, query, deleteSource, overwrite);
      r.error.None? ==>
        && p.error.None?
        && r.skipped == p.skipped + (if Skips(names, overwrite, c) then 1 else 0)
        && r.transferred == p.transferred + (if Skips(names, overwrite, c) then 0 else 1)
  {
  }

  /**
   * A loop that ran to the end counted every child once: as skipped exactly
   * when its name was already at the destination (never when overwriting),
   * otherwise as transferred.
   */
  lemma {:induction false} LoopCounts(env: Env, w: World, parent: Path, dst: Path, cs: seq<Entry>,
                                      names: set<string>, query: Option<string>, deleteSource: bool, overwrite: bool)
    requires ValidFs(env) && FromListing(env, parent, cs)
    ensures var p := CopyLoop(env, w, parent, dst, cs, names, query, deleteSource, overwrite);
      p.error.None? ==>
        && p.skipped + p.transferred == |cs|
        && p.skipped == |Select(cs, SkipTest(names, overwrite))|
        && (overwrite ==> p.skipped == 0)
    decreases |cs|
  {
    if cs != [] {
      var init := cs[..|cs| - 1];
      var c := cs[|cs| - 1];
      var p := CopyLoop(env, w, parent, dst, init, names, query, deleteSource, overwrite);
      LoopCounts(env, w, parent, dst, init, names, query, deleteSource, overwrite);
      NextCounts(env, p, parent, dst, c, names, query, deleteSource, overwrite);
      assert Select(cs, SkipTest(names, overwrite))
          == Select(init, SkipTest(names, overwrite)) + (if Skips(names, overwrite, c) then [c] else []);
    }
  }

  /** A call of a loop is on a path longer than the destination (than the source, for a deletion). */
  predicate Deeper(e: Event, src: Path, dst: Path)
  {
    match e
    case MadeDirectory(d) => |d| > |dst|
    case ListedNames(d) => |d| > |dst|
    case Uploaded(_, d) => |d| > |dst|
    case DeleteCalled(s, _) => |s| > |src|
    case Acquired => false
    case Released => false
  }

  /** Every call `t` appended to `t0` is deeper than `src` and `dst`. */
  ghost predicate AppendedBelow(t0: seq<Event>, t: seq<Event>, src: Path, dst: Path)
  {
    forall k :: |t0| <= k < |t| ==> Deeper(t[k], src, dst)
  }

  lemma StaysBelowConcat(t0: seq<Event>, t1: seq<Event>, t2: seq<Event>, src: Path, dst: Path)
    requires |t0| <= |t1| <= |t2| && t2[..|t1|] == t1
    requires AppendedBelow(t0, t1, src, dst) && AppendedBelow(t1, t2, src, dst)
    ensures AppendedBelow(t0, t2, src, dst)
  {
    forall k | |t0| <= k < |t1|
      ensures Deeper(t2[k], src, dst)
    {
      assert t2[k] == t2[..|t1|][k];
    }
  }

  /** The calls of one turn of the loop are deeper than the directory and its destination. */
  lemma NextStaysBelow(env: Env, p: Progress, parent: Path, dst: Path, c: Entry, names: set<string>,
                       query: Option<string>, deleteSource: bool, overwrite: bool)
    requires ValidFs(env) && parent in env.listing && c in env.listing[parent]
    ensures AppendedBelow(p.world.trace, LoopNext(env, p, parent, dst, c, names, query, deleteSource, overwrite).world.trace, parent, dst)
  {
    if p.error.None? && !Skips(names, overwrite, c) {
      var target := Child(dst, Name(c.path));
      var w' := CopyNode(env, p.world, c, target, query, deleteSource, overwrite).world;
      assert |c.path| == |parent| + 1;
      forall k | |p.world.trace| <= k < |w'.trace|
        ensures Deeper(w'.trace[k], parent, dst)
      {
        assert AtOrBelowBoth(w'.trace[k], c.path, target);
      }
    }
  }

  lemma {:induction false} LoopStaysBelow(env: Env, w: World, parent: Path, dst: Path, cs: seq<Entry>,
                                          names: set<string>, query: Option<string>, deleteSource: bool, overwrite: bool)
    requires ValidFs(env) && FromListing(env, parent, cs)
    ensures AppendedBelow(w.trace, CopyLoop(env, w, parent, dst, cs, names, query, deleteSource, overwrite).world.trace, parent, dst)
    decreases |cs|
  {
    if cs != [] {
      var init := cs[..|cs| - 1];
      var p := CopyLoop(env, w, parent, dst, init, names, query, deleteSource, overwrite);
      var w' := LoopNext(env, p, parent, dst, cs[|cs| - 1], names, query, deleteSource, overwrite).world;
      LoopStaysBelow(env, w, parent, dst, init, names, query, deleteSource, overwrite);
      NextStaysBelow(env, p, parent, dst, cs[|cs| - 1], names, query, deleteSource, overwrite);
      StaysBelowConcat(w.trace, p.world.trace, w'.trace, parent, dst);
    }
  }

  /**
   * Every child of `cs` that is not skipped is at its destination in `w`: a
   * file as the upload of that child, a directory as one unless
   * `makeDirectory` was refused there.
   */
  ghost predicate TargetsExist(w: World, refused: set<Path>, dst: Path, cs: seq<Entry>, names: set<string>, overwrite: bool)
  {
    forall k :: 0 <= k < |cs| && !Skips(names, overwrite, cs[k]) ==>
      if cs[k].isDir then Child(dst, Name(cs[k].path)) in w.dirs || Child(dst, Name(cs[k].path)) in refused
      else Child(dst, Name(cs[k].path)) in w.files && w.files[Child(dst, Name(cs[k].path))] == cs[k].path
  }

  /** A loop that ran to the end left every child it did not skip at its destination. */
  lemma {:induction false} CopiedTargetsExist(env: Env, w: World, parent: Path, dst: Path, cs: seq<Entry>,
                                              names: set<string>, query: Option<string>, deleteSource: bool, overwrite: bool)
    requires ValidFs(env) && OnePerPath(env) && FromListing(env, parent, cs)
    ensures var r := CopyLoop(env, w, parent, dst, cs, names, query, deleteSource, overwrite);
      r.error.None? ==> TargetsExist(r.world, env.mkdirRefused, dst, cs, names, overwrite)
    decreases |cs|
  {
    if cs != [] {
      var n := |cs| - 1;
      var init := cs[..n];
      LoopUnfold(env, w, parent, dst, cs, n, names, query, deleteSource, overwrite);
      assert cs[..n + 1] == cs;
      CopiedTargetsExist(env, w, parent, dst, init, names, query, deleteSource, overwrite);
      var p := CopyLoop(env, w, parent, dst, init, names, query, deleteSource, overwrite);
      var r := LoopNext(env, p, parent, dst, cs[n], names, query, deleteSource, overwrite);
      if r.error.None? {
        assert p.error.None?;
        NextUnfold(env, p.world, parent, dst, cs[n], names, query, deleteSource, overwrite, p.skipped, p.transferred);
        if !Skips(names, overwrite, cs[n]) {
          var s := CopyNode(env, p.world, cs[n], Child(dst, Name(cs[n].path)), query, deleteSource, overwrite);
          assert s.outcome.Returned? && r.world == s.world;
          TargetsGrow(env, p.world, r.world, parent, dst, init, cs[n], names, overwrite);
        }
        TargetsSnoc(r.world, env.mkdirRefused, dst, cs, names, overwrite);
      }
    }
  }

  /** Two children of one listing with the same name are the same entry. */
  lemma SameName(env: Env, parent: Path, a: Entry, b: Entry)
    requires ValidFs(env) && OnePerPath(env) && parent in env.listing && a in env.listing[parent] && b in env.listing[parent]
    requires Name(a.path) == Name(b.path)
    ensures a == b
  {
    assert a.path == parent + [Name(a.path)];
    assert b.path == parent + [Name(b.path)];
  }

  /**
   * Copying one more child `c` to `dst/name` keeps the targets of the earlier
   * children: it changes no file outside `dst/name`, and an earlier child of
   * the same name is `c` itself, since a listing has one entry per path.
   */
  lemma TargetsGrow(env: Env, w: World, w': World, parent: Path, dst: Path, cs: seq<Entry>, c: Entry,
                    names: set<string>, overwrite: bool)
    requires ValidFs(env) && OnePerPath(env) && FromListing(env, parent, cs) && c in env.listing[parent]
    requires TargetsExist(w, env.mkdirRefused, dst, cs, names, overwrite)
    requires w.dirs <= w'.dirs
    requires forall d :: d in w.files && !AtOrBelow(d, Child(dst, Name(c.path))) ==> d in w'.files && w'.files[d] == w.files[d]
    requires !c.isDir ==> Child(dst, Name(c.path)) in w'.files && w'.files[Child(dst, Name(c.path))] == c.path
    ensures TargetsExist(w', env.mkdirRefused, dst, cs, names, overwrite)
  {
    forall k | 0 <= k < |cs| && !Skips(names, overwrite, cs[k]) && !cs[k].isDir
      ensures Child(dst, Name(cs[k].path)) in w'.files && w'.files[Child(dst, Name(cs[k].path))] == cs[k].path
    {
      if AtOrBelow(Child(dst, Name(cs[k].path)), Child(dst, Name(c.path))) {
        SameName(env, parent, cs[k], c);
      }
    }
  }

  lemma TargetsSnoc(w: World, refused: set<Path>, dst: Path, cs: seq<Entry>, names: set<string>, overwrite: bool)
    requires cs != [] && TargetsExist(w, refused, dst, cs[..|cs| - 1], names, overwrite)
    requires var c := cs[|cs| - 1];
      !Skips(names, overwrite, c) ==>
        if c.isDir then Child(dst, Name(c.path)) in w.dirs || Child(dst, Name(c.path)) in refused
        else Child(dst, Name(c.path)) in w.files && w.files[Child(dst, Name(c.path))] == c.path
    ensures TargetsExist(w, refused, dst, cs, names, overwrite)
  {
    var n := |cs| - 1;
    forall k | 0 <= k < n
      ensures cs[k] == cs[..n][k]
    {
    }
  }

  // ------------------------------------------------ the two flags

  /** No call that `bad` picks out was appended to `t0`. */
  ghost predicate NoneAppended(t0: seq<Event>, t: seq<Event>, bad: Event -> bool)
  {
    forall k :: |t0| <= k < |t| ==> !bad(t[k])
  }

  predicate IsLookup(e: Event)
  {
    e.ListedNames?
  }

  predicate IsDeletion(e: Event)
  {
    e.DeleteCalled?
  }

  /** Overwriting never looks up names; keeping the source never deletes anything. */
  ghost predicate RespectsFlags(w: World, w': World, deleteSource: bool, overwrite: bool)
  {
    && (overwrite ==> NoneAppended(w.trace, w'.trace, IsLookup))
    && (!deleteSource ==> NoneAppended(w.trace, w'.trace, IsDeletion) && w'.deleted == w.deleted)
  }

  lemma RespectsFlagsTrans(w: World, w': World, w'': World, deleteSource: bool, overwrite: bool)
    requires |w.trace| <= |w'.trace| <= |w''.trace| && w''.trace[..|w'.trace|] == w'.trace
    requires RespectsFlags(w, w', deleteSource, overwrite) && RespectsFlags(w', w'', deleteSource, overwrite)
    ensures RespectsFlags(w, w'', deleteSource, overwrite)
  {
    forall k | |w.trace| <= k < |w'.trace|
      ensures w''.trace[k] == w'.trace[k]
    {
      assert w''.trace[k] == w''.trace[..|w'.trace|][k];
    }
  }

  /** A call on the server that is neither a lookup nor a deletion. */
  lemma PlainCall(w: World, w': World, e: Event, deleteSource: bool, overwrite: bool)
    requires w'.trace == w.trace + [e] && w'.deleted == w.deleted && !e.ListedNames? && !e.DeleteCalled?
    ensures RespectsFlags(w, w', deleteSource, overwrite)
  {
  }

  lemma FinishFlags(env: Env, w: World, src: Path, deleteSource: bool, overwrite: bool)
    ensures RespectsFlags(w, Finish(env, w, src, deleteSource).world, deleteSource, overwrite)
    ensures !deleteSource ==> Finish(env, w, src, deleteSource).outcome == Returned(true)
  {
  }

  /**
   * With `overwrite` set, no directory anywhere in the tree looks up the
   * names at its destination; with `deleteSource` clear, nothing is deleted
   * and every node that returns returns true.
   */
  lemma NodeFlags(env: Env, w: World, e: Entry, dst: Path, query: Option<string>, deleteSource: bool, overwrite: bool)
    requires ValidFs(env)
    ensures var s := CopyNode(env, w, e, dst, query, deleteSource, overwrite);
      && RespectsFlags(w, s.world, deleteSource, overwrite)
      && (!deleteSource && s.outcome.Returned? ==> s.outcome.value)
    decreases Rank(env, e.path), 3, 0
  {
    if !e.isDir {
      if e.path !in env.unreadable && dst !in env.uploadFails {
        var w1 := Put(w, e.path, dst);
        PlainCall(w, w1, Uploaded(e.path, dst), deleteSource, overwrite);
        FinishFlags(env, w1, e.path, deleteSource, overwrite);
        FinishGrows(env, w1, e.path, dst, deleteSource);
        RespectsFlagsTrans(w, w1, Finish(env, w1, e.path, deleteSource).world, deleteSource, overwrite);
      }
    } else if dst !in env.mkdirFails {
      var w1 := Made(env, w, dst);
      PlainCall(w, w1, MadeDirectory(dst), deleteSource, overwrite);
      if e.path !in env.unreadable && e.path in env.listing {
        ListingFlags(env, w1, e, dst, query, deleteSource, overwrite);
        var s := CopyListing(env, w1, e, dst, env.listing[e.path], query, deleteSource, overwrite);
        RespectsFlagsTrans(w, w1, s.world, deleteSource, overwrite);
      }
    }
  }

  lemma ListingFlags(env: Env, w: World, e: Entry, dst: Path, query: Option<string>, deleteSource: bool, overwrite: bool)
    requires ValidFs(env) && e.path in env.listing
    ensures var s := CopyListing(env, w, e, dst, env.listing[e.path], query, deleteSource, overwrite);
      && RespectsFlags(w, s.world, deleteSource, overwrite)
      && (!deleteSource && s.outcome.Returned? ==> s.outcome.value)
    decreases Rank(env, e.path), 2, 1
  {
    var filtered := ApplyQuery(env.regex, env.calendar, query, env.listing[e.path]);
    if filtered.Success? {
      FilteredFlags(env, w, e.path, dst, filtered.value, query, deleteSource, overwrite);
    }
  }

  lemma FilteredFlags(env: Env, w: World, src: Path, dst: Path, cs: seq<Entry>,
                      query: Option<string>, deleteSource: bool, overwrite: bool)
    requires ValidFs(env) && FromListing(env, src, cs)
    ensures var s := CopyFiltered(env, w, src, dst, cs, query, deleteSource, overwrite);
      && RespectsFlags(w, s.world, deleteSource, overwrite)
      && (!deleteSource && s.outcome.Returned? ==> s.outcome.value)
    decreases Rank(env, src), 2, 0
  {
    if overwrite || dst !in env.lookupFails {
      var names := if overwrite then {} else NamesAt(w, dst);
      var w1 := if overwrite then w else Looked(w, dst);
      LookupGrows(w, src, dst, overwrite);
      LoopFlags(env, w1, src, dst, cs, names, query, deleteSource, overwrite);
      var p := CopyLoop(env, w1, src, dst, cs, names, query, deleteSource, overwrite);
      RespectsFlagsTrans(w, w1, p.world, deleteSource, overwrite);
      ConcludeFlags(env, p, src, dst, deleteSource, overwrite);
      RespectsFlagsTrans(w, p.world, Conclude(env, p, src, dst, deleteSource).world, deleteSource, overwrite);
    }
  }

  /** The end of a directory node: the exception of the loop, or the deletion. */
  lemma ConcludeFlags(env: Env, p: Progress, src: Path, dst: Path, deleteSource: bool, overwrite: bool)
    ensures var s := Conclude(env, p, src, dst, deleteSource);
      && RespectsFlags(p.world, s.world, deleteSource, overwrite)
      && (!deleteSource && s.outcome.Returned? ==> s.outcome.value)
  {
    if p.error.None? {
      FinishFlags(env, p.world, src, deleteSource, overwrite);
    }
  }

  lemma LoopFlags(env: Env, w: World, parent: Path, dst: Path, cs: seq<Entry>, names: set<string>,
                  query: Option<string>, deleteSource: bool, overwrite: bool)
    requires ValidFs(env) && FromListing(env, parent, cs)
    ensures RespectsFlags(w, CopyLoop(env, w, parent, dst, cs, names, query, deleteSource, overwrite).world, deleteSource, overwrite)
    decreases Rank(env, parent), 1, |cs|
  {
    if cs != [] {
      var init := cs[..|cs| - 1];
      LoopFlags(env, w, parent, dst, init, names, query, deleteSource, overwrite);
      var p := CopyLoop(env, w, parent, dst, init, names, query, deleteSource, overwrite);
      NextFlags(env, p, parent, dst, cs[|cs| - 1], names, query, deleteSource, overwrite);
      RespectsFlagsTrans(w, p.world, LoopNext(env, p, parent, dst, cs[|cs| - 1], names, query, deleteSource, overwrite).world,
                         deleteSource, overwrite);
    }
  }

  lemma NextFlags(env: Env, p: Progress, parent: Path, dst: Path, c: Entry, names: set<string>,
                  query: Option<string>, deleteSource: bool, overwrite: bool)
    requires ValidFs(env) && parent in env.listing && c in env.listing[parent]
    ensures RespectsFlags(p.world, LoopNext(env, p, parent, dst, c, names, query, deleteSource, overwrite).world, deleteSource, overwrite)
    decreases Rank(env, parent), 0, 0
  {
    if p.error.None? && !Skips(names, overwrite, c) {
      RankDecreases(env, parent, c.path);
      NodeFlags(env, p.world, c, Child(dst, Name(c.path)), query, deleteSource, overwrite);
    }
  }
}
