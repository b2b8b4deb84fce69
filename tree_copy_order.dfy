/**
 * The order of the calls one `copy` makes: the destination directory
 * first, the name lookup right after it, the deletion of the source last,
 * destinations of skipped children never touched, and the session taken
 * and given back exactly once around the whole tree.
 */
module TreeCopyOrder {
  import opened Entries
  import opened ContentFilter
  import opened TreeCopy
  import opened TreeCopyFacts

  // ------------------------------------------------------------ event tests

  function DeletionOf(src: Path): Event -> bool
  {
    (e: Event) => e.DeleteCalled? && e.src == src
  }

  function LookupOf(d: Path): Event -> bool
  {
    (e: Event) => e == ListedNames(d)
  }

  predicate IsSession(e: Event)
  {
    e.Acquired? || e.Released?
  }

  lemma NoneAppendedConcat(t0: seq<Event>, t1: seq<Event>, t2: seq<Event>, bad: Event -> bool)
    requires |t0| <= |t1| <= |t2| && t2[..|t1|] == t1
    requires NoneAppended(t0, t1, bad) && NoneAppended(t1, t2, bad)
    ensures NoneAppended(t0, t2, bad)
  {
    forall k | |t0| <= k < |t1|
      ensures t2[k] == t1[k]
    {
      assert t2[k] == t2[..|t1|][k];
    }
  }

  /** The calls of a loop, all strictly below the directory, are none of the directory's own. */
  lemma BelowIsNotOwn(t0: seq<Event>, t: seq<Event>, src: Path, dst: Path)
    requires AppendedBelow(t0, t, src, dst)
    ensures NoneAppended(t0, t, DeletionOf(src)) && NoneAppended(t0, t, LookupOf(dst))
  {
  }

  // --------------------------------------------------------------- deletion

  /** `t` extends `t0` by calls ending in `delete(src, true)` returning `removed`, the only deletion of `src` among them. */
  ghost predicate DeletedLast(t0: seq<Event>, t: seq<Event>, src: Path, removed: bool)
  {
    && |t0| < |t|
    && t[|t| - 1] == DeleteCalled(src, removed)
    && NoneAppended(t0, t[..|t| - 1], DeletionOf(src))
  }

  /**
   * How a node that started in `w` ended in `s`: if it returned, its result
   * is true unless the deletion it was asked for refused; that deletion was
   * its last call; and a node that threw never deleted its source.
   */
  ghost predicate NodeEnds(env: Env, w: World, s: Step, src: Path, deleteSource: bool)
  {
    && (s.outcome.Returned? ==> s.outcome.value == (!deleteSource || src !in env.deleteRefused))
    && (s.outcome.Returned? && deleteSource ==>
          && src !in env.deleteFails
          && DeletedLast(w.trace, s.world.trace, src, s.outcome.value)
          && (s.outcome.value ==> src in s.world.deleted))
    && (s.outcome.Threw? ==> NoneAppended(w.trace, s.world.trace, DeletionOf(src)))
  }

  lemma FinishEnds(env: Env, w0: World, w: World, src: Path, deleteSource: bool)
    requires |w0.trace| <= |w.trace| && NoneAppended(w0.trace, w.trace, DeletionOf(src))
    ensures NodeEnds(env, w0, Finish(env, w, src, deleteSource), src, deleteSource)
  {
    var s := Finish(env, w, src, deleteSource);
    if deleteSource && src !in env.deleteFails {
      assert s.world.trace[..|s.world.trace| - 1] == w.trace;
    }
  }

  lemma ConcludeEnds(env: Env, w0: World, p: Progress, src: Path, dst: Path, deleteSource: bool)
    requires |w0.trace| <= |p.world.trace| && NoneAppended(w0.trace, p.world.trace, DeletionOf(src))
    ensures NodeEnds(env, w0, Conclude(env, p, src, dst, deleteSource), src, deleteSource)
  {
    if p.error.None? {
      FinishEnds(env, w0, p.world, src, deleteSource);
    }
  }

  lemma FilteredEnds(env: Env, w: World, src: Path, dst: Path, cs: seq<Entry>,
                     query: Option<string>, deleteSource: bool, overwrite: bool)
    requires ValidFs(env) && FromListing(env, src, cs)
    ensures NodeEnds(env, w, CopyFiltered(env, w, src, dst, cs, query, deleteSource, overwrite), src, deleteSource)
  {
    if overwrite || dst !in env.lookupFails {
      var names := if overwrite then {} else NamesAt(w, dst);
      var w1 := if overwrite then w else Looked(w, dst);
      var p := CopyLoop(env, w1, src, dst, cs, names, query, deleteSource, overwrite);
      LoopStaysBelow(env, w1, src, dst, cs, names, query, deleteSource, overwrite);
      BelowIsNotOwn(w1.trace, p.world.trace, src, dst);
      assert NoneAppended(w.trace, w1.trace, DeletionOf(src));
      NoneAppendedConcat(w.trace, w1.trace, p.world.trace, DeletionOf(src));
      ConcludeEnds(env, w, p, src, dst, deleteSource);
    }
  }

  /** A node that began with a call other than a deletion of `src` ends as the rest of it does. */
  lemma EndsAfterCall(env: Env, w: World, w1: World, s: Step, src: Path, deleteSource: bool)
    requires |w.trace| + 1 == |w1.trace| && w1.trace[..|w.trace|] == w.trace
    requires !DeletionOf(src)(w1.trace[|w.trace|])
    requires |w1.trace| <= |s.world.trace| && s.world.trace[..|w1.trace|] == w1.trace
    requires NodeEnds(env, w1, s, src, deleteSource)
    ensures NodeEnds(env, w, s, src, deleteSource)
  {
    assert NoneAppended(w.trace, w1.trace, DeletionOf(src));
    if s.outcome.Threw? {
      NoneAppendedConcat(w.trace, w1.trace, s.world.trace, DeletionOf(src));
    } else if deleteSource {
      var t := s.world.trace;
      assert t[..|t| - 1][..|w1.trace|] == w1.trace;
      NoneAppendedConcat(w.trace, w1.trace, t[..|t| - 1], DeletionOf(src));
    }
  }

  lemma FileEnds(env: Env, w: World, e: Entry, dst: Path, deleteSource: bool)
    ensures NodeEnds(env, w, CopyFile(env, w, e, dst, deleteSource), e.path, deleteSource)
  {
    if e.path !in env.unreadable && dst !in env.uploadFails {
      var w1 := Put(w, e.path, dst);
      assert NoneAppended(w.trace, w1.trace, DeletionOf(e.path));
      FinishEnds(env, w, w1, e.path, deleteSource);
    }
  }

  lemma ListingEnds(env: Env, w: World, e: Entry, dst: Path, query: Option<string>, deleteSource: bool, overwrite: bool)
    requires ValidFs(env) && e.path in env.listing
    ensures NodeEnds(env, w, CopyListing(env, w, e, dst, env.listing[e.path], query, deleteSource, overwrite), e.path, deleteSource)
  {
    var filtered := ApplyQuery(env.regex, env.calendar, query, env.listing[e.path]);
    if filtered.Success? {
      FilteredEnds(env, w, e.path, dst, filtered.value, query, deleteSource, overwrite);
    }
  }

  lemma DirectoryEnds(env: Env, w: World, e: Entry, dst: Path, query: Option<string>, deleteSource: bool, overwrite: bool)
    requires ValidFs(env)
    ensures NodeEnds(env, w, CopyDirectory(env, w, e, dst, query, deleteSource, overwrite), e.path, deleteSource)
  {
    if dst !in env.mkdirFails {
      var w1 := Made(env, w, dst);
      assert NoneAppended(w.trace, w1.trace, DeletionOf(e.path));
      if e.path !in env.unreadable && e.path in env.listing {
        var s := CopyListing(env, w1, e, dst, env.listing[e.path], query, deleteSource, overwrite);
        ListingEnds(env, w1, e, dst, query, deleteSource, overwrite);
        assert w1.trace[..|w.trace|] == w.trace;
        EndsAfterCall(env, w, w1, s, e.path, deleteSource);
      }
    }
  }

  /**
   * A node returns what `delete(src, true)` returned when asked to delete
   * and true otherwise; the deletion is its last call and the only one of
   * `src`, made after the upload or the whole directory loop; a node that
   * throws has not deleted its source.
   */
  lemma DeletionComesLast(env: Env, w: World, e: Entry, dst: Path, query: Option<string>, deleteSource: bool, overwrite: bool)
    requires ValidFs(env)
    ensures NodeEnds(env, w, CopyNode(env, w, e, dst, query, deleteSource, overwrite), e.path, deleteSource)
  {
    if e.isDir {
      DirectoryEnds(env, w, e, dst, query, deleteSource, overwrite);
    } else {
      FileEnds(env, w, e, dst, deleteSource);
    }
  }

  // ------------------------------------------------- the directory and its lookup

  /** The end of a directory node appends deletions of `src` only: no lookup, nothing at any destination. */
  lemma ConcludeOnlyDeletes(env: Env, p: Progress, src: Path, dst: Path, deleteSource: bool, d: Path)
    ensures var s := Conclude(env, p, src, dst, deleteSource);
      && NoneAppended(p.world.trace, s.world.trace, LookupOf(dst))
      && DstUntouched(p.world, s.world, d)
  {
    var s := Conclude(env, p, src, dst, deleteSource);
    assert s.world.trace[..|p.world.trace|] == p.world.trace;
  }

  /** Among the calls appended to `t0`, the only lookup of `d` is the one at position `at`, and there is none when overwriting. */
  ghost predicate LooksUpOnce(t0: seq<Event>, t: seq<Event>, d: Path, at: int, overwrite: bool)
  {
    && (overwrite ==> NoneAppended(t0, t, LookupOf(d)))
    && forall k :: |t0| <= k < |t| && t[k] == ListedNames(d) ==> k == at
  }

  /** A trace that starts with the lookup of `d` and has no other one looks `d` up once, first. */
  lemma LookupFirst(t0: seq<Event>, t1: seq<Event>, t: seq<Event>, d: Path)
    requires t1 == t0 + [ListedNames(d)] && |t1| <= |t| && t[..|t1|] == t1
    requires NoneAppended(t1, t, LookupOf(d))
    ensures LooksUpOnce(t0, t, d, |t0|, false) && t[|t0|] == ListedNames(d)
  {
    assert t[|t0|] == t[..|t1|][|t0|];
  }

  /** One call before that is not a lookup of `d` changes nothing about the lookups of `d`. */
  lemma LookupAfterCall(t0: seq<Event>, t1: seq<Event>, t: seq<Event>, d: Path, at: int, overwrite: bool)
    requires |t0| + 1 == |t1| && t1[..|t0|] == t0 && t1[|t0|] != ListedNames(d)
    requires |t1| <= |t| && t[..|t1|] == t1
    requires LooksUpOnce(t1, t, d, at, overwrite)
    ensures LooksUpOnce(t0, t, d, at, overwrite)
  {
    assert t[|t0|] == t[..|t1|][|t0|];
  }

  lemma FilteredLookup(env: Env, w: World, src: Path, dst: Path, cs: seq<Entry>,
                       query: Option<string>, deleteSource: bool, overwrite: bool)
    requires ValidFs(env) && FromListing(env, src, cs)
    ensures var t := CopyFiltered(env, w, src, dst, cs, query, deleteSource, overwrite).world.trace;
      && LooksUpOnce(w.trace, t, dst, |w.trace|, overwrite)
      && (!overwrite && dst !in env.lookupFails ==> |w.trace| < |t| && t[|w.trace|] == ListedNames(dst))
  {
    if overwrite || dst !in env.lookupFails {
      var names := if overwrite then {} else NamesAt(w, dst);
      var w1 := if overwrite then w else Looked(w, dst);
      var p := CopyLoop(env, w1, src, dst, cs, names, query, deleteSource, overwrite);
      var t := Conclude(env, p, src, dst, deleteSource).world.trace;
      LoopStaysBelow(env, w1, src, dst, cs, names, query, deleteSource, overwrite);
      BelowIsNotOwn(w1.trace, p.world.trace, src, dst);
      ConcludeOnlyDeletes(env, p, src, dst, deleteSource, dst);
      NoneAppendedConcat(w1.trace, p.world.trace, t, LookupOf(dst));
      if !overwrite {
        LookupFirst(w.trace, w1.trace, t, dst);
      }
    }
  }

  lemma ListingLookup(env: Env, w: World, e: Entry, dst: Path, query: Option<string>, deleteSource: bool, overwrite: bool)
    requires ValidFs(env) && e.path in env.listing
    ensures var filtered := ApplyQuery(env.regex, env.calendar, query, env.listing[e.path]);
      var t := CopyListing(env, w, e, dst, env.listing[e.path], query, deleteSource, overwrite).world.trace;
      && LooksUpOnce(w.trace, t, dst, |w.trace|, overwrite)
      && (filtered.Success? && !overwrite && dst !in env.lookupFails ==> |w.trace| < |t| && t[|w.trace|] == ListedNames(dst))
  {
    var filtered := ApplyQuery(env.regex, env.calendar, query, env.listing[e.path]);
    if filtered.Success? {
      FilteredLookup(env, w, e.path, dst, filtered.value, query, deleteSource, overwrite);
    }
  }

  /**
   * A directory node calls `makeDirectory(dst)` before anything else (and
   * throws at once, having done nothing, if that fails); the lookup of the
   * names at `dst` is the call right after it, made only when not
   * overwriting and made once: no other call of the node, its children
   * included, looks up `dst`.
   */
  lemma DirectoryCallOrder(env: Env, w: World, e: Entry, dst: Path, query: Option<string>, deleteSource: bool, overwrite: bool)
    requires ValidFs(env) && e.isDir
    ensures var s := CopyNode(env, w, e, dst, query, deleteSource, overwrite);
      var t := s.world.trace;
      && (dst in env.mkdirFails ==> s == Step(Threw(IoFailure(dst)), w))
      && (dst !in env.mkdirFails ==> |w.trace| < |t| && t[|w.trace|] == MadeDirectory(dst))
      && LooksUpOnce(w.trace, t, dst, |w.trace| + 1, overwrite)
      && (&& dst !in env.mkdirFails && e.path !in env.unreadable && e.path in env.listing
          && ApplyQuery(env.regex, env.calendar, query, env.listing[e.path]).Success?
          && !overwrite && dst !in env.lookupFails
          ==> |w.trace| + 1 < |t| && t[|w.trace| + 1] == ListedNames(dst))
  {
    DirectoryOrder(env, w, e, dst, query, deleteSource, overwrite);
  }

  lemma DirectoryOrder(env: Env, w: World, e: Entry, dst: Path, query: Option<string>, deleteSource: bool, overwrite: bool)
    requires ValidFs(env)
    ensures var t := CopyDirectory(env, w, e, dst, query, deleteSource, overwrite).world.trace;
      && (dst !in env.mkdirFails ==> |w.trace| < |t| && t[|w.trace|] == MadeDirectory(dst))
      && LooksUpOnce(w.trace, t, dst, |w.trace| + 1, overwrite)
      && (&& dst !in env.mkdirFails && e.path !in env.unreadable && e.path in env.listing
          && ApplyQuery(env.regex, env.calendar, query, env.listing[e.path]).Success?
          && !overwrite && dst !in env.lookupFails
          ==> |w.trace| + 1 < |t| && t[|w.trace| + 1] == ListedNames(dst))
  {
    if dst !in env.mkdirFails {
      var w1 := Made(env, w, dst);
      assert w1.trace[..|w.trace|] == w.trace;
      if e.path !in env.unreadable && e.path in env.listing {
        var t := CopyListing(env, w1, e, dst, env.listing[e.path], query, deleteSource, overwrite).world.trace;
        ListingLookup(env, w1, e, dst, query, deleteSource, overwrite);
        LookupAfterCall(w.trace, w1.trace, t, dst, |w.trace| + 1, overwrite);
        assert t[|w.trace|] == t[..|w1.trace|][|w.trace|];
      } else {
        assert w1.trace[|w.trace|] == MadeDirectory(dst);
      }
    }
  }

  // ----------------------------------------------- skipped destinations

  /** A call that creates, lists or uploads to something at or below `d`. */
  predicate TouchesDst(e: Event, d: Path)
  {
    match e
    case MadeDirectory(x) => AtOrBelow(x, d)
    case ListedNames(x) => AtOrBelow(x, d)
    case Uploaded(_, x) => AtOrBelow(x, d)
    case DeleteCalled(_, _) => false
    case Acquired => false
    case Released => false
  }

  function TouchOf(d: Path): Event -> bool
  {
    (e: Event) => TouchesDst(e, d)
  }

  /**
   * From `w` to `w'` nothing at or below `d` was created, listed or
   * uploaded, and the directories and files already there are as they were.
   */
  ghost predicate DstUntouched(w: World, w': World, d: Path)
  {
    && |w.trace| <= |w'.trace| && w'.trace[..|w.trace|] == w.trace
    && NoneAppended(w.trace, w'.trace, TouchOf(d))
    && (forall x :: AtOrBelow(x, d) ==> (x in w'.dirs <==> x in w.dirs))
    && (forall x :: AtOrBelow(x, d) ==> (x in w'.files <==> x in w.files))
    && (forall x :: AtOrBelow(x, d) && x in w.files ==> x in w'.files && w'.files[x] == w.files[x])
  }

  lemma DstUntouchedRefl(w: World, d: Path)
    ensures DstUntouched(w, w, d)
  {
    assert w.trace[..|w.trace|] == w.trace;
  }

  lemma DstUntouchedTrans(w: World, w': World, w'': World, d: Path)
    requires DstUntouched(w, w', d) && DstUntouched(w', w'', d)
    ensures DstUntouched(w, w'', d)
  {
    assert w''.trace[..|w.trace|] == w''.trace[..|w'.trace|][..|w.trace|];
    NoneAppendedConcat(w.trace, w'.trace, w''.trace, TouchOf(d));
  }

  /** Two children of one directory with different names have nothing below them in common. */
  lemma Apart(x: Path, parent: Path, m: string, n: string)
    requires m != n && AtOrBelow(x, Child(parent, m))
    ensures !AtOrBelow(x, Child(parent, n))
  {
    assert x[..|parent| + 1][|parent|] == Child(parent, m)[|parent|] == m;
  }

  /** Copying to the sibling `dst/m` leaves `dst/n` untouched. */
  lemma SiblingUntouched(w: World, w': World, src: Path, dst: Path, m: string, n: string)
    requires Grows(w, w', src, Child(dst, m)) && m != n
    ensures DstUntouched(w, w', Child(dst, n))
  {
    var d := Child(dst, n);
    forall k | |w.trace| <= k < |w'.trace|
      ensures !TouchesDst(w'.trace[k], d)
    {
      assert AtOrBelowBoth(w'.trace[k], src, Child(dst, m));
      match w'.trace[k]
      case MadeDirectory(x) => Apart(x, dst, m, n);
      case ListedNames(x) => Apart(x, dst, m, n);
      case Uploaded(_, x) => Apart(x, dst, m, n);
      case DeleteCalled(_, _) =>
      case Acquired =>
      case Released =>
    }
    forall x | AtOrBelow(x, d)
      ensures (x in w'.dirs <==> x in w.dirs) && (x in w'.files <==> x in w.files)
      ensures x in w.files ==> w'.files[x] == w.files[x]
    {
      if AtOrBelow(x, Child(dst, m)) {
        Apart(x, dst, m, n);
      }
    }
  }

  lemma NextUntouched(env: Env, p: Progress, parent: Path, dst: Path, c: Entry, names: set<string>,
                      query: Option<string>, deleteSource: bool, overwrite: bool, n: string)
    requires ValidFs(env) && parent in env.listing && c in env.listing[parent]
    requires !overwrite && n in names
    ensures DstUntouched(p.world, LoopNext(env, p, parent, dst, c, names, query, deleteSource, overwrite).world, Child(dst, n))
  {
    if p.error.Some? || Skips(names, overwrite, c) {
      DstUntouchedRefl(p.world, Child(dst, n));
    } else {
      NextUnfold(env, p.world, parent, dst, c, names, query, deleteSource, overwrite, p.skipped, p.transferred);
      var s := CopyNode(env, p.world, c, Child(dst, Name(c.path)), query, deleteSource, overwrite);
      SiblingUntouched(p.world, s.world, c.path, dst, Name(c.path), n);
    }
  }

  /** The loop never touches the destination `dst/n` of a name it skips. */
  lemma {:induction false} LoopUntouched(env: Env, w: World, parent: Path, dst: Path, cs: seq<Entry>, names: set<string>,
                                         query: Option<string>, deleteSource: bool, overwrite: bool, n: string)
    requires ValidFs(env) && FromListing(env, parent, cs)
    requires !overwrite && n in names
    ensures DstUntouched(w, CopyLoop(env, w, parent, dst, cs, names, query, deleteSource, overwrite).world, Child(dst, n))
    decreases |cs|
  {
    if cs == [] {
      DstUntouchedRefl(w, Child(dst, n));
    } else {
      var init := cs[..|cs| - 1];
      var p := CopyLoop(env, w, parent, dst, init, names, query, deleteSource, overwrite);
      var w' := LoopNext(env, p, parent, dst, cs[|cs| - 1], names, query, deleteSource, overwrite).world;
      LoopUntouched(env, w, parent, dst, init, names, query, deleteSource, overwrite, n);
      NextUntouched(env, p, parent, dst, cs[|cs| - 1], names, query, deleteSource, overwrite, n);
      DstUntouchedTrans(w, p.world, w', Child(dst, n));
    }
  }

  lemma FilteredUntouched(env: Env, w: World, src: Path, dst: Path, cs: seq<Entry>,
                          query: Option<string>, deleteSource: bool, overwrite: bool, n: string)
    requires ValidFs(env) && FromListing(env, src, cs)
    requires !overwrite && n in NamesAt(w, dst)
    ensures DstUntouched(w, CopyFiltered(env, w, src, dst, cs, query, deleteSource, overwrite).world, Child(dst, n))
  {
    var d := Child(dst, n);
    if dst in env.lookupFails {
      DstUntouchedRefl(w, d);
    } else {
      var w1 := Looked(w, dst);
      assert w1.trace[..|w.trace|] == w.trace;
      assert DstUntouched(w, w1, d);
      var p := CopyLoop(env, w1, src, dst, cs, NamesAt(w, dst), query, deleteSource, overwrite);
      LoopUntouched(env, w1, src, dst, cs, NamesAt(w, dst), query, deleteSource, overwrite, n);
      ConcludeOnlyDeletes(env, p, src, dst, deleteSource, d);
      DstUntouchedTrans(w, w1, p.world, d);
      DstUntouchedTrans(w, p.world, Conclude(env, p, src, dst, deleteSource).world, d);
    }
  }

  lemma ListingUntouched(env: Env, w: World, e: Entry, dst: Path, query: Option<string>,
                         deleteSource: bool, overwrite: bool, n: string)
    requires ValidFs(env) && e.path in env.listing
    requires !overwrite && n in NamesAt(w, dst)
    ensures DstUntouched(w, CopyListing(env, w, e, dst, env.listing[e.path], query, deleteSource, overwrite).world, Child(dst, n))
  {
    var filtered := ApplyQuery(env.regex, env.calendar, query, env.listing[e.path]);
    if filtered.Success? {
      FilteredUntouched(env, w, e.path, dst, filtered.value, query, deleteSource, overwrite, n);
    } else {
      DstUntouchedRefl(w, Child(dst, n));
    }
  }

  /**
   * When not overwriting, a directory node leaves alone every name already
   * at its destination: whatever its source child is, file or directory,
   * nothing at or below `dst/n` is created, listed or uploaded to, and what
   * was there stays as it was.
   */
  lemma ExistingNamesUntouched(env: Env, w: World, e: Entry, dst: Path, query: Option<string>,
                               deleteSource: bool, overwrite: bool, n: string)
    requires ValidFs(env) && e.isDir && !overwrite && n in NamesAt(w, dst)
    ensures DstUntouched(w, CopyNode(env, w, e, dst, query, deleteSource, overwrite).world, Child(dst, n))
  {
    var d := Child(dst, n);
    if dst in env.mkdirFails {
      DstUntouchedRefl(w, d);
    } else {
      var w1 := Made(env, w, dst);
      assert w1.trace[..|w.trace|] == w.trace;
      assert DstUntouched(w, w1, d);
      if e.path in env.unreadable || e.path !in env.listing {
      } else {
        var q :| q in w.dirs + w.files.Keys && |q| == |dst| + 1 && q[..|dst|] == dst && Name(q) == n;
        assert q in w1.dirs + w1.files.Keys;
        ListingUntouched(env, w1, e, dst, query, deleteSource, overwrite, n);
        DstUntouchedTrans(w, w1, CopyListing(env, w1, e, dst, env.listing[e.path], query, deleteSource, overwrite).world, d);
      }
    }
  }

  // ------------------------------------------------------------ the session

  /**
   * Past the status lookup and the acquisition, the entry points run the
   * body between one `Acquired` and one `Released` (the body itself makes no
   * session call); without a failed release they return the body's result,
   * false when the body threw.
   */
  lemma SessionAroundBody(env: Env, w: World, src: Path, dst: Path, query: Option<string>, deleteSource: bool, overwrite: bool)
    requires ValidFs(env) && src in env.status && !env.acquireFails
    ensures var w0 := w.(trace := w.trace + [Acquired]);
      var s := CopyNode(env, w0, env.status[src], dst, query, deleteSource, overwrite);
      var r := TopCopy(env, w, src, dst, query, deleteSource, overwrite);
      && r.world.trace == s.world.trace + [Released]
      && s.world.trace[..|w0.trace|] == w0.trace
      && NoneAppended(w0.trace, s.world.trace, IsSession)
      && (!env.releaseFails ==> r.outcome == Done(s.outcome.Returned? && s.outcome.value))
      && (!env.releaseFails && s.outcome.Threw? ==> r.outcome == Done(false))
  {
  }

  // ------------------------------------------- when the query is checked, what is deleted

  /**
   * A query that the filter rejects is only discovered once the directory
   * has been created and listed: the node throws after `makeDirectory(dst)`.
   */
  lemma BadQueryAfterMkdir(env: Env, w: World, e: Entry, dst: Path, query: Option<string>, deleteSource: bool, overwrite: bool)
    requires ValidFs(env) && e.isDir && dst !in env.mkdirFails
    requires e.path !in env.unreadable && e.path in env.listing
    requires ApplyQuery(env.regex, env.calendar, query, env.listing[e.path]).Failure?
    ensures CopyNode(env, w, e, dst, query, deleteSource, overwrite)
         == Step(Threw(ApplyQuery(env.regex, env.calendar, query, env.listing[e.path]).error), Made(env, w, dst))
  {
    var listed := env.listing[e.path];
    var w1 := Made(env, w, dst);
    assert CopyNode(env, w, e, dst, query, deleteSource, overwrite) == CopyDirectory(env, w, e, dst, query, deleteSource, overwrite);
    assert CopyDirectory(env, w, e, dst, query, deleteSource, overwrite) == CopyListing(env, w1, e, dst, listed, query, deleteSource, overwrite);
  }

  /**
   * A refused `makeDirectory(dst)` is not noticed: the node goes on to list
   * its source and copy the children below `dst` exactly as if the directory
   * had been made, though no directory was created.
   */
  lemma RefusedMkdirCarriesOn(env: Env, w: World, e: Entry, dst: Path, query: Option<string>, deleteSource: bool, overwrite: bool)
    requires ValidFs(env) && e.isDir && dst !in env.mkdirFails && dst in env.mkdirRefused
    requires e.path !in env.unreadable && e.path in env.listing
    ensures Made(env, w, dst) == w.(trace := w.trace + [MadeDirectory(dst)])
    ensures CopyNode(env, w, e, dst, query, deleteSource, overwrite)
         == CopyListing(env, w.(trace := w.trace + [MadeDirectory(dst)]), e, dst, env.listing[e.path], query, deleteSource, overwrite)
  {
    assert CopyNode(env, w, e, dst, query, deleteSource, overwrite) == CopyDirectory(env, w, e, dst, query, deleteSource, overwrite);
  }

  /**
   * The recursive delete takes the whole source directory, filtered-out
   * children included: a deleting node whose filter keeps no child copies
   * nothing below `dst` and still deletes its source and reports success.
   */
  lemma FilteredOutChildrenDeleted(env: Env, w: World, e: Entry, dst: Path, query: Option<string>, overwrite: bool)
    requires ValidFs(env) && e.isDir && dst !in env.mkdirFails
    requires e.path !in env.unreadable && e.path in env.listing
    requires ApplyQuery(env.regex, env.calendar, query, env.listing[e.path]) == Success([])
    requires overwrite || dst !in env.lookupFails
    requires e.path !in env.deleteFails && e.path !in env.deleteRefused
    ensures var s := CopyNode(env, w, e, dst, query, true, overwrite);
      && s.outcome == Returned(true)
      && s.world.dirs == w.dirs + (if dst in env.mkdirRefused then {} else {dst})
      && s.world.files == w.files
      && s.world.deleted == w.deleted + {e.path}
  {
    var listed := env.listing[e.path];
    var w1 := Made(env, w, dst);
    var w2 := if overwrite then w1 else Looked(w1, dst);
    var p := CopyLoop(env, w2, e.path, dst, [], if overwrite then {} else NamesAt(w1, dst), query, true, overwrite);
    assert p == Progress(None, w2, 0, 0);
    assert w2.dirs == w.dirs + (if dst in env.mkdirRefused then {} else {dst}) && w2.files == w.files && w2.deleted == w.deleted;
    assert Conclude(env, p, e.path, dst, true) == Step(Returned(true), Removed(w2, e.path, true));
    assert CopyFiltered(env, w1, e.path, dst, [], query, true, overwrite) == Conclude(env, p, e.path, dst, true);
    assert CopyListing(env, w1, e, dst, listed, query, true, overwrite) == CopyFiltered(env, w1, e.path, dst, [], query, true, overwrite);
    assert CopyNode(env, w, e, dst, query, true, overwrite) == CopyDirectory(env, w, e, dst, query, true, overwrite);
    assert CopyDirectory(env, w, e, dst, query, true, overwrite) == CopyListing(env, w1, e, dst, listed, query, true, overwrite);
  }
}
