# HDFS-to-FTP tree copier, modelled in Dafny

This project models `FileUtils`, the part of the hdfs-to-ftp tool that copies
a source tree on a Hadoop filesystem to an FTP server. It covers:

- **`copy(srcFS, src, dst, …)` and `copyAndRemove`.** They look the source up,
  take an FTP session, run the recursive copy inside it, turn any exception of
  the copy into `false`, and release the session on every path after it was
  acquired.
- **The recursive `copy(srcFS, status, dst, …)`.**
  - For a directory node: make the destination directory, list the children,
    filter them when a query is given, look up the names already at the
    destination unless overwriting, and copy every child that is not skipped.
  - For a file node: upload the file.
  - Either kind of node then deletes its source when asked to.
- **The two listing filters.** `getFilterContents` is a regular expression on
  file names; `getNewContents` is a modification-time window.
- **`parseTimeRange`.** It turns a day, hour or second query into that window.
- **`quicksort` and `partition`.** An in-place sort of a listing by access time.

The source filesystem, the FTP server, the regular-expression engine and the
calendar are collaborators. Their behaviour is a parameter of the model:

- `TreeCopy.Env` gives the answers and the fault sets: where an operation
  throws, and where `makeDirectory` or `delete` refuses.
- The model assumes that `listStatus` returns only direct children of the
  listed directory (`TreeCopy.ValidFs`). Every copy function and method
  requires this. It is what makes the recursion end on a finite tree.
- `TreeCopyFacts.CopiedTargetsExist` also assumes that a listing reports each
  path once (`TreeCopy.OnePerPath`), so two children never share a
  destination.
- `ContentFilter.Regex` and `TimeRange.Calendar` stand for the pattern engine
  and the date parser.

The destination is a `TreeCopy.World`. It holds the server's directories and
files, the source paths that were deleted, and the trace of calls in order.

Modules:

- `Entries`: paths and `FileStatus` entries.
- `Selection`: order-preserving filtering.
- `TimeRange`: `String.trim` and `parseTimeRange`.
- `ContentFilter`: the two filters and the choice between them.
- `AccessTimeSort`: `partition` and `quicksort` on an `array`.
- `TreeCopy`: the recursive copy and the entry points, as functions.
- `TreeCopyFacts` and `TreeCopyOrder`: what those functions guarantee.
- `FtpCopier`: the imperative copier. Its class `Copier` holds the world as
  fields, and its loop over the children is a `while` loop. Its collaborator
  calls are stubs that read `Env`. Each of its other methods is proved equal
  to the corresponding `TreeCopy` function.

Some behaviours of the code are easy to miss when reading it; the model keeps
each of them and a lemma states it:

- **The time window's lower bound is strict.** An entry modified exactly at
  the begin of the window is dropped; only entries modified strictly after it
  are kept (`ContentFilter.BeginIsExclusive`).
- **A bad query surfaces late.** A query that fails to parse or compile makes
  the directory node throw only after `makeDirectory` and `listStatus` have
  run (`TreeCopyOrder.BadQueryAfterMkdir`).
- **Deletion removes filtered-out children too.** The recursive
  `delete(src, true)` of a directory also removes children the filter dropped,
  which were never copied (`TreeCopyOrder.FilteredOutChildrenDeleted`).
- **Children's results are ignored.** A directory node ignores the boolean each
  child's `copy` returns. A child whose deletion was refused is still counted
  as transferred (`TreeCopyFacts.NextUnfold`, `TreeCopyFacts.LoopCounts`).
- **A refused `makeDirectory` goes unnoticed.** Its false result is discarded,
  so the node goes on to list its source and copy the children below a
  directory that was not created (`TreeCopyOrder.RefusedMkdirCarriesOn`).

## Model

| member | source | states |
|---|---|---|
| Selection.Select | src/main/java/org/apache/hadoop/contrib/ftp/FileUtils.java:180-190 | the filtered list is never longer than the listing |
| Selection.SelectMembers | src/main/java/org/apache/hadoop/contrib/ftp/FileUtils.java:180-190 | a value is in the filtered list exactly when it is in the listing and passes the test |
| Selection.SelectIndexed | src/main/java/org/apache/hadoop/contrib/ftp/FileUtils.java:199-212 | every kept entry comes from the listing and passes the test, and a listing entry is kept exactly when it passes |
| Selection.SelectSnoc | src/main/java/org/apache/hadoop/contrib/ftp/FileUtils.java:200-211 | looking at one more listing entry appends it to the list exactly when it passes the test, and otherwise leaves the list as it was |
| Selection.SelectAppend | src/main/java/org/apache/hadoop/contrib/ftp/FileUtils.java:199-212 | filtering a concatenation is the concatenation of the filtered parts, so kept entries keep their listing order |
| Selection.SelectAll | src/main/java/org/apache/hadoop/contrib/ftp/FileUtils.java:199-212 | a listing whose every entry passes the test comes back unchanged |
| Selection.SelectCount | src/main/java/org/apache/hadoop/contrib/ftp/FileUtils.java:180-190 | the filter only drops entries: the result's multiset is contained in the listing's, and together with what the opposite test keeps it makes up the listing's multiset, so the two lengths add up to the listing's length |
| TimeRange.TrimStart | src/main/java/org/apache/hadoop/contrib/ftp/FileUtils.java:221 | the result is a suffix of the input that starts with a character above U+0020, and everything dropped is at or below U+0020 |
| TimeRange.TrimEnd | src/main/java/org/apache/hadoop/contrib/ftp/FileUtils.java:221 | the result is a prefix of the input that ends with a character above U+0020, and everything dropped is at or below U+0020 |
| TimeRange.TrimOffset | src/main/java/org/apache/hadoop/contrib/ftp/FileUtils.java:221 | the start of the trimmed string lies within the input |
| TimeRange.Trim | src/main/java/org/apache/hadoop/contrib/ftp/FileUtils.java:221 | `String.trim` returns the slice of the input between the leading and trailing characters at or below U+0020, and drops only such characters |
| TimeRange.TrimSlices | src/main/java/org/apache/hadoop/contrib/ftp/FileUtils.java:221 | trimming the back of the front-trimmed string yields a slice of the original whose tail is all trimmed characters |
| TimeRange.ParseTimeRange | src/main/java/org/apache/hadoop/contrib/ftp/FileUtils.java:220-249 | the format is chosen by the trimmed length alone: 8 gives day precision with an end one calendar day later, 10 gives hour precision with an end one hour later, 15 gives second precision with no end; the untrimmed query is parsed, a parse failure is `ParseException`, and any other length is the illegal-argument error |
| TimeRange.OpenEndedOnlyForSeconds | src/main/java/org/apache/hadoop/contrib/ftp/FileUtils.java:226-247 | a parsed window has no end exactly when the trimmed query is one longer than the second format |
| TimeRange.BlanksDoNotChangeDispatch | src/main/java/org/apache/hadoop/contrib/ftp/FileUtils.java:221-245 | adding one space on each side of a query whose first and last characters are not blanks does not change its trimmed length, so it does not change whether the illegal-argument error is raised |
| TimeRange.ShortQueryRejected | src/main/java/org/apache/hadoop/contrib/ftp/FileUtils.java:243-244 | a query of another length ("abc") raises the illegal-argument error without being parsed |
| ContentFilter.FilterContents | src/main/java/org/apache/hadoop/contrib/ftp/FileUtils.java:177-191 | it fails exactly when the query is too short for `substring(1, length-1)` or the inner pattern does not compile; on success it keeps exactly the non-directory entries whose name the whole pattern matches, and only listing entries |
| ContentFilter.GetFilterContents | src/main/java/org/apache/hadoop/contrib/ftp/FileUtils.java:177-191 | the loop over the listing returns what `FilterContents` specifies, error cases included |
| ContentFilter.GetNewContents | src/main/java/org/apache/hadoop/contrib/ftp/FileUtils.java:198-213 | the loop returns the order-preserving selection of the window test; a listing entry is in the result iff it was modified strictly after the begin and, when there is an end, strictly before it; nothing else is added |
| ContentFilter.ApplyQuery | src/main/java/org/apache/hadoop/contrib/ftp/FileUtils.java:104-116 | no query leaves the listing as it is; a query starting with `[` goes to the name filter; any other query is parsed into a window, which then filters the listing, and a parse error is passed on; every kept entry comes from the listing |
| ContentFilter.FilterListing | src/main/java/org/apache/hadoop/contrib/ftp/FileUtils.java:104-116 | the branch of `copy` that filters the listing returns what `ApplyQuery` specifies |
| ContentFilter.BeginIsExclusive | src/main/java/org/apache/hadoop/contrib/ftp/FileUtils.java:202-210 | an entry modified exactly at the begin of the window is dropped; one modified a millisecond later is kept when the window allows it |
| ContentFilter.DirectoryAsymmetry | src/main/java/org/apache/hadoop/contrib/ftp/FileUtils.java:182-210 | the time filter ignores the directory flag, while the name filter drops every directory |
| ContentFilter.DayQuerySelects | src/main/java/org/apache/hadoop/contrib/ftp/FileUtils.java:226-231 | a day query keeps exactly the entries modified strictly between the parsed day and one calendar day later |
| ContentFilter.HourQuerySelects | src/main/java/org/apache/hadoop/contrib/ftp/FileUtils.java:232-237 | an hour query keeps exactly the entries modified strictly inside the parsed hour |
| ContentFilter.SecondQueryIsOpenEnded | src/main/java/org/apache/hadoop/contrib/ftp/FileUtils.java:239-242 | a second-precision query keeps exactly the entries modified after the instant, without any upper bound |
| ContentFilter.RegexKeepsOnlyMatchingFile | src/main/java/org/apache/hadoop/contrib/ftp/FileUtils.java:177-191 | for a listing of `a.log`, `a.txt` and a directory, under a pattern that matches only `a.log`, the name filter keeps `a.log` alone |
| AccessTimeSort.FillFromRight | src/main/java/org/apache/hadoop/contrib/ftp/FileUtils.java:275-278 | `right` moves down past entries accessed no earlier than the pivot, then that entry fills the hole at `left`; the bounds on both sides are kept, the hole moves, and the multiset with the pivot in the hole is unchanged |
| AccessTimeSort.FillFromLeft | src/main/java/org/apache/hadoop/contrib/ftp/FileUtils.java:279-282 | the mirror image: `left` moves up past entries accessed no later than the pivot, then that entry fills the hole at `right` |
| AccessTimeSort.PlacePivot | src/main/java/org/apache/hadoop/contrib/ftp/FileUtils.java:284 | writing the pivot into the final hole keeps both bounds and leaves positions outside the range alone |
| AccessTimeSort.Partition | src/main/java/org/apache/hadoop/contrib/ftp/FileUtils.java:272-286 | the old `content[left]` ends at the returned index; nothing before it in the range is accessed later and nothing after it earlier; the array is a permutation of the old one that differs only inside the range; an empty range returns `left` |
| AccessTimeSort.QuicksortStep | src/main/java/org/apache/hadoop/contrib/ftp/FileUtils.java:257-261 | a partition followed by sorting both sides sorts the whole range and stays a permutation that touches nothing outside it |
| AccessTimeSort.Quicksort | src/main/java/org/apache/hadoop/contrib/ftp/FileUtils.java:255-263 | it returns the same array, sorted by access time from `left` to `right` inclusive, as a permutation of its old contents that rearranges nothing outside the range |
| TreeCopy.Finish | src/main/java/org/apache/hadoop/contrib/ftp/FileUtils.java:163-167 | without deletion the node returns true; with deletion it returns what `delete(src, true)` returns, with that call appended and the source recorded as deleted when the call removed it, or passes on the delete's exception |
| TreeCopy.CopyNode | src/main/java/org/apache/hadoop/contrib/ftp/FileUtils.java:94-169 | it only appends calls on paths at or below the node's source and destination; it only adds directories, files and deletions, and none outside them; a file node that returns has uploaded its own source to its destination (`files[dst]` is the node's path); a directory node that returns has its destination directory unless the server refused `makeDirectory` there and it did not exist before |
| TreeCopy.CopyFile | src/main/java/org/apache/hadoop/contrib/ftp/FileUtils.java:152-162 | the same growth bound; a file node that returns has uploaded its source to its destination: `files[dst]` is the node's path |
| TreeCopy.CopyDirectory | src/main/java/org/apache/hadoop/contrib/ftp/FileUtils.java:98-101 | the same growth bound; a directory node that returns has its destination directory when it existed before or the server did not refuse `makeDirectory` (that a refusal creates nothing and goes unnoticed is `TreeCopyOrder.RefusedMkdirCarriesOn`) |
| TreeCopy.CopyListing | src/main/java/org/apache/hadoop/contrib/ftp/FileUtils.java:104-116 | the same growth bound; a destination directory that was there stays there |
| TreeCopy.CopyFiltered | src/main/java/org/apache/hadoop/contrib/ftp/FileUtils.java:118-139 | the lookup, the loop and the deletion together grow the world only at or below the node |
| TreeCopy.Conclude | src/main/java/org/apache/hadoop/contrib/ftp/FileUtils.java:128-167 | an exception from the loop is the node's exception, with nothing further done; the growth bound holds |
| TreeCopy.CopyLoop | src/main/java/org/apache/hadoop/contrib/ftp/FileUtils.java:128-139 | the loop over the children grows the world only at or below the directory and its destination |
| TreeCopy.LoopNext | src/main/java/org/apache/hadoop/contrib/ftp/FileUtils.java:129-135 | one turn of the loop grows the world only at or below the directory and its destination |
| TreeCopy.TopCopy | src/main/java/org/apache/hadoop/contrib/ftp/FileUtils.java:36-53 | a missing source raises before anything happens, and so does a failed acquisition; otherwise the first call is the acquisition and the last is the release, and the call raises exactly when the release fails, with the disconnect failure |
| TreeCopyFacts.NextUnfold | src/main/java/org/apache/hadoop/contrib/ftp/FileUtils.java:129-135 | a turn that starts without an error counts a skipped child, or copies the child to `new Path(dst, name)` and passes on its exception or counts it as transferred |
| TreeCopyFacts.SameName | src/main/java/org/apache/hadoop/contrib/ftp/FileUtils.java:101 | two entries of one listing with the same name are the same entry, so two children never share a destination |
| TreeCopyFacts.ErrorStops | src/main/java/org/apache/hadoop/contrib/ftp/FileUtils.java:128-139 | once a child throws, the remaining children change nothing |
| TreeCopyFacts.LoopCounts | src/main/java/org/apache/hadoop/contrib/ftp/FileUtils.java:126-135 | a loop that completes counts every child once, as skipped or as transferred; the skip count equals the number of children whose name is in the looked-up set of names; none are skipped when overwriting |
| TreeCopyFacts.LoopStaysBelow | src/main/java/org/apache/hadoop/contrib/ftp/FileUtils.java:128-139 | every call a loop makes is on a path deeper than the directory's destination (than the directory, for a deletion) |
| TreeCopyFacts.CopiedTargetsExist | src/main/java/org/apache/hadoop/contrib/ftp/FileUtils.java:128-139 | after a loop that completes, every child that was not skipped is at `dst/name`: a file child as the upload of that child, whatever was at `dst/name` before; a directory child as a directory unless the server refused `makeDirectory` at `dst/name` |
| TreeCopyFacts.NodeFlags | src/main/java/org/apache/hadoop/contrib/ftp/FileUtils.java:121-167 | when overwriting, no node below looks up destination names; when not deleting, no node below calls `delete` or removes anything, and a node that returns returns true |
| TreeCopyOrder.DeletionComesLast | src/main/java/org/apache/hadoop/contrib/ftp/FileUtils.java:94-169 | a node that returns reports true unless its requested deletion was refused, and that deletion is its last call and the only deletion of its source; a node that throws never deletes its source |
| TreeCopyOrder.DirectoryCallOrder | src/main/java/org/apache/hadoop/contrib/ftp/FileUtils.java:98-125 | `makeDirectory(dst)` is a directory node's first call, and if it fails the node throws having done nothing; when the listing and the filter succeed and the node does not overwrite, the lookup of `dst`'s names is the call right after `makeDirectory`; when overwriting there is none; no later call, the children's included, looks `dst` up again |
| TreeCopyOrder.ExistingNamesUntouched | src/main/java/org/apache/hadoop/contrib/ftp/FileUtils.java:128-133 | when not overwriting, nothing at or below a name already at the destination is created, looked up or uploaded to, and what was there is unchanged |
| TreeCopyOrder.LoopUntouched | src/main/java/org/apache/hadoop/contrib/ftp/FileUtils.java:128-133 | the loop's form of the same guarantee for a skipped name |
| TreeCopyOrder.SessionAroundBody | src/main/java/org/apache/hadoop/contrib/ftp/FileUtils.java:39-52 | the body runs between one acquisition and one release and makes no session call itself; without a failed release, the result is the body's result, and false when the body threw |
| TreeCopyOrder.BadQueryAfterMkdir | src/main/java/org/apache/hadoop/contrib/ftp/FileUtils.java:100-112 | a query the filter rejects makes the node throw only after `makeDirectory(dst)` has taken effect |
| TreeCopyOrder.RefusedMkdirCarriesOn | src/main/java/org/apache/hadoop/contrib/ftp/FileUtils.java:100-101 | a refused `makeDirectory(dst)` only records the call and creates nothing, and the node then carries on with the listing exactly as after a successful one |
| TreeCopyOrder.FilteredOutChildrenDeleted | src/main/java/org/apache/hadoop/contrib/ftp/FileUtils.java:101-164 | a deleting node whose filter keeps no child copies nothing below its destination, yet deletes its whole source and returns true |
| FtpCopier.Copier.GetFileStatus | src/main/java/org/apache/hadoop/contrib/ftp/FileUtils.java:37 | collaborator stub: returns the source's status from `Env`, or the `IOException` for a missing path |
| FtpCopier.Copier.ListStatus | src/main/java/org/apache/hadoop/contrib/ftp/FileUtils.java:101 | collaborator stub: returns the directory's listing from `Env`, or the `IOException` for an unreadable or unlisted directory |
| FtpCopier.Copier.AcquireClient | src/main/java/org/apache/hadoop/contrib/ftp/FileUtils.java:39 | collaborator stub: records the acquisition, or raises the session failure with nothing changed |
| FtpCopier.Copier.ReleaseClient | src/main/java/org/apache/hadoop/contrib/ftp/FileUtils.java:47 | collaborator stub: records the release whether or not it raises the disconnect failure |
| FtpCopier.Copier.MakeDirectory | src/main/java/org/apache/hadoop/contrib/ftp/FileUtils.java:100 | collaborator stub: raises on a failing path with nothing changed; otherwise records the call and creates the directory unless the server refuses |
| FtpCopier.Copier.FileNameMap | src/main/java/org/apache/hadoop/contrib/ftp/FileUtils.java:123 | collaborator stub: returns the names directly inside the directory and records the lookup, or raises with nothing changed |
| FtpCopier.Copier.Upload | src/main/java/org/apache/hadoop/contrib/ftp/FileUtils.java:155-156 | collaborator stub: raises for an unreadable source or a failing upload with nothing changed; otherwise stores the file and records the upload |
| FtpCopier.Copier.Delete | src/main/java/org/apache/hadoop/contrib/ftp/FileUtils.java:164 | collaborator stub: raises with nothing changed, or returns whether the source was removed and records the call |
| FtpCopier.Copier.FinishNode | src/main/java/org/apache/hadoop/contrib/ftp/FileUtils.java:163-167 | the deletion step leaves the outcome and state that `TreeCopy.Finish` specifies |
| FtpCopier.Copier.CopyEntry | src/main/java/org/apache/hadoop/contrib/ftp/FileUtils.java:94-169 | the recursive `copy` leaves the outcome and state that `TreeCopy.CopyNode` specifies |
| FtpCopier.Copier.CopyChildren | src/main/java/org/apache/hadoop/contrib/ftp/FileUtils.java:104-167 | the directory node after the listing leaves what `TreeCopy.CopyListing` specifies |
| FtpCopier.Copier.CopyEach | src/main/java/org/apache/hadoop/contrib/ftp/FileUtils.java:126-139 | the `for` loop over the children, as a `while` loop, leaves the error, state and both counters that `TreeCopy.CopyLoop` specifies |
| FtpCopier.Copier.Turn | src/main/java/org/apache/hadoop/contrib/ftp/FileUtils.java:128-139 | one iteration extends the loop's prefix by one child; when it throws, the prefix is the whole loop's result |
| FtpCopier.Copier.VisitChild | src/main/java/org/apache/hadoop/contrib/ftp/FileUtils.java:129-135 | the skip test, or the child's copy and the counter, as `TreeCopy.LoopNext` specifies |
| FtpCopier.Copier.Copy | src/main/java/org/apache/hadoop/contrib/ftp/FileUtils.java:36-53 | the entry point leaves the result or exception and the state that `TreeCopy.TopCopy` specifies |
| FtpCopier.Copier.CopyAndRemove | src/main/java/org/apache/hadoop/contrib/ftp/FileUtils.java:69-87 | the second entry point is the same: what `TreeCopy.TopCopy` specifies |

## Left out

- Logging is not modelled, and neither are the timing calls around the filters and the lookup, the `% 50` progress message or the `printStackTrace`. None of them changes a result.
- The input stream's `open` is folded into the upload: an unreadable file raises an `IOException` before anything is uploaded. The stream itself is not modelled. So the model does not show that the code closes it only when the upload throws, never after a successful upload.
- The `conf` argument is not modelled; it is passed along and never read. The `ftpClient` argument is modelled only as the acquire and release calls; the server is `FtpClientUtil`'s state, kept in `World`.
- The regular-expression engine, `SimpleDateFormat`, `DateUtils` and the FTP client are parameters (`Regex`, `Calendar`, `Env`). Their own behaviour is not modelled, and neither are the contents of `ConfigUtils` beyond the three format lengths, which are taken as 8, 10 and 14.
- Collaborator failures, and the refusals of `makeDirectory` and `delete`, are given per path as fault sets, so a call on the same path fails or succeeds the same way every time. Timeouts and partial uploads are not modelled.
- `delete(src, true)` on a directory is recorded as the deletion of that path. The model does not record the removal of each file below it.
- The counters `skiped` and `transfered` are unbounded naturals: 32-bit `int` overflow, past two billion children, is not modelled.
- Concurrency and several sessions at once are not modelled. The session is one global client that is acquired and released.
- `quicksort` is modelled and proved on its own: `copy` never calls it.
- `AccessTimeSort.Quicksort`: requires `0 <= left` and `right < n.Length` whenever `left < right`. A Java call outside those bounds throws `ArrayIndexOutOfBoundsException`, and that exception is not modelled.
- `AccessTimeSort.Partition`: requires `left` to be a valid index and `right` below the length. The Java code would throw `ArrayIndexOutOfBoundsException` outside those bounds, and that exception is not modelled.
- Runtime errors of the collaborators beyond the modelled faults are not modelled. Every modelled exception of the body is turned into `false`, as the entry points' catch-all handler does.
- A `null` query is modelled as `None`. A `null` name map returned by `getFileNameMap` is not modelled.
- `TimeRange.ParseTimeRange`: lengths are counted in characters, while Java's `length()` counts UTF-16 code units. A query with a character outside the Basic Multilingual Plane may take another branch in Java. The model assumes queries of BMP characters only.
- `ContentFilter.FilterContents`: `substring(1, length-1)` is taken in characters, not UTF-16 code units. For a query whose last character lies outside the Basic Multilingual Plane, Java's pattern and its too-short check differ from the model's. The model assumes BMP characters only.
- The server's refusal of `makeDirectory` is modelled only as "nothing created". What the server then does with uploads below a directory that does not exist is up to `Env`'s `uploadFails` set.
