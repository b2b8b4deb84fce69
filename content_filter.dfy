/**
 * The two listing filters of the copier and the choice between them:
 * `getFilterContents` (regular expression on file names, directories dropped),
 * `getNewContents` (modification-time window, directories treated like files)
 * and the branch of `copy` that picks one by the first character of the query.
 */
module ContentFilter {
  import opened Entries
  import opened Selection
  import opened TimeRange

  /**
   * The regular-expression engine: `compiles(p)` says `Pattern.compile(p)` does
   * not throw, `fullMatch(p, name)` is `pattern.matcher(name).matches()`.
   */
  datatype Regex = Regex(compiles: string -> bool, fullMatch: (string, string) -> bool)

  /** The test `getNewContents` applies: strictly after the begin, strictly before an end if there is one. */
  predicate InWindow(w: TimeWindow, e: Entry)
  {
    w.begin < e.modificationTime && (w.end.None? || e.modificationTime < w.end.value)
  }

  function WindowTest(w: TimeWindow): Entry -> bool
  {
    e => InWindow(w, e)
  }

  /** The test `getFilterContents` applies: a file whose name the whole pattern matches. */
  predicate NameMatches(rx: Regex, pattern: string, e: Entry)
  {
    !e.isDir && rx.fullMatch(pattern, Name(e.path))
  }

  function RegexTest(rx: Regex, pattern: string): Entry -> bool
  {
    e => NameMatches(rx, pattern, e)
  }

  /** The pattern of a bracketed query: everything between its first and its last character. */
  function PatternOf(query: string): string
    requires |query| >= 2
  {
    query[1..|query| - 1]
  }

  /** What `getFilterContents` returns or throws. */
  function FilterContents(rx: Regex, query: string, contents: seq<Entry>): (r: Result<seq<Entry>, Error>)
    ensures r.Failure? <==> |query| < 2 || !rx.compiles(PatternOf(query))
    ensures r.Failure? ==> r.error == (if |query| < 2 then IndexOutOfBounds(query) else PatternSyntax(PatternOf(query)))
    ensures r.Success? ==> forall k :: 0 <= k < |r.value| ==> !r.value[k].isDir && r.value[k] in contents
    ensures r.Success? ==> forall k :: 0 <= k < |contents| ==>
      (contents[k] in r.value <==> NameMatches(rx, PatternOf(query), contents[k]))
  {
    if |query| < 2 then Failure(IndexOutOfBounds(query))
    else if !rx.compiles(PatternOf(query)) then Failure(PatternSyntax(PatternOf(query)))
    else
      SelectIndexed(contents, RegexTest(rx, PatternOf(query)));
      Success(Select(contents, RegexTest(rx, PatternOf(query))))
  }

  /** `getFilterContents`: the substring and the compilation first, then one pass over the listing. */
  method GetFilterContents(rx: Regex, query: string, contents: seq<Entry>) returns (r: Result<seq<Entry>, Error>)
    ensures r == FilterContents(rx, query, contents)
  {
    if |query| < 2 {
      return Failure(IndexOutOfBounds(query));
    }
    var reg := query[1..|query| - 1];
    if !rx.compiles(reg) {
      return Failure(PatternSyntax(reg));
    }
    var statusList: seq<Entry> := [];
    var i := 0;
    while i < |contents|
      invariant 0 <= i <= |contents|
      invariant statusList == Select(contents[..i], RegexTest(rx, reg))
    {
      SelectSnoc(contents, i, RegexTest(rx, reg));
      var status := contents[i];
      if !status.isDir {
        if rx.fullMatch(reg, Name(status.path)) {
          statusList := statusList + [status];
        }
      }
      i := i + 1;
    }
    assert contents[..|contents|] == contents;
    r := Success(statusList);
  }

  /** `getNewContents`: one pass over the listing, keeping the entries inside the window. */
  method GetNewContents(timeRange: TimeWindow, fileStatus: seq<Entry>) returns (r: seq<Entry>)
    ensures r == Select(fileStatus, WindowTest(timeRange))
    ensures forall k :: 0 <= k < |fileStatus| ==> (fileStatus[k] in r <==> InWindow(timeRange, fileStatus[k]))
    ensures forall k :: 0 <= k < |r| ==> r[k] in fileStatus
  {
    var statusList: seq<Entry> := [];
    var i := 0;
    while i < |fileStatus|
      invariant 0 <= i <= |fileStatus|
      invariant statusList == Select(fileStatus[..i], WindowTest(timeRange))
    {
      SelectSnoc(fileStatus, i, WindowTest(timeRange));
      var modificationTime := fileStatus[i].modificationTime;
      var inside: bool;
      if timeRange.end.Some? {
        inside := timeRange.begin < modificationTime && modificationTime < timeRange.end.value;
      } else {
        inside := timeRange.begin < modificationTime;
      }
      assert inside == WindowTest(timeRange)(fileStatus[i]);
      if inside {
        statusList := statusList + [fileStatus[i]];
      }
      i := i + 1;
    }
    assert fileStatus[..|fileStatus|] == fileStatus;
    r := statusList;
    SelectIndexed(fileStatus, WindowTest(timeRange));
  }

  /** A query opens with a bracket (`startsWith("[")`). */
  predicate Bracketed(query: string)
  {
    |query| > 0 && query[0] == '['
  }

  /**
   * The listing `copy` goes on with: unfiltered without a query, filtered by
   * name for a bracketed query, otherwise filtered by the query's time window.
   */
  function ApplyQuery(rx: Regex, cal: Calendar, query: Option<string>, listed: seq<Entry>): (r: Result<seq<Entry>, Error>)
    ensures query.None? ==> r == Success(listed)
    ensures query.Some? && Bracketed(query.value) ==> r == FilterContents(rx, query.value, listed)
    ensures query.Some? && !Bracketed(query.value) && ParseTimeRange(cal, query.value).Failure? ==>
      r == Failure(ParseTimeRange(cal, query.value).error)
    ensures query.Some? && !Bracketed(query.value) && ParseTimeRange(cal, query.value).Success? ==>
      r == Success(Select(listed, WindowTest(ParseTimeRange(cal, query.value).value)))
    ensures r.Success? ==> forall k :: 0 <= k < |r.value| ==> r.value[k] in listed
  {
    match query
    case None => Success(listed)
    case Some(q) =>
      if Bracketed(q) then FilterContents(rx, q, listed)
      else
        match ParseTimeRange(cal, q)
        case Failure(err) => Failure(err)
        case Success(w) => SelectIndexed(listed, WindowTest(w)); Success(Select(listed, WindowTest(w)))
  }

  /** The branch of `copy` that filters a listing (only when a query is given). */
  method FilterListing(rx: Regex, cal: Calendar, queryStr: Option<string>, contents: seq<Entry>)
    returns (r: Result<seq<Entry>, Error>)
    ensures r == ApplyQuery(rx, cal, queryStr, contents)
  {
    if queryStr.None? {
      return Success(contents);
    }
    var q := queryStr.value;
    if Bracketed(q) {
      r := GetFilterContents(rx, q, contents);
    } else {
      var timeRange := ParseTimeRange(cal, q);
      if timeRange.Failure? {
        return Failure(timeRange.error);
      }
      var kept := GetNewContents(timeRange.value, contents);
      r := Success(kept);
    }
  }

  /** An entry modified exactly at the begin of the window is dropped; one just after it is kept (if before the end). */
  lemma BeginIsExclusive(w: TimeWindow, e: Entry)
    ensures e.modificationTime == w.begin ==> Select([e], WindowTest(w)) == []
    ensures e.modificationTime == w.begin + 1 && (w.end.None? || w.begin + 1 < w.end.value) ==>
      Select([e], WindowTest(w)) == [e]
  {
    assert [e][..0] == [];
  }

  /** The window filter never looks at the directory flag; the name filter drops every directory. */
  lemma DirectoryAsymmetry(rx: Regex, pattern: string, w: TimeWindow, e: Entry)
    ensures InWindow(w, e) <==> InWindow(w, e.(isDir := !e.isDir))
    ensures e.isDir ==> Select([e], RegexTest(rx, pattern)) == []
  {
    assert [e][..0] == [];
  }

  /**
   * A day query selects exactly the entries modified strictly between the
   * parsed day and one calendar day later, directories and files alike.
   */
  lemma {:induction false} DayQuerySelects(rx: Regex, cal: Calendar, query: string, listed: seq<Entry>)
    requires !Bracketed(query) && |Trim(query)| == |FormatDate|
    requires cal.parse(FormatDate, query).Some?
    ensures var b := cal.parse(FormatDate, query).value;
      var r := ApplyQuery(rx, cal, Some(query), listed);
      && r.Success?
      && forall k :: 0 <= k < |listed| ==>
           (listed[k] in r.value <==> b < listed[k].modificationTime < cal.addDays(b, 1))
  {
    var b := cal.parse(FormatDate, query).value;
    assert ParseTimeRange(cal, query) == Success(TimeWindow(b, Some(cal.addDays(b, 1))));
    SelectIndexed(listed, WindowTest(TimeWindow(b, Some(cal.addDays(b, 1)))));
  }

  /** An hour query selects the entries modified strictly inside the parsed hour. */
  lemma {:induction false} HourQuerySelects(rx: Regex, cal: Calendar, query: string, listed: seq<Entry>)
    requires !Bracketed(query) && |Trim(query)| == |FormatHour|
    requires cal.parse(FormatHour, query).Some?
    ensures var b := cal.parse(FormatHour, query).value;
      var r := ApplyQuery(rx, cal, Some(query), listed);
      && r.Success?
      && forall k :: 0 <= k < |listed| ==>
           (listed[k] in r.value <==> b < listed[k].modificationTime < cal.addHours(b, 1))
  {
    var b := cal.parse(FormatHour, query).value;
    assert ParseTimeRange(cal, query) == Success(TimeWindow(b, Some(cal.addHours(b, 1))));
    SelectIndexed(listed, WindowTest(TimeWindow(b, Some(cal.addHours(b, 1)))));
  }

  /** A second-precision query has no upper bound: everything modified after the instant passes. */
  lemma {:induction false} SecondQueryIsOpenEnded(rx: Regex, cal: Calendar, query: string, listed: seq<Entry>)
    requires !Bracketed(query) && |Trim(query)| == |FormatSeconds| + 1
    requires cal.parse(FormatSeconds, query).Some?
    ensures var b := cal.parse(FormatSeconds, query).value;
      var r := ApplyQuery(rx, cal, Some(query), listed);
      && r.Success?
      && forall k :: 0 <= k < |listed| ==> (listed[k] in r.value <==> b < listed[k].modificationTime)
  {
    var b := cal.parse(FormatSeconds, query).value;
    assert ParseTimeRange(cal, query) == Success(TimeWindow(b, None));
    SelectIndexed(listed, WindowTest(TimeWindow(b, None)));
  }

  /**
   * The name filter on files `a.log`, `a.txt` and a directory `sub`, with an
   * engine under which only `a.log` matches the pattern, keeps `a.log` alone.
   */
  lemma RegexKeepsOnlyMatchingFile(rx: Regex, root: Path, t: int)
    requires rx.compiles("a\\.log")
    requires forall n :: rx.fullMatch("a\\.log", n) <==> n == "a.log"
    ensures var log := Entry(root + ["a.log"], false, t, t);
      var txt := Entry(root + ["a.txt"], false, t, t);
      var sub := Entry(root + ["sub"], true, t, t);
      ApplyQuery(rx, Calendar((p, s) => None, (b, n) => b, (b, n) => b), Some("[a\\.log]"), [log, txt, sub])
        == Success([log])
  {
    var log := Entry(root + ["a.log"], false, t, t);
    var txt := Entry(root + ["a.txt"], false, t, t);
    var sub := Entry(root + ["sub"], true, t, t);
    var s := [log, txt, sub];
    var keep := RegexTest(rx, "a\\.log");
    assert PatternOf("[a\\.log]") == "a\\.log";
    assert s[..2] == [log, txt] && [log, txt][..1] == [log] && [log][..0] == [];
    assert Name(log.path) == "a.log" && Name(txt.path) == "a.txt";
    assert keep(log) && !keep(txt) && !keep(sub);
    assert Select([log], keep) == [log];
    assert Select([log, txt], keep) == [log];
    assert Select(s, keep) == [log];
  }
}
