/**
 * `parseTimeRange`: turns a query such as "20240101" into a window of
 * modification times. The format is chosen only by the length of the
 * trimmed query; the calendar itself (SimpleDateFormat, DateUtils) is a
 * collaborator whose behaviour is a parameter.
 */
module TimeRange {
  import opened Entries

  /** The date patterns of the configuration (day, hour and second precision). */
  const FormatDate := "yyyyMMdd"
  const FormatHour := "yyyyMMddHH"
  const FormatSeconds := "yyyyMMddHHmmss"

  /**
   * The calendar: `parse(pattern, text)` is `new SimpleDateFormat(pattern).parse(text).getTime()`
   * (None for a ParseException); `addDays` and `addHours` are DateUtils on instants.
   */
  datatype Calendar = Calendar(
    parse: (string, string) -> Option<int>,
    addDays: (int, int) -> int,
    addHours: (int, int) -> int)

  /** `[begin, end)` in the source's terms: `end` absent means no upper bound. */
  datatype TimeWindow = TimeWindow(begin: int, end: Option<int>)

  /** What `String.trim` removes: every character up to and including U+0020. */
  predicate IsTrimmed(c: char)
  {
    c <= ' '
  }

  function TrimStart(s: string): (r: string)
    ensures |r| <= |s| && r == s[|s| - |r|..]
    ensures r == [] || !IsTrimmed(r[0])
    ensures forall k :: 0 <= k < |s| - |r| ==> IsTrimmed(s[k])
  {
    if s != [] && IsTrimmed(s[0]) then TrimStart(s[1..]) else s
  }

  function TrimEnd(s: string): (r: string)
    ensures |r| <= |s| && r == s[..|r|]
    ensures r == [] || !IsTrimmed(r[|r| - 1])
    ensures forall k :: |r| <= k < |s| ==> IsTrimmed(s[k])
  {
    if s != [] && IsTrimmed(s[|s| - 1]) then TrimEnd(s[..|s| - 1]) else s
  }

  /** Where `String.trim` starts its result: the number of leading trimmed characters. */
  function TrimOffset(s: string): (i: nat)
    ensures i <= |s|
  {
    |s| - |TrimStart(s)|
  }

  /** `String.trim`: drops the trimmed characters at both ends and nothing else. */
  function Trim(s: string): (r: string)
    ensures TrimOffset(s) + |r| <= |s| && r == s[TrimOffset(s)..TrimOffset(s) + |r|]
    ensures r == [] || (!IsTrimmed(r[0]) && !IsTrimmed(r[|r| - 1]))
    ensures forall k :: 0 <= k < TrimOffset(s) ==> IsTrimmed(s[k])
    ensures forall k :: TrimOffset(s) + |r| <= k < |s| ==> IsTrimmed(s[k])
  {
    var front := TrimStart(s);
    var r := TrimEnd(front);
    TrimSlices(s, front, r, TrimOffset(s));
    assert r != [] ==> r[0] == front[0];
    r
  }

  /** A prefix of the suffix of `s` from `o` is the slice of `s` from `o`, and its tail lies in `s`'s tail. */
  lemma TrimSlices(s: string, front: string, r: string, o: nat)
    requires o <= |s| && front == s[o..] && |r| <= |front| && r == front[..|r|]
    requires forall k :: |r| <= k < |front| ==> IsTrimmed(front[k])
    ensures o + |r| <= |s| && r == s[o..o + |r|]
    ensures forall k :: o + |r| <= k < |s| ==> IsTrimmed(s[k])
  {
    forall k | o + |r| <= k < |s|
      ensures IsTrimmed(s[k])
    {
      assert s[k] == front[k - o];
    }
  }

  /**
   * The window a query denotes. The trimmed length is tested against the day
   * width, then the hour width, then the second width plus one; the parse is
   * applied to the query as given, not to its trimmed form.
   */
  function ParseTimeRange(cal: Calendar, query: string): (r: Result<TimeWindow, Error>)
    ensures r.Success? ==>
      || (&& |Trim(query)| == |FormatDate|
          && cal.parse(FormatDate, query) == Some(r.value.begin)
          && r.value.end == Some(cal.addDays(r.value.begin, 1)))
      || (&& |Trim(query)| == |FormatHour|
          && cal.parse(FormatHour, query) == Some(r.value.begin)
          && r.value.end == Some(cal.addHours(r.value.begin, 1)))
      || (&& |Trim(query)| == |FormatSeconds| + 1
          && cal.parse(FormatSeconds, query) == Some(r.value.begin)
          && r.value.end == None)
    ensures r.Failure? ==>
      || (r.error == IllegalTimeArgument(query) && |Trim(query)| !in {|FormatDate|, |FormatHour|, |FormatSeconds| + 1})
      || (&& r.error == ParseFailure(query)
          && (|| (|Trim(query)| == |FormatDate| && cal.parse(FormatDate, query) == None)
              || (|Trim(query)| == |FormatHour| && cal.parse(FormatHour, query) == None)
              || (|Trim(query)| == |FormatSeconds| + 1 && cal.parse(FormatSeconds, query) == None)))
  {
    var length := |Trim(query)|;
    if length == |FormatDate| then
      match cal.parse(FormatDate, query)
      case None => Failure(ParseFailure(query))
      case Some(b) => Success(TimeWindow(b, Some(cal.addDays(b, 1))))
    else if length == |FormatHour| then
      match cal.parse(FormatHour, query)
      case None => Failure(ParseFailure(query))
      case Some(b) => Success(TimeWindow(b, Some(cal.addHours(b, 1))))
    else if length == |FormatSeconds| + 1 then
      match cal.parse(FormatSeconds, query)
      case None => Failure(ParseFailure(query))
      case Some(b) => Success(TimeWindow(b, None))
    else
      Failure(IllegalTimeArgument(query))
  }

  /** Only the second-precision form leaves the window open-ended. */
  lemma OpenEndedOnlyForSeconds(cal: Calendar, query: string)
    requires ParseTimeRange(cal, query).Success?
    ensures ParseTimeRange(cal, query).value.end.None? <==> |Trim(query)| == |FormatSeconds| + 1
  {
  }

  /** One space on each side of a query that has no blank at either end counts for nothing in the dispatch (the spaces do reach the parser). */
  lemma {:induction false} BlanksDoNotChangeDispatch(cal: Calendar, query: string)
    requires |query| > 0 && !IsTrimmed(query[0]) && !IsTrimmed(query[|query| - 1])
    ensures |Trim(" " + query + " ")| == |Trim(query)| == |query|
    ensures ParseTimeRange(cal, " " + query + " ") == Failure(IllegalTimeArgument(" " + query + " "))
      <==> ParseTimeRange(cal, query) == Failure(IllegalTimeArgument(query))
  {
    var padded := " " + query + " ";
    assert padded[1..] == query + " ";
    assert TrimStart(query + " ") == query + " ";
    assert TrimStart(padded) == query + " ";
    assert (query + " ")[..|query|] == query;
    assert TrimEnd(query) == query;
    assert TrimEnd(query + " ") == query;
    assert TrimStart(query) == query;
  }

  /** A query of any other length, "abc" for one, is the illegal-argument error and is never parsed. */
  lemma ShortQueryRejected(cal: Calendar)
    ensures ParseTimeRange(cal, "abc") == Failure(IllegalTimeArgument("abc"))
  {
    assert TrimStart("abc") == "abc";
    assert TrimEnd("abc") == "abc";
  }
}
