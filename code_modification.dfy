/** The log-entry domain: a code modification request, the report of what a
    modification step did, and the record of a completed modification.
    Instants are nanoseconds since the epoch; the clock and the generated
    request id are inputs. */
module CodeModification {

  import opened Wrappers
  import opened Strings

  const NanosPerSecond: int := 1_000_000_000
  const CompletedPrefix: string := "Code modification completed in "
  const SecondsSuffix: string := " seconds\n"

  /** `id` defaults to a generated name and `timestamp` to the instant of
      construction in the source; both are given here. */
  datatype CodeModificationRequest = CodeModificationRequest(request: string, id: string, timestamp: int)

  /** What a modification step did, and the paths it changed. */
  datatype CodeModificationReport = CodeModificationReport(text: string, filesChanged: seq<string>) {

    /** `content` is the report text itself. */
    function Content(): (c: string)
      ensures c == text
    {
      text
    }
  }

  /** The outcome of a whole cycle; `timestamp` is its construction instant. */
  datatype SuccessfulCodeModification = SuccessfulCodeModification(
    request: CodeModificationRequest,
    report: CodeModificationReport,
    suggestedCommitMessage: string,
    timestamp: int)
  {
    /** `Duration.between(request.timestamp, timestamp)`, in nanoseconds. */
    function RunningTime(): (d: int)
      ensures request.timestamp + d == timestamp
      ensures d >= 0 <==> request.timestamp <= timestamp
    {
      timestamp - request.timestamp
    }

    /** The completion line, then the report's content: it starts with the
        fixed prefix and ends with the report text. */
    function Content(): (c: string)
      ensures |c| >= |CompletedPrefix| + |SecondsSuffix| + |report.text|
      ensures c[..|CompletedPrefix|] == CompletedPrefix
      ensures c[|c| - |report.text|..] == report.text
    {
      CompletedPrefix + IntToString(WholeSeconds(RunningTime())) + SecondsSuffix + report.Content()
    }
  }

  /** The two kinds of line in the audit log. */
  datatype LogEntry =
    | RequestEntry(request: CodeModificationRequest)
    | SuccessEntry(success: SuccessfulCodeModification)

  /** `Duration.getSeconds()`: whole seconds, rounded towards negative infinity. */
  function WholeSeconds(nanos: int): (s: int)
    ensures s * NanosPerSecond <= nanos < s * NanosPerSecond + NanosPerSecond
  {
    nanos / NanosPerSecond
  }

  predicate IsNumberChar(c: char) {
    IsDigit(c) || c == '-'
  }

  /** The length of the longest prefix of `s` made of digits and minus signs. */
  function NumberLength(s: string): (k: nat)
    ensures k <= |s|
  {
    if s == [] || !IsNumberChar(s[0]) then 0 else 1 + NumberLength(s[1..])
  }

  /** Reads the whole-seconds figure back out of a completion content
      string, if it has the completion shape. */
  function ReportedSeconds(c: string): Option<int> {
    if !IsPrefix(CompletedPrefix, c) then None
    else
      var rest := c[|CompletedPrefix|..];
      var k := NumberLength(rest);
      if IsIntLiteral(rest[..k]) && IsPrefix(SecondsSuffix, rest[k..])
      then Some(ParseInt(rest[..k]))
      else None
  }

  /** A figure read back is the one printed there: the text starts with the
      prefix, the printed number and " seconds" plus a newline. */
  lemma ReportedSecondsExact(c: string)
    requires ReportedSeconds(c).Some?
    ensures IsPrefix(CompletedPrefix + IntToString(ReportedSeconds(c).value) + SecondsSuffix, c)
  {
    var rest := c[|CompletedPrefix|..];
    var k := NumberLength(rest);
    var n := rest[..k];
    LiteralIsPrinted(n);
    assert IntToString(ReportedSeconds(c).value) == n;
    var x := rest[k..][|SecondsSuffix|..];
    assert rest[k..] == SecondsSuffix + x;
    assert rest == n + (SecondsSuffix + x);
    assert c == c[..|CompletedPrefix|] + rest;
    ConcatAssoc(n, SecondsSuffix, x);
    ConcatAssoc(CompletedPrefix, n + SecondsSuffix, x);
    ConcatAssoc(CompletedPrefix, n, SecondsSuffix);
    assert c == (CompletedPrefix + n + SecondsSuffix) + x;
  }

  lemma {:induction false} NumberLengthStops(a: string, t: string)
    requires forall k :: 0 <= k < |a| ==> IsNumberChar(a[k])
    requires |t| > 0 && !IsNumberChar(t[0])
    ensures NumberLength(a + t) == |a|
    decreases |a|
  {
    if a == [] {
      assert a + t == t;
    } else {
      assert (a + t)[1..] == a[1..] + t;
      NumberLengthStops(a[1..], t);
    }
  }

  /** The content of a completion states its running time in whole seconds,
      readable back from the text, and ends with the report's content. */
  lemma ContentRoundTrip(s: SuccessfulCodeModification)
    ensures IsPrefix(CompletedPrefix, s.Content())
    ensures ReportedSeconds(s.Content()) == Some(WholeSeconds(s.RunningTime()))
    ensures |s.report.text| <= |s.Content()|
    ensures |s.Content()| == |CompletedPrefix| + |IntToString(WholeSeconds(s.RunningTime()))| + |SecondsSuffix| + |s.report.text|
    ensures s.Content()[|s.Content()| - |s.report.text|..] == s.report.text
    ensures IsPrefix(CompletedPrefix + IntToString(WholeSeconds(s.RunningTime())) + SecondsSuffix, s.Content())
  {
    var n := IntToString(WholeSeconds(s.RunningTime()));
    var tail := SecondsSuffix + s.report.Content();
    var c := s.Content();
    ConcatAssoc(CompletedPrefix + n, SecondsSuffix, s.report.text);
    ConcatAssoc(CompletedPrefix, n, tail);
    assert c == CompletedPrefix + (n + tail);
    assert c[..|CompletedPrefix|] == CompletedPrefix;
    var rest := c[|CompletedPrefix|..];
    assert rest == n + tail;
    IntToStringRoundTrip(WholeSeconds(s.RunningTime()));
    assert forall k :: 0 <= k < |n| ==> IsNumberChar(n[k]);
    NumberLengthStops(n, tail);
    assert rest[..|n|] == n;
    assert rest[|n|..] == tail;
    assert tail[..|SecondsSuffix|] == SecondsSuffix;
    ReportedSecondsExact(c);
  }
}
