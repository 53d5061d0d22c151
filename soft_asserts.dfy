/**
 * The soft-assertion aggregator of cypress/support/commands.ts: a module-level
 * list of failure messages that `softAssert` appends to and `resolveSoftAsserts`
 * drains into one aggregated error.
 */
module SoftAsserts {
  import opened Wrappers

  /** What running an assertion callback does: it returns, or it throws an error with a message. */
  datatype Check = Passes | Throws(message: string)

  /** One `cy.softAssert(assertionFn, errorMessage?)` call. */
  datatype Call = Call(check: Check, errorMessage: Option<string>)

  /** What `cy.resolveSoftAsserts()` does: return normally, or throw an error with this text. */
  datatype Outcome = Ok | Error(text: string)

  const Header: string := "Soft assertions failed:"

  /** `errorMessage || error.message`: the custom message unless it is absent or empty. */
  function FailureMessage(errorMessage: Option<string>, thrown: string): (m: string)
    ensures Truthy(errorMessage) ==> m == errorMessage.value
    ensures !Truthy(errorMessage) ==> m == thrown
  {
    if Truthy(errorMessage) then errorMessage.value else thrown
  }

  /** The text `cy.log` receives when a soft assertion fails. */
  function LogLine(message: string): string
  {
    "Soft assertion failed: " + message
  }

  /** `Array.prototype.join('\n')`. */
  function JoinLines(s: seq<string>): string
  {
    if |s| == 0 then ""
    else if |s| == 1 then s[0]
    else s[0] + "\n" + JoinLines(s[1..])
  }

  /** `String.prototype.split('\n')`: the pieces between newline characters. */
  function Lines(t: string): (r: seq<string>)
    ensures |r| >= 1
    ensures |r| == 1 <==> '\n' !in t
  {
    if t == "" then [""]
    else
      var rest := Lines(t[1..]);
      if t[0] == '\n' then [""] + rest
      else [[t[0]] + rest[0]] + rest[1..]
  }

  /** The text of the error `resolveSoftAsserts` throws for a non-empty list. */
  function Report(failures: seq<string>): string
  {
    Header + "\n" + JoinLines(failures)
  }

  /** The failure list after one `softAssert` call: grows by one entry exactly when the check throws. */
  function Record(failures: seq<string>, call: Call): (r: seq<string>)
    ensures call.check.Passes? ==> r == failures
    ensures call.check.Throws? ==>
      |r| == |failures| + 1 && r[..|failures|] == failures &&
      r[|failures|] == FailureMessage(call.errorMessage, call.check.message)
  {
    match call.check
    case Passes => failures
    case Throws(m) => failures + [FailureMessage(call.errorMessage, m)]
  }

  /** What one `resolveSoftAsserts` call reports, and the failure list it leaves behind. */
  function Resolve(failures: seq<string>): (r: (Outcome, seq<string>))
    ensures r.1 == []
    ensures r.0.Ok? <==> failures == []
    ensures failures != [] ==> r.0 == Error(Report(failures))
  {
    if |failures| > 0 then (Error(Report(failures)), []) else (Ok, failures)
  }

  /** The failure list after a run of `softAssert` calls, in call order. */
  function RecordAll(failures: seq<string>, calls: seq<Call>): seq<string>
    decreases |calls|
  {
    if calls == [] then failures else RecordAll(Record(failures, calls[0]), calls[1..])
  }

  /** Number of calls whose check throws. */
  function FailCount(calls: seq<Call>): nat
  {
    if calls == [] then 0 else (if calls[0].check.Throws? then 1 else 0) + FailCount(calls[1..])
  }

  /** The message each throwing call records, in call order. */
  function Messages(calls: seq<Call>): (r: seq<string>)
    ensures |r| == FailCount(calls)
    ensures r == [] <==> FailCount(calls) == 0
  {
    if calls == [] then []
    else
      (if calls[0].check.Throws?
       then [FailureMessage(calls[0].errorMessage, calls[0].check.message)]
       else []) + Messages(calls[1..])
  }

  predicate NoNewlines(s: seq<string>)
  {
    forall i :: 0 <= i < |s| ==> '\n' !in s[i]
  }

  /** The module-level `softAssertFailures` list, with the `cy.log` lines the aggregator emits. */
  class Aggregator {
    var failures: seq<string>
    var log: seq<string>

    constructor ()
      ensures failures == [] && log == []
    {
      failures := [];
      log := [];
    }

    /**
     * `cy.softAssert`: for a check that returns or throws an Error with a string message, it
     * never throws itself; a throwing check appends one message and logs it.
     */
    method SoftAssert(check: Check, errorMessage: Option<string>)
      modifies this
      ensures failures == Record(old(failures), Call(check, errorMessage))
      ensures check.Passes? ==> failures == old(failures) && log == old(log)
      ensures check.Throws? ==>
        var m := FailureMessage(errorMessage, check.message);
        failures == old(failures) + [m] && log == old(log) + [LogLine(m)]
    {
      match check {
        case Passes =>
        case Throws(thrown) =>
          var message := FailureMessage(errorMessage, thrown);
          failures := failures + [message];
          log := log + [LogLine(message)];
      }
    }

    /** `cy.resolveSoftAsserts`: no-op on an empty list, else clears the list and throws the report. */
    method ResolveSoftAsserts() returns (outcome: Outcome)
      modifies this
      ensures (outcome, failures) == Resolve(old(failures))
      ensures old(failures) == [] ==> outcome == Ok && failures == old(failures)
      ensures old(failures) != [] ==> outcome == Error(Report(old(failures))) && failures == []
      ensures log == old(log)
    {
      outcome := Ok;
      if |failures| > 0 {
        var errorMessages := JoinLines(failures);
        failures := [];
        outcome := Error(Header + "\n" + errorMessages);
      }
    }
  }

  /** A run of `softAssert` calls appends exactly the messages of the throwing ones, in order. */
  lemma {:induction false} RecordAllAppends(failures: seq<string>, calls: seq<Call>)
    ensures RecordAll(failures, calls) == failures + Messages(calls)
    ensures |RecordAll(failures, calls)| == |failures| + FailCount(calls)
    decreases |calls|
  {
    if calls != [] {
      RecordAllAppends(Record(failures, calls[0]), calls[1..]);
    }
  }

  /** Splitting a line without newlines gives that line alone. */
  lemma {:induction false} LinesOfLine(a: string)
    requires '\n' !in a
    ensures Lines(a) == [a]
    decreases |a|
  {
    if a != "" {
      LinesOfLine(a[1..]);
      assert [a[0]] + a[1..] == a;
    }
  }

  /** Splitting `a + "\n" + b` gives `a` and then the lines of `b`. */
  lemma {:induction false} LinesAfterLine(a: string, b: string)
    requires '\n' !in a
    ensures Lines(a + "\n" + b) == [a] + Lines(b)
    decreases |a|
  {
    if a == "" {
      assert a + "\n" + b == "\n" + b;
      assert ("\n" + b)[1..] == b;
    } else {
      LinesAfterLine(a[1..], b);
      assert (a + "\n" + b)[1..] == a[1..] + "\n" + b;
      assert [a[0]] + a[1..] == a;
    }
  }

  /** Joining with newlines and splitting again gives back the messages. */
  lemma {:induction false} LinesOfJoin(s: seq<string>)
    requires |s| > 0 && NoNewlines(s)
    ensures Lines(JoinLines(s)) == s
    decreases |s|
  {
    if |s| == 1 {
      LinesOfLine(s[0]);
    } else {
      LinesAfterLine(s[0], JoinLines(s[1..]));
      LinesOfJoin(s[1..]);
    }
  }

  /** The report's first line is the header and each further line is one failure, in order. */
  lemma ReportLines(failures: seq<string>)
    requires |failures| > 0 && NoNewlines(failures)
    ensures Lines(Report(failures)) == [Header] + failures
    ensures |Lines(Report(failures))| == |failures| + 1
  {
    LinesAfterLine(Header, JoinLines(failures));
    LinesOfJoin(failures);
  }

  /**
   * After a run of calls of which k > 0 throw, one resolve throws the report of exactly
   * those k messages in call order and empties the list; a second resolve is a no-op.
   */
  lemma KFailuresThenResolve(calls: seq<Call>)
    requires FailCount(calls) > 0
    ensures |RecordAll([], calls)| == FailCount(calls)
    ensures Resolve(RecordAll([], calls)) == (Error(Report(Messages(calls))), [])
    ensures Resolve(Resolve(RecordAll([], calls)).1) == (Ok, [])
  {
    RecordAllAppends([], calls);
    assert RecordAll([], calls) == Messages(calls);
  }

  /**
   * When no recorded message contains a newline, the report of k failures has
   * exactly k + 1 lines: the header, then the messages in call order.
   */
  lemma KFailuresReportLines(calls: seq<Call>)
    requires FailCount(calls) > 0
    requires NoNewlines(Messages(calls))
    ensures Resolve(RecordAll([], calls)).0.Error?
    ensures Lines(Resolve(RecordAll([], calls)).0.text) == [Header] + Messages(calls)
    ensures |Lines(Resolve(RecordAll([], calls)).0.text)| == FailCount(calls) + 1
  {
    KFailuresThenResolve(calls);
    ReportLines(Messages(calls));
  }

  /** When no check throws, resolve returns normally and the list stays empty. */
  lemma NoFailuresNoError(calls: seq<Call>)
    requires FailCount(calls) == 0
    ensures Resolve(RecordAll([], calls)) == (Ok, [])
  {
    RecordAllAppends([], calls);
  }
}
