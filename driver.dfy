/**
 The per-symbol run of the EMA alert script: for every configured symbol, in
 configuration order, fetch the candles, classify the last two points of the
 averages, and alert on a cross.

 The fetch (HTTP request, decoding, DataFrame construction and the two EMA
 columns computed from it) is one given response per symbol: either the two
 average series, or a failure that the script catches and skips. A series
 with fewer than two points makes the indexing of the last two candles fail
 outside the `try`, so that error ends the whole run.
 */
module Driver {
  import opened Crossover

  /** What one market-data request gave back, the averages already computed. */
  datatype Fetch = Ok(short: seq<real>, long: seq<real>) | Err

  /** What checking one symbol did. */
  datatype Outcome = Skipped | Classified(signal: Signal) | IndexError

  /** One line of the run's log: a symbol and what happened to it. */
  datatype Report = Report(symbol: string, outcome: Outcome)

  /** A notification sent for a symbol. */
  datatype Alert = Alert(symbol: string, signal: Signal)

  /** A response that the classifier can read: a failure, or two series that
      each hold at least two points. */
  predicate Readable(response: Fetch)
  {
    response.Err? || (|response.short| >= 2 && |response.long| >= 2)
  }

  /** Checking one symbol: a failed fetch is skipped, a series too short to
      index fails, anything else is classified. */
  function Check(response: Fetch): (o: Outcome)
    ensures o == Skipped <==> response.Err?
    ensures o == IndexError <==> !Readable(response)
    ensures o.Classified? ==> response.Ok? && Readable(response) && o.signal == Classify(response.short, response.long)
  {
    match response
    case Err => Skipped
    case Ok(short, long) =>
      if |short| >= 2 && |long| >= 2 then Classified(Classify(short, long)) else IndexError
  }

  /** The run ended on an uncaught error: its last report is an index failure. */
  predicate Aborted(reports: seq<Report>)
  {
    |reports| > 0 && reports[|reports| - 1].outcome == IndexError
  }

  /** The reports of a whole run, as a function of the symbols and of the
      response each one gets.

      The reports follow the configuration order, one per symbol checked; no
      symbol before the last report failed on indexing; and the run stops
      short of the end only right after such a failure. */
  function Process(symbols: seq<string>, responses: seq<Fetch>): (reports: seq<Report>)
    requires |symbols| == |responses|
    ensures |reports| <= |symbols|
    ensures forall i :: 0 <= i < |reports| ==> reports[i] == Report(symbols[i], Check(responses[i]))
    ensures forall i :: 0 <= i < |reports| - 1 ==> reports[i].outcome != IndexError
    ensures |reports| < |symbols| ==> Aborted(reports)
    decreases |symbols|
  {
    if |symbols| == 0 then []
    else
      var n := |symbols| - 1;
      var before := Process(symbols[..n], responses[..n]);
      if Aborted(before) then before
      else before + [Report(symbols[n], Check(responses[n]))]
  }

  /** Once a prefix of the run has aborted, the symbols after it change nothing. */
  lemma {:induction false} AbortIsFinal(symbols: seq<string>, responses: seq<Fetch>, k: nat)
    requires |symbols| == |responses| && k <= |symbols|
    requires Aborted(Process(symbols[..k], responses[..k]))
    ensures Process(symbols, responses) == Process(symbols[..k], responses[..k])
    decreases |symbols| - k
  {
    if k < |symbols| {
      var n := |symbols| - 1;
      var shorter, shorterResponses := symbols[..n], responses[..n];
      assert shorter[..k] == symbols[..k];
      assert shorterResponses[..k] == responses[..k];
      AbortIsFinal(shorter, shorterResponses, k);
      AbortedStaysAborted(symbols, responses);
    } else {
      assert symbols[..k] == symbols;
      assert responses[..k] == responses;
    }
  }

  /** One more symbol after an aborted run changes nothing. */
  lemma AbortedStaysAborted(symbols: seq<string>, responses: seq<Fetch>)
    requires |symbols| == |responses| && |symbols| > 0
    requires Aborted(Process(symbols[..|symbols| - 1], responses[..|symbols| - 1]))
    ensures Process(symbols, responses) == Process(symbols[..|symbols| - 1], responses[..|symbols| - 1])
  {
  }

  /** The script's loop: check each symbol in turn; a failed fetch is logged
      and skipped, an index failure ends the run. */
  method Run(symbols: seq<string>, responses: seq<Fetch>) returns (reports: seq<Report>)
    requires |symbols| == |responses|
    ensures reports == Process(symbols, responses)
  {
    reports := [];
    var i := 0;
    while i < |symbols|
      invariant 0 <= i <= |symbols|
      invariant reports == Process(symbols[..i], responses[..i])
      invariant !Aborted(reports)
    {
      var outcome := Check(responses[i]);
      reports := reports + [Report(symbols[i], outcome)];
      assert symbols[..i + 1][..i] == symbols[..i];
      assert responses[..i + 1][..i] == responses[..i];
      if outcome == IndexError {
        AbortIsFinal(symbols, responses, i + 1);
        return;
      }
      i := i + 1;
    }
    assert symbols[..i] == symbols;
    assert responses[..i] == responses;
  }

  /** The report raised an alert: it was classified as a cross. */
  predicate IsCross(r: Report)
  {
    r.outcome.Classified? && r.outcome.signal != NoCross
  }

  /** The notifications a run sends: one per report classified as a cross,
      in report order. Together with `AlertsAppend`, the clause about a
      single report fixes the result: each report contributes its own alert
      or nothing, and the contributions are concatenated in report order. */
  function Alerts(reports: seq<Report>): (alerts: seq<Alert>)
    ensures |alerts| <= |reports|
    ensures |reports| == 1 ==>
              alerts == if IsCross(reports[0]) then [Alert(reports[0].symbol, reports[0].outcome.signal)] else []
    ensures forall a :: a in alerts ==> a.signal != NoCross && Report(a.symbol, Classified(a.signal)) in reports
    ensures forall r :: r in reports && IsCross(r) ==> Alert(r.symbol, r.outcome.signal) in alerts
  {
    if reports == [] then []
    else
      var rest := Alerts(reports[1..]);
      assert forall r :: r in reports[1..] ==> r in reports;
      match reports[0].outcome
      case Classified(s) => if s != NoCross then [Alert(reports[0].symbol, s)] + rest else rest
      case _ => rest
  }

  /** The alerts of two stretches of reports are the alerts of the first
      followed by those of the second: no alert is repeated, dropped or
      moved out of report order. */
  lemma {:induction false} AlertsAppend(first: seq<Report>, second: seq<Report>)
    ensures Alerts(first + second) == Alerts(first) + Alerts(second)
    decreases |first|
  {
    if first != [] {
      assert (first + second)[1..] == first[1..] + second;
      AlertsAppend(first[1..], second);
    } else {
      assert first + second == second;
    }
  }

  /** A run with no symbols processes nothing and sends nothing. */
  lemma NoSymbolsNoWork()
    ensures Process([], []) == [] && Alerts(Process([], [])) == []
  {
  }

  /** When every response is readable the run reaches the end: every symbol
      gets exactly one report, in configuration order, and failed fetches are
      skipped without stopping the run. */
  lemma AllReadableCompletes(symbols: seq<string>, responses: seq<Fetch>)
    requires |symbols| == |responses|
    requires forall i :: 0 <= i < |responses| ==> Readable(responses[i])
    ensures |Process(symbols, responses)| == |symbols|
    ensures forall i :: 0 <= i < |symbols| ==>
              Process(symbols, responses)[i].symbol == symbols[i] &&
              (Process(symbols, responses)[i].outcome == Skipped <==> responses[i].Err?)
  {
  }

  /** A failed fetch produces no alert for that position and does not stop
      the run: the next symbol, if any, is still checked. */
  lemma FailedFetchIsSkipped(symbols: seq<string>, responses: seq<Fetch>, k: nat)
    requires |symbols| == |responses| && k < |symbols|
    requires forall i :: 0 <= i < k ==> Readable(responses[i])
    requires responses[k].Err?
    ensures k < |Process(symbols, responses)|
    ensures Process(symbols, responses)[k].outcome == Skipped
    ensures k + 1 < |symbols| ==> k + 1 < |Process(symbols, responses)|
  {
  }

  /** Every alert of a run comes from a symbol whose fetch succeeded and whose
      averages crossed in the alert's direction. */
  lemma AlertsComeFromCrosses(symbols: seq<string>, responses: seq<Fetch>, a: Alert)
    requires |symbols| == |responses|
    requires a in Alerts(Process(symbols, responses))
    ensures a.signal != NoCross
    ensures exists i :: 0 <= i < |symbols| && symbols[i] == a.symbol && responses[i].Ok? &&
                        Readable(responses[i]) && Classify(responses[i].short, responses[i].long) == a.signal
  {
    var reports := Process(symbols, responses);
    var r := Report(a.symbol, Classified(a.signal));
    assert r in reports;
    var i :| 0 <= i < |reports| && reports[i] == r;
    assert Check(responses[i]) == Classified(a.signal);
  }

  /** Every cross found before the run ends is alerted, with its symbol and direction. */
  lemma CrossesAreAlerted(symbols: seq<string>, responses: seq<Fetch>, k: nat)
    requires |symbols| == |responses| && k < |symbols|
    requires forall i :: 0 <= i < k ==> Readable(responses[i])
    requires responses[k].Ok? && Readable(responses[k])
    requires Classify(responses[k].short, responses[k].long) != NoCross
    ensures Alert(symbols[k], Classify(responses[k].short, responses[k].long)) in Alerts(Process(symbols, responses))
  {
    assert Process(symbols, responses)[k] in Process(symbols, responses);
  }

  /** Reports for pairwise different symbols give alerts for pairwise
      different symbols. */
  lemma {:induction false} AlertSymbolsDistinct(reports: seq<Report>)
    requires forall i, j :: 0 <= i < j < |reports| ==> reports[i].symbol != reports[j].symbol
    ensures forall i, j :: 0 <= i < j < |Alerts(reports)| ==> Alerts(reports)[i].symbol != Alerts(reports)[j].symbol
  {
    if reports != [] {
      var rest := reports[1..];
      AlertSymbolsDistinct(rest);
      forall a | a in Alerts(rest)
        ensures a.symbol != reports[0].symbol
      {
        var k :| 0 <= k < |rest| && rest[k] == Report(a.symbol, Classified(a.signal));
        assert reports[k + 1] == rest[k];
      }
    }
  }

  /** A run sends at most one alert per symbol: with no symbol configured
      twice, no two alerts name the same symbol, and there are never more
      alerts than symbols. */
  lemma AtMostOneAlertPerSymbol(symbols: seq<string>, responses: seq<Fetch>)
    requires |symbols| == |responses|
    requires forall i, j :: 0 <= i < j < |symbols| ==> symbols[i] != symbols[j]
    ensures |Alerts(Process(symbols, responses))| <= |symbols|
    ensures forall i, j :: 0 <= i < j < |Alerts(Process(symbols, responses))| ==>
              Alerts(Process(symbols, responses))[i].symbol != Alerts(Process(symbols, responses))[j].symbol
  {
    AlertSymbolsDistinct(Process(symbols, responses));
  }
}
