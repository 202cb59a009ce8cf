/**
 * Acquiring the finished report from the brokerage's reporting service:
 * request a report until the service hands out an id, wait, then list the
 * service's reports until the newest entry for that id says "Finished", and
 * download it.
 *
 * The service is an oracle: `creates` holds the successive answers of the
 * create call and `listings` those of the listing call. Sleeps are `Wait`
 * events. The source retries without limit; here a run stops, with a pending
 * outcome, when the oracle has no further answer.
 */
module ReportAcquirer {
  import opened Wrappers

  /**
   * One record of the listing call. Its other fields (`timeFrom`, `timeTo`,
   * `dataIncluded`) are never inspected, only forwarded with the selected
   * record to the report object; this record does not carry them.
   */
  datatype Entry = Entry(reportId: Option<int>, status: Option<string>, downloadLink: Option<string>)

  /** What the run did, in order. */
  datatype Event =
    | CreateCall(result: Option<int>)
    | ListCall(listing: Option<seq<Entry>>)
    | Wait
    | DownloadCall(entry: Entry)

  /** The protocol's states. */
  datatype Phase =
    | Requesting                          // about to ask for a report
    | CreateBackoff                       // the create call gave no id; sleep before asking again
    | Waiting(id: int)                    // an id is held; sleep while the report is generated
    | Polling(id: int)                    // about to list the reports
    | PollBackoff(id: int)                // nothing usable yet; sleep before listing again
    | Ready(id: int, entry: Entry)        // the newest entry for the id is finished; download it
    | Done(id: int, entry: Entry)         // downloaded
    | Failed(id: int, listing: seq<Entry>) // a non-empty listing had no entry for the id (StopIteration)

  /** How a run ends. The two pending outcomes are where the source would go on retrying. */
  datatype Outcome =
    | CreatePending
    | PollPending(reportId: int)
    | NoMatchingEntry(reportId: int, listing: seq<Entry>)
    | Downloaded(reportId: int, entry: Entry)

  /** Python truthiness of the id returned by the create call: neither `None` nor `0`. */
  predicate IsTruthyId(r: Option<int>) { r.Some? && r.value != 0 }

  /** Python truthiness of a listing: neither `None` nor empty. */
  predicate IsNonEmpty(l: Option<seq<Entry>>) { l.Some? && |l.value| > 0 }

  predicate Matches(e: Entry, id: int) { e.reportId == Some(id) }

  predicate IsFinished(e: Entry) { e.status == Some("Finished") }

  /** `reports[::-1]`. */
  function Reversed(es: seq<Entry>): seq<Entry>
  {
    seq(|es|, i requires 0 <= i < |es| => es[|es| - 1 - i])
  }

  /** `next(filter(...))` as an index: the first entry for `id`, or `None` where Python raises StopIteration. */
  function FirstMatch(es: seq<Entry>, id: int): (r: Option<nat>)
    ensures r.Some? ==> r.value < |es| && Matches(es[r.value], id)
    ensures r.Some? ==> forall j :: 0 <= j < r.value ==> !Matches(es[j], id)
    ensures r.None? ==> forall j :: 0 <= j < |es| ==> !Matches(es[j], id)
  {
    if es == [] then None
    else if Matches(es[0], id) then Some(0)
    else match FirstMatch(es[1..], id)
      case None => None
      case Some(j) => Some(j + 1)
  }

  /** The entry the source selects for `id`: the first match in the reversed listing. */
  function SelectReport(es: seq<Entry>, id: int): Option<Entry>
  {
    match FirstMatch(Reversed(es), id)
    case None => None
    case Some(j) => Some(Reversed(es)[j])
  }

  /** Reference definition: the index of the last entry for `id`. */
  function LastMatch(es: seq<Entry>, id: int): (r: Option<nat>)
    ensures r.Some? ==> r.value < |es| && Matches(es[r.value], id)
    ensures r.Some? ==> forall j :: r.value < j < |es| ==> !Matches(es[j], id)
    ensures r.None? ==> forall j :: 0 <= j < |es| ==> !Matches(es[j], id)
    decreases |es|
  {
    if es == [] then None
    else if Matches(es[|es| - 1], id) then Some(|es| - 1)
    else LastMatch(es[..|es| - 1], id)
  }

  /** The selection is the last entry for the held id, and there is none exactly when no entry has that id. */
  lemma SelectReportIsLastMatch(es: seq<Entry>, id: int)
    ensures SelectReport(es, id) == match LastMatch(es, id) case None => None case Some(k) => Some(es[k])
  {
    var rev := Reversed(es);
    var n := |es|;
    match FirstMatch(rev, id)
    case None =>
      forall k | 0 <= k < n ensures !Matches(es[k], id) {
        assert es[k] == rev[n - 1 - k];
      }
    case Some(j) =>
      assert rev[j] == es[n - 1 - j];
      forall k | n - 1 - j < k < n ensures !Matches(es[k], id) {
        assert es[k] == rev[n - 1 - k];
      }
  }

  /** What one answer of the listing call tells the poll loop. */
  datatype Verdict = Retry | NoEntry | FinishedEntry(entry: Entry)

  /**
   * An empty or `None` listing, or a newest entry for the id that is not
   * finished, means another poll; a non-empty listing without an entry for the
   * id is the StopIteration error; otherwise the finished entry is selected.
   */
  function PollVerdict(l: Option<seq<Entry>>, id: int): Verdict
  {
    if !IsNonEmpty(l) then Retry
    else match SelectReport(l.value, id)
      case None => NoEntry
      case Some(e) => if IsFinished(e) then FinishedEntry(e) else Retry
  }

  /** Retry condition of the poll loop. */
  predicate KeepsPolling(l: Option<seq<Entry>>, id: int)
  {
    PollVerdict(l, id).Retry?
  }

  /** One transition of the protocol; `None` when the event is not allowed in that phase. */
  function Step(p: Phase, e: Event): Option<Phase>
  {
    match (p, e)
    case (Requesting, CreateCall(r)) =>
      if IsTruthyId(r) then Some(Waiting(r.value)) else Some(CreateBackoff)
    case (CreateBackoff, Wait) => Some(Requesting)
    case (Waiting(id), Wait) => Some(Polling(id))
    case (Polling(id), ListCall(l)) =>
      (match PollVerdict(l, id)
        case Retry => Some(PollBackoff(id))
        case NoEntry => Some(Failed(id, l.value))
        case FinishedEntry(entry) => Some(Ready(id, entry)))
    case (PollBackoff(id), Wait) => Some(Polling(id))
    case (Ready(id, entry), DownloadCall(d)) => if d == entry then Some(Done(id, entry)) else None
    case _ => None
  }

  /** The phase a trace leads to from the start, or `None` if the trace breaks the protocol. */
  function Run(t: seq<Event>): Option<Phase>
  {
    if t == [] then Some(Requesting)
    else match Run(t[..|t| - 1])
      case None => None
      case Some(p) => Step(p, t[|t| - 1])
  }

  function FinalPhase(o: Outcome): Phase
  {
    match o
    case CreatePending => Requesting
    case PollPending(id) => Polling(id)
    case NoMatchingEntry(id, l) => Failed(id, l)
    case Downloaded(id, e) => Done(id, e)
  }

  /** The answers of the create call a trace consumed, in order. */
  function CreateResults(t: seq<Event>): seq<Option<int>>
  {
    if t == [] then []
    else CreateResults(t[..|t| - 1]) + (if t[|t| - 1].CreateCall? then [t[|t| - 1].result] else [])
  }

  /** The answers of the listing call a trace consumed, in order. */
  function ListResults(t: seq<Event>): seq<Option<seq<Entry>>>
  {
    if t == [] then []
    else ListResults(t[..|t| - 1]) + (if t[|t| - 1].ListCall? then [t[|t| - 1].listing] else [])
  }

  /** The calls that count against the service's rate limits. */
  predicate IsServiceRequest(e: Event) { e.CreateCall? || e.ListCall? }

  predicate IsSuccessfulCreate(e: Event) { e.CreateCall? && IsTruthyId(e.result) }

  /** The phases in which a report id is held. */
  predicate HoldsId(p: Phase) { !(p.Requesting? || p.CreateBackoff?) }

  /** `ev` is a listing whose newest entry for `id` is `e`, and `e` is finished. */
  predicate SelectedFinished(ev: Event, id: int, e: Entry)
  {
    ev.ListCall? && IsNonEmpty(ev.listing) && SelectReport(ev.listing.value, id) == Some(e) && IsFinished(e)
  }

  /** No two calls to the service without a sleep between them. */
  ghost predicate Paced(t: seq<Event>)
  {
    forall i :: 0 <= i < |t| - 1 ==> !(IsServiceRequest(t[i]) && IsServiceRequest(t[i + 1]))
  }

  /** A legal run sleeps between any two calls to the service. */
  lemma {:induction false} RunIsPaced(t: seq<Event>)
    requires Run(t).Some?
    ensures Paced(t)
    ensures (Run(t).value.Requesting? || Run(t).value.Polling?) && t != [] ==> !IsServiceRequest(t[|t| - 1])
    decreases |t|
  {
    if t != [] {
      var t', e := t[..|t| - 1], t[|t| - 1];
      assert t == t' + [e];
      RunIsPaced(t');
    }
  }

  /**
   * A legal run makes exactly one successful create call once it holds an id,
   * that call carries the held id, every listing comes after it, and no create
   * call follows it; before an id is held there is neither.
   */
  lemma {:induction false} RunCreatesOnce(t: seq<Event>)
    requires Run(t).Some?
    ensures !HoldsId(Run(t).value) ==> forall j :: 0 <= j < |t| ==> !IsSuccessfulCreate(t[j]) && !t[j].ListCall?
    ensures HoldsId(Run(t).value) ==>
      && Run(t).value.id != 0
      && exists c :: 0 <= c < |t| && t[c] == CreateCall(Some(Run(t).value.id))
           && (forall j :: 0 <= j < c ==> !IsSuccessfulCreate(t[j]) && !t[j].ListCall?)
           && (forall j :: c < j < |t| ==> !t[j].CreateCall?)
    decreases |t|
  {
    if t != [] {
      var t', e := t[..|t| - 1], t[|t| - 1];
      assert t == t' + [e];
      RunCreatesOnce(t');
      var p', p := Run(t').value, Run(t).value;
      if HoldsId(p') {
        var c :| 0 <= c < |t'| && t'[c] == CreateCall(Some(p'.id))
           && (forall j :: 0 <= j < c ==> !IsSuccessfulCreate(t'[j]) && !t'[j].ListCall?)
           && (forall j :: c < j < |t'| ==> !t'[j].CreateCall?);
        assert t[c] == CreateCall(Some(p.id));
      } else if HoldsId(p) {
        assert t[|t| - 1] == CreateCall(Some(p.id));
      }
    }
  }

  /**
   * A legal run downloads at most once, as its very last event, and only the
   * entry that the listing just before selected as finished for the held id.
   */
  lemma {:induction false} RunDownloadsLast(t: seq<Event>)
    requires Run(t).Some?
    ensures !Run(t).value.Done? ==> forall j :: 0 <= j < |t| ==> !t[j].DownloadCall?
    ensures Run(t).value.Ready? ==> t != [] && SelectedFinished(t[|t| - 1], Run(t).value.id, Run(t).value.entry)
    ensures Run(t).value.Done? ==>
      && |t| >= 2 && t[|t| - 1] == DownloadCall(Run(t).value.entry)
      && SelectedFinished(t[|t| - 2], Run(t).value.id, Run(t).value.entry)
      && forall j :: 0 <= j < |t| - 1 ==> !t[j].DownloadCall?
    decreases |t|
  {
    if t != [] {
      var t', e := t[..|t| - 1], t[|t| - 1];
      assert t == t' + [e];
      RunDownloadsLast(t');
    }
  }

  /** Appending one event unfolds each function over traces by one step. */
  lemma AppendEvent(t: seq<Event>, e: Event)
    ensures Run(t + [e]) == match Run(t) case None => None case Some(p) => Step(p, e)
    ensures CreateResults(t + [e]) == CreateResults(t) + (if e.CreateCall? then [e.result] else [])
    ensures ListResults(t + [e]) == ListResults(t) + (if e.ListCall? then [e.listing] else [])
  {
    assert (t + [e])[..|t + [e]| - 1] == t;
  }

  /**
   * The create loop: ask for a report until the answer is a truthy id,
   * sleeping after each refusal. It makes `calls` create calls, consuming
   * that many answers; without a truthy answer it consumes them all and the
   * run stays in `Requesting`.
   */
  method RequestReport(creates: seq<Option<int>>) returns (created: bool, id: int, calls: nat, trace: seq<Event>)
    ensures calls <= |creates| && CreateResults(trace) == creates[..calls] && ListResults(trace) == []
    ensures created <==> exists i :: 0 <= i < |creates| && IsTruthyId(creates[i])
    ensures !created ==> Run(trace) == Some(Requesting) && calls == |creates|
    ensures created ==> Run(trace) == Some(Waiting(id)) && 0 < calls && creates[calls - 1] == Some(id) && id != 0
    ensures forall i :: 0 <= i < calls - (if created then 1 else 0) ==> !IsTruthyId(creates[i])
  {
    trace := [];
    calls := 0;
    id := 0;
    created := false;
    while calls < |creates|
      invariant 0 <= calls <= |creates|
      invariant CreateResults(trace) == creates[..calls] && ListResults(trace) == []
      invariant forall i :: 0 <= i < calls ==> !IsTruthyId(creates[i])
      invariant Run(trace) == Some(Requesting)
    {
      var reportId := creates[calls];
      AppendEvent(trace, CreateCall(reportId));
      trace := trace + [CreateCall(reportId)];
      assert creates[..calls + 1] == creates[..calls] + [reportId];
      calls := calls + 1;
      if IsTruthyId(reportId) {
        id := reportId.value;
        created := true;
        break;
      }
      AppendEvent(trace, Wait);
      trace := trace + [Wait];
    }
  }

  /**
   * One pass of the poll loop's body: list the reports and judge the answer.
   * When it calls for another poll, sleep, so that the trace is back in
   * `Polling`; otherwise stop in `Failed` or `Ready`.
   */
  method PollOnce(id: int, reports: Option<seq<Entry>>, before: seq<Event>) returns (verdict: Verdict, trace: seq<Event>)
    requires Run(before) == Some(Polling(id))
    ensures verdict == PollVerdict(reports, id)
    ensures CreateResults(trace) == CreateResults(before) && ListResults(trace) == ListResults(before) + [reports]
    ensures Run(trace) == Some(match verdict
      case Retry => Polling(id)
      case NoEntry => Failed(id, reports.value)
      case FinishedEntry(e) => Ready(id, e))
  {
    AppendEvent(before, ListCall(reports));
    trace := before + [ListCall(reports)];
    if !IsNonEmpty(reports) {
      AppendEvent(trace, Wait);
      trace := trace + [Wait];
      return Retry, trace;
    }
    var selected := SelectReport(reports.value, id);
    if selected.None? {
      return NoEntry, trace;
    }
    if IsFinished(selected.value) {
      return FinishedEntry(selected.value), trace;
    }
    AppendEvent(trace, Wait);
    trace := trace + [Wait];
    verdict := Retry;
  }

  /**
   * The poll loop, continuing a trace that holds `id`: list the reports,
   * sleeping and listing again while the listing is empty or the newest entry
   * for `id` is not finished. It makes `polls` listing calls, consuming that
   * many answers. A non-empty listing without an entry for `id` ends the run
   * with an error; a finished entry is downloaded.
   */
  method PollReports(id: int, listings: seq<Option<seq<Entry>>>, prefix: seq<Event>) returns (outcome: Outcome, polls: nat, trace: seq<Event>)
    requires Run(prefix) == Some(Polling(id)) && ListResults(prefix) == []
    ensures Run(trace) == Some(FinalPhase(outcome))
    ensures polls <= |listings| && CreateResults(trace) == CreateResults(prefix) && ListResults(trace) == listings[..polls]
    ensures !outcome.CreatePending? && outcome.reportId == id
    ensures outcome.PollPending? ==> polls == |listings|
    ensures forall i :: 0 <= i < polls - (if outcome.PollPending? then 0 else 1) ==> KeepsPolling(listings[i], id)
    ensures outcome.NoMatchingEntry? ==>
      0 < polls && listings[polls - 1] == Some(outcome.listing) && |outcome.listing| > 0
      && SelectReport(outcome.listing, id) == None
    ensures outcome.Downloaded? ==>
      0 < polls && IsNonEmpty(listings[polls - 1])
      && SelectReport(listings[polls - 1].value, id) == Some(outcome.entry) && IsFinished(outcome.entry)
  {
    trace := prefix;
    polls := 0;
    while polls < |listings|
      invariant 0 <= polls <= |listings|
      invariant CreateResults(trace) == CreateResults(prefix) && ListResults(trace) == listings[..polls]
      invariant forall i :: 0 <= i < polls ==> KeepsPolling(listings[i], id)
      invariant Run(trace) == Some(Polling(id))
    {
      var reports := listings[polls];
      var verdict;
      verdict, trace := PollOnce(id, reports, trace);
      assert listings[..polls + 1] == listings[..polls] + [reports];
      polls := polls + 1;
      match verdict
      case Retry =>
      case NoEntry =>
        return NoMatchingEntry(id, reports.value), polls, trace;
      case FinishedEntry(entry) =>
        // `report.download()` once the loop is left
        AppendEvent(trace, DownloadCall(entry));
        trace := trace + [DownloadCall(entry)];
        return Downloaded(id, entry), polls, trace;
    }
    outcome := PollPending(id);
  }

  /**
   * The two `while True` loops of the acquisition, run against the oracle.
   * The run follows the protocol and consumes `calls` create answers and
   * `polls` listing answers, in order. Its outcome is decided by the first
   * truthy create answer and by the first listing that does not call for
   * another poll.
   */
  method Acquire(creates: seq<Option<int>>, listings: seq<Option<seq<Entry>>>)
    returns (outcome: Outcome, calls: nat, polls: nat, trace: seq<Event>)
    ensures Run(trace) == Some(FinalPhase(outcome))
    ensures calls <= |creates| && CreateResults(trace) == creates[..calls]
    ensures polls <= |listings| && ListResults(trace) == listings[..polls]
    ensures outcome.CreatePending? <==> forall i :: 0 <= i < |creates| ==> !IsTruthyId(creates[i])
    ensures outcome.CreatePending? ==> calls == |creates| && polls == 0
    ensures !outcome.CreatePending? ==>
      && 0 < calls && creates[calls - 1] == Some(outcome.reportId) && outcome.reportId != 0
      && (forall i :: 0 <= i < calls - 1 ==> !IsTruthyId(creates[i]))
      && (outcome.PollPending? ==> polls == |listings|)
      && forall i :: 0 <= i < polls - (if outcome.PollPending? then 0 else 1) ==> KeepsPolling(listings[i], outcome.reportId)
    ensures outcome.NoMatchingEntry? ==>
      0 < polls && listings[polls - 1] == Some(outcome.listing) && |outcome.listing| > 0
      && SelectReport(outcome.listing, outcome.reportId) == None
    ensures outcome.Downloaded? ==>
      0 < polls && IsNonEmpty(listings[polls - 1])
      && SelectReport(listings[polls - 1].value, outcome.reportId) == Some(outcome.entry) && IsFinished(outcome.entry)
    ensures Paced(trace)
    ensures outcome.Downloaded? ==> 0 < |trace| && trace[|trace| - 1] == DownloadCall(outcome.entry)
    ensures forall j :: 0 <= j < |trace| - (if outcome.Downloaded? then 1 else 0) ==> !trace[j].DownloadCall?
  {
    var created, id, requested;
    created, id, calls, requested := RequestReport(creates);
    if !created {
      outcome, polls, trace := CreatePending, 0, requested;
    } else {
      // the fixed wait for report generation before the first listing
      AppendEvent(requested, Wait);
      outcome, polls, trace := PollReports(id, listings, requested + [Wait]);
    }
    RunIsPaced(trace);
    RunDownloadsLast(trace);
  }
}
