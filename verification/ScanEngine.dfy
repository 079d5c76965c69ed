/** A privacy scan: one removal request per active broker, and the counters
    that must add up with the request rows (core/services/scan_engine.py). */
module ScanEngine {
  import opened Prelude
  import Records

  type Broker = Records.Broker

  datatype ScanStatus = Pending | Running | Completed | Failed | Cancelled

  datatype RequestStatus = Pending | Sent | Acknowledged | Removed | Failed | NeedsManual | OptOutComplete

  datatype Method = Email | WebForm | Manual

  datatype Request = Request(
    status: RequestStatus, via: Method, confirmationCode: string, errorMessage: string, retryCount: nat)

  /** A scan row with its request rows, one per broker id. */
  datatype Scan = Scan(
    status: ScanStatus, totalBrokers: int, completedBrokers: int, foundCount: int, removedCount: int,
    pendingCount: int, failedCount: int, requests: map<string, Request>)

  const FRESH := Scan(ScanStatus.Pending, 0, 0, 0, 0, 0, 0, map[])

  /** What a send or a form submission does: the page it ends on, or an error. */
  datatype Attempt = Delivered(pageText: string) | Raised(error: string)

  datatype World = World(email: string -> Attempt, form: string -> Attempt)

  datatype Result = Ok | ValueError

  // ------------------------------------------------------------- one broker

  function MethodFor(b: Broker): Method {
    if b.removalMethod == "email" then Email
    else if b.removalMethod == "web_form" || b.removalMethod == "both" then WebForm
    else Manual
  }

  predicate UsesEmail(b: Broker) {
    b.removalMethod == "email" || b.removalMethod == "both"
  }

  predicate UsesForm(b: Broker) {
    b.removalMethod == "web_form" || b.removalMethod == "both"
  }

  /** The error that ends a broker's turn; the form is tried only after the
      email went out. */
  function ErrorOf(b: Broker, w: World): Option<string> {
    if UsesEmail(b) && w.email(b.id).Raised? then Some(w.email(b.id).error)
    else if UsesForm(b) && w.form(b.id).Raised? then Some(w.form(b.id).error)
    else None
  }

  /** Messages delivered for a broker. */
  function DeliveriesOf(b: Broker, w: World): nat {
    if UsesEmail(b) && w.email(b.id).Raised? then 0
    else (if UsesEmail(b) then 1 else 0) + if UsesForm(b) && w.form(b.id).Delivered? then 1 else 0
  }

  function RowOf(requests: map<string, Request>, b: Broker): Request {
    if b.id in requests then requests[b.id] else Request(RequestStatus.Pending, MethodFor(b), "", "", 0)
  }

  function FailedRow(r: Request, error: string): Request {
    r.(status := RequestStatus.Failed, errorMessage := error, retryCount := r.retryCount + 1)
  }

  /** A form was accepted; the page it ended on, if any, is the confirmation. */
  function Submitted(r: Request, pageText: string): Request {
    if pageText == "" then r.(status := Sent)
    else r.(status := Sent, confirmationCode := Records.Truncate(pageText, 200))
  }

  /** The request row that a broker's turn leaves. */
  function FinalRow(r: Request, b: Broker, w: World): Request {
    var error := ErrorOf(b, w);
    if error.Some? then FailedRow(r, error.value).(via := MethodFor(b))
    else if UsesForm(b) && w.form(b.id).Delivered? then Submitted(r, w.form(b.id).pageText)
    else if UsesEmail(b) || UsesForm(b) then r.(status := Sent)
    else if b.removalMethod == "manual" then r.(status := NeedsManual)
    else r
  }

  function AfterBroker(s: Scan, b: Broker, w: World): Scan {
    s.(requests := s.requests[b.id := FinalRow(RowOf(s.requests, b), b, w)],
       removedCount := s.removedCount + DeliveriesOf(b, w),
       failedCount := s.failedCount + (if ErrorOf(b, w).Some? then 1 else 0),
       foundCount := s.foundCount + (if b.removalMethod == "manual" then 1 else 0),
       completedBrokers := s.completedBrokers + 1)
  }

  function Swept(s: Scan, brokers: seq<Broker>, w: World): Scan {
    if brokers == [] then s
    else AfterBroker(Swept(s, brokers[..|brokers| - 1], w), brokers[|brokers| - 1], w)
  }

  function ActiveOf(table: seq<Broker>): seq<Broker> {
    if table == [] then []
    else ActiveOf(table[..|table| - 1]) + if table[|table| - 1].isActive then [table[|table| - 1]] else []
  }

  /** How many requests have a status. */
  function RowsWith(requests: map<string, Request>, status: RequestStatus): nat {
    |set id | id in requests && requests[id].status == status|
  }

  function Finished(s: Scan): Scan {
    s.(status := ScanStatus.Completed, pendingCount := RowsWith(s.requests, NeedsManual))
  }

  /** A scan after a run over the active brokers. */
  function AfterScan(s: Scan, brokers: seq<Broker>, w: World): Scan {
    Finished(Swept(s.(status := ScanStatus.Running, totalBrokers := |brokers|), brokers, w))
  }

  class Engine {
    var status: ScanStatus
    var totalBrokers: int
    var completedBrokers: int
    var foundCount: int
    var removedCount: int
    var pendingCount: int
    var failedCount: int
    var requests: map<string, Request>

    function View(): Scan
      reads this
    {
      Scan(status, totalBrokers, completedBrokers, foundCount, removedCount, pendingCount, failedCount, requests)
    }

    constructor (scan: Scan)
      ensures View() == scan
    {
      status, totalBrokers, completedBrokers := scan.status, scan.totalBrokers, scan.completedBrokers;
      foundCount, removedCount, pendingCount, failedCount := scan.foundCount, scan.removedCount, scan.pendingCount, scan.failedCount;
      requests := scan.requests;
    }

    /** The e-mail half of `_process_broker`: the row it leaves, and its error. */
    method SendEmail(broker: Broker, removal: Request, w: World) returns (row: Request, raised: Option<string>)
      modifies `requests, `removedCount
      ensures raised == if w.email(broker.id).Raised? then Some(w.email(broker.id).error) else None
      ensures row == if raised.Some? then FailedRow(removal, raised.value) else removal.(status := Sent)
      ensures requests == old(requests)[broker.id := row]
      ensures removedCount == old(removedCount) + if raised.None? then 1 else 0
    {
      var sent := w.email(broker.id);
      if sent.Raised? {
        row, raised := FailedRow(removal, sent.error), Some(sent.error);
        requests := requests[broker.id := row];
        return;
      }
      row, raised := removal.(status := Sent), None;
      requests := requests[broker.id := row];
      removedCount := removedCount + 1;
    }

    /** The form half of `_process_broker`. */
    method SubmitForm(broker: Broker, removal: Request, w: World) returns (row: Request, raised: Option<string>)
      modifies `requests, `removedCount
      ensures raised == if w.form(broker.id).Raised? then Some(w.form(broker.id).error) else None
      ensures row == if raised.Some? then FailedRow(removal, raised.value) else Submitted(removal, w.form(broker.id).pageText)
      ensures requests == old(requests)[broker.id := row]
      ensures removedCount == old(removedCount) + if raised.None? then 1 else 0
    {
      var submitted := w.form(broker.id);
      if submitted.Raised? {
        row, raised := FailedRow(removal, submitted.error), Some(submitted.error);
        requests := requests[broker.id := row];
        return;
      }
      row, raised := removal.(status := Sent), None;
      if submitted.pageText != "" {
        row := row.(confirmationCode := Records.Truncate(submitted.pageText, 200));
      }
      requests := requests[broker.id := row];
      removedCount := removedCount + 1;
    }

    /** `_process_broker`: the error it raises, if any. */
    method ProcessBroker(broker: Broker, w: World) returns (raised: Option<string>)
      modifies `requests, `removedCount, `foundCount, `completedBrokers
      ensures raised == ErrorOf(broker, w)
      ensures raised.None? ==> View() == AfterBroker(old(View()), broker, w)
      ensures raised.Some? ==> View() == old(View()).(
        requests := old(requests)[broker.id := FailedRow(RowOf(old(requests), broker), raised.value)],
        removedCount := old(removedCount) + DeliveriesOf(broker, w))
    {
      if broker.id !in requests {
        requests := requests[broker.id := Request(RequestStatus.Pending, MethodFor(broker), "", "", 0)];
      }
      var removal := requests[broker.id];
      assert removal == RowOf(old(requests), broker) && requests == old(requests)[broker.id := removal];
      raised := None;
      if broker.removalMethod == "email" || broker.removalMethod == "both" {
        removal, raised := SendEmail(broker, removal, w);
        assert requests == old(requests)[broker.id := removal];
        if raised.Some? {
          return;
        }
      }
      if broker.removalMethod == "web_form" || broker.removalMethod == "both" {
        removal, raised := SubmitForm(broker, removal, w);
        assert requests == old(requests)[broker.id := removal];
        if raised.Some? {
          return;
        }
      }
      if broker.removalMethod == "manual" {
        removal := removal.(status := NeedsManual);
        requests := requests[broker.id := removal];
        foundCount := foundCount + 1;
      }
      completedBrokers := completedBrokers + 1;
      assert removal == FinalRow(RowOf(old(requests), broker), broker, w);
      assert requests == old(requests)[broker.id := removal];
    }

    /** One broker's turn in `run`: an error raised by `_process_broker` is
        counted and recorded, and the loop goes on. */
    method TakeTurn(broker: Broker, w: World)
      modifies `requests, `removedCount, `foundCount, `completedBrokers, `failedCount
      ensures View() == AfterBroker(old(View()), broker, w)
    {
      var raised := ProcessBroker(broker, w);
      if raised.Some? {
        failedCount := failedCount + 1;
        var row := RowOf(requests, broker);
        requests := requests[broker.id :=
          row.(status := RequestStatus.Failed, via := MethodFor(broker), errorMessage := raised.value)];
        completedBrokers := completedBrokers + 1;
      }
    }

    /** `run`: refused while running and once completed. */
    method Run(table: seq<Broker>, w: World) returns (result: Result)
      modifies this
      ensures result.ValueError? <==> old(status) == ScanStatus.Running || old(status) == ScanStatus.Completed
      ensures View() == if result.ValueError? then old(View()) else AfterScan(old(View()), ActiveOf(table), w)
      ensures result.Ok? && DistinctIds(table) ==>
        RowsOfTable(old(requests), requests, table, w) && CountersOfTable(old(View()), View(), table, w)
    {
      if DistinctIds(table) {
        ScanCoversTable(View(), table, w);
      }
      if status == ScanStatus.Running || status == ScanStatus.Completed {
        return ValueError;
      }
      status := ScanStatus.Running;
      var brokers := ActiveOf(table);
      totalBrokers := |brokers|;
      ghost var started := View();
      for i := 0 to |brokers|
        invariant View() == Swept(started, brokers[..i], w)
      {
        var broker := brokers[i];
        assert brokers[..i + 1][..i] == brokers[..i];
        TakeTurn(broker, w);
      }
      assert brokers[..|brokers|] == brokers;
      status := ScanStatus.Completed;
      pendingCount := |set id | id in requests && requests[id].status == NeedsManual|;
      result := Ok;
    }
  }

  // ------------------------------------------------------------- counters

  function Fails(w: World): Broker -> bool {
    (b: Broker) => ErrorOf(b, w).Some?
  }

  function IsManual(): Broker -> bool {
    (b: Broker) => b.removalMethod == "manual"
  }

  /** One message was delivered and nothing failed. */
  function SentOnce(w: World): Broker -> bool {
    (b: Broker) => ErrorOf(b, w).None? && (b.removalMethod == "email" || b.removalMethod == "web_form")
  }

  function SentTwice(w: World): Broker -> bool {
    (b: Broker) => ErrorOf(b, w).None? && b.removalMethod == "both"
  }

  /** The form failed after the email had been sent. */
  function HalfSent(w: World): Broker -> bool {
    (b: Broker) => b.removalMethod == "both" && w.email(b.id).Delivered? && w.form(b.id).Raised?
  }

  ghost predicate DistinctIds(brokers: seq<Broker>) {
    forall i, j | 0 <= i < j < |brokers| :: brokers[i].id != brokers[j].id
  }

  /** Each counter grows by the brokers that move it, whatever the scan held. */
  lemma {:induction false} CountersGrow(s: Scan, brokers: seq<Broker>, w: World)
    ensures var r := Swept(s, brokers, w);
      && r.completedBrokers == s.completedBrokers + |brokers|
      && r.failedCount == s.failedCount + CountIf(brokers, Fails(w))
      && r.foundCount == s.foundCount + CountIf(brokers, IsManual())
      && r.removedCount == s.removedCount + CountIf(brokers, SentOnce(w)) + 2 * CountIf(brokers, SentTwice(w)) + CountIf(brokers, HalfSent(w))
      && r.status == s.status && r.totalBrokers == s.totalBrokers
  {
    if brokers != [] {
      CountersGrow(s, brokers[..|brokers| - 1], w);
    }
  }

  // ------------------------------------------------------------- request rows

  /** Every broker's row is its final row, and no other row moves. */
  ghost predicate RowsSettled(before: map<string, Request>, after: map<string, Request>, brokers: seq<Broker>,
                              w: World) {
    && (forall i | 0 <= i < |brokers| ::
          brokers[i].id in after && after[brokers[i].id] == FinalRow(RowOf(before, brokers[i]), brokers[i], w))
    && (forall id | id in after :: RowExplained(before, after, brokers, id))
  }

  ghost predicate RowExplained(before: map<string, Request>, after: map<string, Request>,
                               brokers: seq<Broker>, id: string)
    requires id in after
  {
    (exists i :: 0 <= i < |brokers| && brokers[i].id == id) || (id in before && after[id] == before[id])
  }

  lemma {:induction false} OtherRowExplained(before: map<string, Request>, mid: map<string, Request>,
                                        after: map<string, Request>,
                                             brokers: seq<Broker>, b: Broker, id: string)
    requires id in mid && id in after && after[id] == mid[id]
    requires RowExplained(before, mid, brokers, id)
    ensures RowExplained(before, after, brokers + [b], id)
  {
    if i :| 0 <= i < |brokers| && brokers[i].id == id {
      assert (brokers + [b])[i].id == id;
    }
  }

  /** One more broker's turn. */
  lemma {:induction false} OneMoreRow(before: map<string, Request>, mid: map<string, Request>,
                                      brokers: seq<Broker>, b: Broker, w: World)
    requires RowsSettled(before, mid, brokers, w) && DistinctIds(brokers + [b])
    requires before.Keys <= mid.Keys
    ensures RowsSettled(before, mid[b.id := FinalRow(RowOf(mid, b), b, w)], brokers + [b], w)
  {
    var all, after := brokers + [b], mid[b.id := FinalRow(RowOf(mid, b), b, w)];
    var n := |brokers|;
    assert all[n] == b && forall i | 0 <= i < n :: all[i] == brokers[i] && all[i].id != all[n].id;
    assert RowOf(mid, b) == RowOf(before, b);
    forall i | 0 <= i <= n
      ensures all[i].id in after && after[all[i].id] == FinalRow(RowOf(before, all[i]), all[i], w)
    {
      assert i < n ==> brokers[i].id in mid && after[all[i].id] == mid[brokers[i].id];
    }
    forall id | id in after ensures RowExplained(before, after, all, id) {
      if id == b.id {
        assert all[n].id == id;
      } else {
        OtherRowExplained(before, mid, after, brokers, b, id);
      }
    }
  }

  lemma {:induction false} RowsAreSettled(s: Scan, brokers: seq<Broker>, w: World)
    requires DistinctIds(brokers)
    ensures RowsSettled(s.requests, Swept(s, brokers, w).requests, brokers, w)
    ensures s.requests.Keys <= Swept(s, brokers, w).requests.Keys
  {
    if brokers != [] {
      var n := |brokers| - 1;
      RowsAreSettled(s, brokers[..n], w);
      PrefixEnds(brokers, |brokers|);
      assert brokers[..|brokers|] == brokers;
      OneMoreRow(s.requests, Swept(s, brokers[..n], w).requests, brokers[..n], brokers[n], w);
    }
  }

  function HasStatus(requests: map<string, Request>, status: RequestStatus): Broker -> bool {
    (b: Broker) => b.id in requests && requests[b.id].status == status
  }

  ghost function IdsWith(requests: map<string, Request>, status: RequestStatus,
                         brokers: seq<Broker>): (ids: set<string>)
    ensures forall i | 0 <= i < |brokers| && HasStatus(requests, status)(brokers[i]) :: brokers[i].id in ids
    ensures forall id | id in ids :: exists i :: 0 <= i < |brokers| && brokers[i].id == id && HasStatus(requests, status)(brokers[i])
  {
    if brokers == [] then {}
    else
      var n := |brokers| - 1;
      var fewer := IdsWith(requests, status, brokers[..n]);
      if HasStatus(requests, status)(brokers[n]) then fewer + {brokers[n].id} else fewer
  }

  lemma {:induction false} IdsAreCounted(requests: map<string, Request>, status: RequestStatus, brokers: seq<Broker>)
    requires DistinctIds(brokers)
    ensures |IdsWith(requests, status, brokers)| == CountIf(brokers, HasStatus(requests, status))
  {
    if brokers != [] {
      var n := |brokers| - 1;
      IdsAreCounted(requests, status, brokers[..n]);
      assert brokers[n].id !in IdsWith(requests, status, brokers[..n]);
    }
  }

  /** When the rows are exactly the brokers', counting rows counts brokers. */
  lemma {:induction false} RowsAreCounted(requests: map<string, Request>, status: RequestStatus, brokers: seq<Broker>)
    requires DistinctIds(brokers)
    requires forall id | id in requests :: exists i :: 0 <= i < |brokers| && brokers[i].id == id
    ensures RowsWith(requests, status) == CountIf(brokers, HasStatus(requests, status))
  {
    IdsAreCounted(requests, status, brokers);
    var rows := set id | id in requests && requests[id].status == status;
    forall id | id in rows ensures id in IdsWith(requests, status, brokers) {
      var i :| 0 <= i < |brokers| && brokers[i].id == id;
      assert HasStatus(requests, status)(brokers[i]);
    }
    assert rows == IdsWith(requests, status, brokers);
  }

  /** The four methods the engine knows. */
  predicate KnownMethod(b: Broker) {
    UsesEmail(b) || UsesForm(b) || b.removalMethod == "manual"
  }

  function UnknownMethod(): Broker -> bool {
    (b: Broker) => !KnownMethod(b)
  }

  /** What a broker's turn makes of a request that did not exist before. */
  lemma {:induction false} FreshRow(b: Broker, w: World)
    ensures var status := FinalRow(RowOf(map[], b), b, w).status;
      && (status == RequestStatus.Failed <==> Fails(w)(b))
      && (status == NeedsManual <==> IsManual()(b))
      && (status == RequestStatus.Pending <==> UnknownMethod()(b))
      && (status == Sent && b.removalMethod != "both" <==> SentOnce(w)(b))
      && (status == Sent && b.removalMethod == "both" <==> SentTwice(w)(b))
      && (status == RequestStatus.Failed && b.removalMethod == "both" && w.email(b.id).Delivered? <==> HalfSent(w)(b))
  {
  }

  function SentSingly(requests: map<string, Request>): Broker -> bool {
    (b: Broker) => HasStatus(requests, Sent)(b) && b.removalMethod != "both"
  }

  function SentDoubly(requests: map<string, Request>): Broker -> bool {
    (b: Broker) => HasStatus(requests, Sent)(b) && b.removalMethod == "both"
  }

  function FailedAfterEmail(requests: map<string, Request>, w: World): Broker -> bool {
    (b: Broker) => HasStatus(requests, RequestStatus.Failed)(b) && b.removalMethod == "both" && w.email(b.id).Delivered?
  }

  /** After a run of a fresh scan, whatever fails: one request per active
      broker, and the counters add up with the request rows. A request is left
      pending exactly for a broker whose removal method is none of the four. */
  lemma {:induction false} FreshScanReconciles(brokers: seq<Broker>, w: World)
    requires DistinctIds(brokers)
    ensures var r := AfterScan(FRESH, brokers, w);
      && r.requests.Keys == (set b | b in brokers :: b.id)
      && r.completedBrokers == r.totalBrokers == |brokers| == |r.requests|
      && r.failedCount == RowsWith(r.requests, RequestStatus.Failed)
      && r.foundCount == r.pendingCount == RowsWith(r.requests, NeedsManual)
      && r.removedCount == CountIf(brokers, SentSingly(r.requests)) + 2 * CountIf(brokers, SentDoubly(r.requests))
                           + CountIf(brokers, FailedAfterEmail(r.requests, w))
      && RowsWith(r.requests, RequestStatus.Pending) == CountIf(brokers, UnknownMethod())
      && RowsWith(r.requests, Sent) + RowsWith(r.requests, RequestStatus.Failed) + RowsWith(r.requests, NeedsManual)
           + RowsWith(r.requests, RequestStatus.Pending) == r.totalBrokers
  {
    var start := FRESH.(status := ScanStatus.Running, totalBrokers := |brokers|);
    var q := Swept(start, brokers, w).requests;
    CountersGrow(start, brokers, w);
    RowsAreSettled(start, brokers, w);
    assert FreshRows(q, brokers, w) by {
      forall id | id in q ensures exists i :: 0 <= i < |brokers| && brokers[i].id == id {
        assert RowExplained(map[], q, brokers, id);
      }
    }
    FreshTallies(q, brokers, w);
    FreshDeliveries(q, brokers, w);
    FreshKeys(q, brokers);
  }

  ghost predicate FreshRows(q: map<string, Request>, brokers: seq<Broker>, w: World) {
    && (forall i | 0 <= i < |brokers| ::
          brokers[i].id in q && q[brokers[i].id] == FinalRow(RowOf(map[], brokers[i]), brokers[i], w))
    && (forall id | id in q :: exists i :: 0 <= i < |brokers| && brokers[i].id == id)
  }

  lemma {:induction false} FreshTallies(q: map<string, Request>, brokers: seq<Broker>, w: World)
    requires DistinctIds(brokers) && FreshRows(q, brokers, w)
    ensures RowsWith(q, RequestStatus.Failed) == CountIf(brokers, Fails(w))
    ensures RowsWith(q, NeedsManual) == CountIf(brokers, IsManual())
    ensures RowsWith(q, RequestStatus.Pending) == CountIf(brokers, UnknownMethod())
    ensures RowsWith(q, Sent) + RowsWith(q, RequestStatus.Failed) + RowsWith(q, NeedsManual) + RowsWith(q, RequestStatus.Pending) == |brokers|
  {
    forall i | 0 <= i < |brokers|
      ensures InFourStatuses(q, brokers[i])
      ensures HasStatus(q, RequestStatus.Failed)(brokers[i]) <==> Fails(w)(brokers[i])
      ensures HasStatus(q, NeedsManual)(brokers[i]) <==> IsManual()(brokers[i])
      ensures HasStatus(q, RequestStatus.Pending)(brokers[i]) <==> UnknownMethod()(brokers[i])
    {
      FreshRow(brokers[i], w);
    }
    RowsAreCounted(q, RequestStatus.Failed, brokers);
    RowsAreCounted(q, NeedsManual, brokers);
    RowsAreCounted(q, RequestStatus.Pending, brokers);
    RowsAreCounted(q, Sent, brokers);
    CountSame(brokers, brokers, HasStatus(q, RequestStatus.Failed), Fails(w));
    CountSame(brokers, brokers, HasStatus(q, NeedsManual), IsManual());
    CountSame(brokers, brokers, HasStatus(q, RequestStatus.Pending), UnknownMethod());
    FourWays(q, brokers);
  }

  lemma {:induction false} FreshDelivery(q: map<string, Request>, b: Broker, w: World)
    requires b.id in q && q[b.id] == FinalRow(RowOf(map[], b), b, w)
    ensures SentSingly(q)(b) <==> SentOnce(w)(b)
    ensures SentDoubly(q)(b) <==> SentTwice(w)(b)
    ensures FailedAfterEmail(q, w)(b) <==> HalfSent(w)(b)
  {
    FreshRow(b, w);
    assert HasStatus(q, Sent)(b) <==> q[b.id].status == Sent;
    assert HasStatus(q, RequestStatus.Failed)(b) <==> q[b.id].status == RequestStatus.Failed;
  }

  lemma {:induction false} FreshDeliveries(q: map<string, Request>, brokers: seq<Broker>, w: World)
    requires FreshRows(q, brokers, w)
    ensures CountIf(brokers, SentSingly(q)) == CountIf(brokers, SentOnce(w))
    ensures CountIf(brokers, SentDoubly(q)) == CountIf(brokers, SentTwice(w))
    ensures CountIf(brokers, FailedAfterEmail(q, w)) == CountIf(brokers, HalfSent(w))
  {
    forall i | 0 <= i < |brokers|
      ensures SentSingly(q)(brokers[i]) <==> SentOnce(w)(brokers[i])
      ensures SentDoubly(q)(brokers[i]) <==> SentTwice(w)(brokers[i])
      ensures FailedAfterEmail(q, w)(brokers[i]) <==> HalfSent(w)(brokers[i])
    {
      FreshDelivery(q, brokers[i], w);
    }
    CountSame(brokers, brokers, SentSingly(q), SentOnce(w));
    CountSame(brokers, brokers, SentDoubly(q), SentTwice(w));
    CountSame(brokers, brokers, FailedAfterEmail(q, w), HalfSent(w));
  }

  predicate InFourStatuses(q: map<string, Request>, b: Broker) {
    b.id in q && q[b.id].status in {Sent, RequestStatus.Failed, NeedsManual, RequestStatus.Pending}
  }

  lemma {:induction false} FourWays(q: map<string, Request>, brokers: seq<Broker>)
    requires forall i | 0 <= i < |brokers| :: InFourStatuses(q, brokers[i])
    ensures CountIf(brokers, HasStatus(q, Sent)) + CountIf(brokers, HasStatus(q, RequestStatus.Failed))
      + CountIf(brokers, HasStatus(q, NeedsManual)) + CountIf(brokers, HasStatus(q, RequestStatus.Pending)) == |brokers|
  {
    if brokers != [] {
      var n := |brokers| - 1;
      assert forall i | 0 <= i < n :: brokers[..n][i] == brokers[i];
      FourWays(q, brokers[..n]);
      assert InFourStatuses(q, brokers[n]);
    }
  }

  lemma {:induction false} FreshKeys(q: map<string, Request>, brokers: seq<Broker>)
    requires DistinctIds(brokers)
    requires forall i | 0 <= i < |brokers| :: brokers[i].id in q
    requires forall id | id in q :: exists i :: 0 <= i < |brokers| && brokers[i].id == id
    ensures q.Keys == (set b | b in brokers :: b.id) && |q| == |brokers|
  {
    IdSetHasSize(brokers);
    assert q.Keys == set b | b in brokers :: b.id;
  }

  lemma {:induction false} IdSetHasSize(brokers: seq<Broker>)
    requires DistinctIds(brokers)
    ensures |set b | b in brokers :: b.id| == |brokers|
  {
    if brokers != [] {
      var n := |brokers| - 1;
      IdSetHasSize(brokers[..n]);
      var fewer := set b | b in brokers[..n] :: b.id;
      assert brokers[n].id !in fewer;
      assert (set b | b in brokers :: b.id) == fewer + {brokers[n].id};
    }
  }

  // ------------------------------------------------------------- the broker table

  /** Positions in the table, in its order, of exactly the active brokers. */
  ghost predicate PicksActive(table: seq<Broker>, picks: seq<nat>) {
    && (forall k | 0 <= k < |picks| :: picks[k] < |table| && table[picks[k]].isActive)
    && (forall j, k | 0 <= j < k < |picks| :: picks[j] < picks[k])
    && (forall i | 0 <= i < |table| && table[i].isActive :: i in picks)
  }

  ghost predicate Selects(table: seq<Broker>, picks: seq<nat>, selected: seq<Broker>) {
    && |selected| == |picks|
    && forall k | 0 <= k < |picks| :: picks[k] < |table| && selected[k] == table[picks[k]]
  }

  /** A run sweeps exactly the active brokers, in the order of the table. */
  lemma {:induction false} SweepsActiveInOrder(table: seq<Broker>) returns (picks: seq<nat>)
    ensures PicksActive(table, picks) && Selects(table, picks, ActiveOf(table))
  {
    picks := [];
    if table != [] {
      var n := |table| - 1;
      var before := SweepsActiveInOrder(table[..n]);
      picks := before + if table[n].isActive then [n] else [];
      PicksOneMore(table, n, before, picks);
      SelectsOneMore(table, n, before, picks, ActiveOf(table[..n]));
    }
  }

  lemma {:induction false} PicksOneMore(table: seq<Broker>, n: nat, before: seq<nat>, picks: seq<nat>)
    requires |table| == n + 1 && PicksActive(table[..n], before)
    requires picks == before + if table[n].isActive then [n] else []
    ensures PicksActive(table, picks)
  {
    forall i | 0 <= i < |table| && table[i].isActive ensures i in picks {
      if i < n {
        assert table[..n][i].isActive;
        assert i in before;
      } else {
        assert picks[|before|] == n;
      }
    }
  }

  lemma {:induction false} SelectsOneMore(table: seq<Broker>, n: nat, before: seq<nat>, picks: seq<nat>, selected: seq<Broker>)
    requires |table| == n + 1 && Selects(table[..n], before, selected)
    requires picks == before + if table[n].isActive then [n] else []
    ensures Selects(table, picks, selected + if table[n].isActive then [table[n]] else [])
  {
  }

  function IsActive(): Broker -> bool {
    (b: Broker) => b.isActive
  }

  /** The e-mail of an active broker went out. */
  function EmailSent(w: World): Broker -> bool {
    (b: Broker) => b.isActive && b.removalMethod in {"email", "both"} && w.email(b.id).Delivered?
  }

  /** The form of an active broker was accepted; "both" tries it only after the e-mail. */
  function FormSent(w: World): Broker -> bool {
    (b: Broker) => b.isActive && w.form(b.id).Delivered?
      && (b.removalMethod == "web_form" || (b.removalMethod == "both" && w.email(b.id).Delivered?))
  }

  /** An active broker's e-mail failed, or its form did. */
  function TurnFails(w: World): Broker -> bool {
    (b: Broker) => b.isActive
      && ((b.removalMethod in {"email", "both"} && w.email(b.id).Raised?)
          || (b.removalMethod in {"web_form", "both"} && w.form(b.id).Raised?))
  }

  function ByHand(): Broker -> bool {
    (b: Broker) => b.isActive && b.removalMethod == "manual"
  }

  /** The request that is created for a broker without one. */
  function PendingFor(b: Broker): Request {
    Request(RequestStatus.Pending,
            if b.removalMethod == "email" then Email else if b.removalMethod in {"web_form", "both"} then WebForm else Manual,
            "", "", 0)
  }

  /** What a broker's turn makes of its request: FAILED with the first error,
      one more retry and the broker's method; SENT, under the first 200
      characters of the form's page if there is any; NEEDS_MANUAL; or as it was. */
  function TurnRow(r: Request, b: Broker, w: World): Request {
    var failed := if b.removalMethod in {"email", "both"} && w.email(b.id).Raised? then w.email(b.id)
                  else if b.removalMethod in {"web_form", "both"} then w.form(b.id) else Delivered("");
    if failed.Raised?
    then Request(RequestStatus.Failed, if b.removalMethod == "email" then Email else WebForm,
                 r.confirmationCode, failed.error, r.retryCount + 1)
    else if b.removalMethod in {"email", "web_form", "both"}
    then Request(Sent, r.via,
                 if failed.pageText == "" then r.confirmationCode
                 else if |failed.pageText| > 200 then failed.pageText[..200] else failed.pageText,
                 r.errorMessage, r.retryCount)
    else if b.removalMethod == "manual" then Request(NeedsManual, r.via, r.confirmationCode, r.errorMessage, r.retryCount)
    else r
  }

  lemma {:induction false} TurnLeaves(requests: map<string, Request>, b: Broker, w: World)
    ensures FinalRow(RowOf(requests, b), b, w)
      == TurnRow(if b.id in requests then requests[b.id] else PendingFor(b), b, w)
  {
  }

  /** Some active broker of the table has this id. */
  ghost predicate ActiveId(table: seq<Broker>, id: string) {
    exists i :: 0 <= i < |table| && table[i].id == id && table[i].isActive
  }

  /** Every active broker has had its turn, and no other request moved. */
  ghost predicate RowsOfTable(before: map<string, Request>, after: map<string, Request>, table: seq<Broker>, w: World) {
    && (forall i | 0 <= i < |table| && table[i].isActive ::
          && table[i].id in after
          && after[table[i].id]
               == TurnRow(if table[i].id in before then before[table[i].id] else PendingFor(table[i]), table[i], w))
    && (forall id | !ActiveId(table, id) :: (id in after <==> id in before) && (id in after ==> after[id] == before[id]))
  }

  ghost predicate CountersOfTable(before: Scan, after: Scan, table: seq<Broker>, w: World) {
    && after.totalBrokers == CountIf(table, IsActive())
    && after.completedBrokers == before.completedBrokers + CountIf(table, IsActive())
    && after.removedCount == before.removedCount + CountIf(table, EmailSent(w)) + CountIf(table, FormSent(w))
    && after.failedCount == before.failedCount + CountIf(table, TurnFails(w))
    && after.foundCount == before.foundCount + CountIf(table, ByHand())
    && after.pendingCount == |set id | id in after.requests && after.requests[id].status == NeedsManual|
    && after.status == ScanStatus.Completed
  }

  lemma {:induction false} SweptCounters(s: Scan, table: seq<Broker>, w: World)
    ensures var r := Swept(s, ActiveOf(table), w);
      && |ActiveOf(table)| == CountIf(table, IsActive())
      && r.completedBrokers == s.completedBrokers + CountIf(table, IsActive())
      && r.removedCount == s.removedCount + CountIf(table, EmailSent(w)) + CountIf(table, FormSent(w))
      && r.failedCount == s.failedCount + CountIf(table, TurnFails(w))
      && r.foundCount == s.foundCount + CountIf(table, ByHand())
      && r.totalBrokers == s.totalBrokers
  {
    if table != [] {
      var n := |table| - 1;
      SweptCounters(s, table[..n], w);
      if table[n].isActive {
        assert ActiveOf(table)[..|ActiveOf(table)| - 1] == ActiveOf(table[..n]);
      } else {
        assert ActiveOf(table) == ActiveOf(table[..n]);
      }
    }
  }

  lemma {:induction false} ActiveIdsAreDistinct(table: seq<Broker>)
    requires DistinctIds(table)
    ensures DistinctIds(ActiveOf(table))
  {
    var picks := SweepsActiveInOrder(table);
  }

  lemma {:induction false} SweptRows(s: Scan, table: seq<Broker>, w: World)
    requires DistinctIds(table)
    ensures RowsOfTable(s.requests, Swept(s, ActiveOf(table), w).requests, table, w)
  {
    var brokers := ActiveOf(table);
    var after := Swept(s, brokers, w).requests;
    var picks := SweepsActiveInOrder(table);
    ActiveIdsAreDistinct(table);
    RowsAreSettled(s, brokers, w);
    forall i | 0 <= i < |table| && table[i].isActive
      ensures table[i].id in after
      ensures after[table[i].id]
        == TurnRow(if table[i].id in s.requests then s.requests[table[i].id] else PendingFor(table[i]), table[i], w)
    {
      var k: nat :| k < |picks| && picks[k] == i;
      assert brokers[k] == table[i];
      TurnLeaves(s.requests, table[i], w);
    }
    forall id | !ActiveId(table, id)
      ensures (id in after <==> id in s.requests) && (id in after ==> after[id] == s.requests[id])
    {
      assert forall k | 0 <= k < |brokers| :: brokers[k].id != id;
      assert id in after ==> RowExplained(s.requests, after, brokers, id);
    }
  }

  /** A run over a table: each active broker's request is what its turn left,
      no other request moved, and every counter grew by the brokers that move it. */
  lemma {:induction false} ScanCoversTable(s: Scan, table: seq<Broker>, w: World)
    requires DistinctIds(table)
    ensures var r := AfterScan(s, ActiveOf(table), w);
      RowsOfTable(s.requests, r.requests, table, w) && CountersOfTable(s, r, table, w)
  {
    var started := s.(status := ScanStatus.Running, totalBrokers := |ActiveOf(table)|);
    SweptRows(started, table, w);
    SweptCounters(started, table, w);
  }

  /** A fresh scan has a request for exactly the active brokers of the table. */
  lemma {:induction false} FreshScanCoversActive(table: seq<Broker>, w: World, id: string)
    requires DistinctIds(table)
    ensures id in AfterScan(FRESH, ActiveOf(table), w).requests <==> ActiveId(table, id)
  {
    ScanCoversTable(FRESH, table, w);
  }
}
