// The GPU phase budget: one-use reservations under a safety ceiling, and the receipts that authorise GPU time.
// Ledger amounts are integer micro-dollars; hours, hourly rates and the safety margin are real numbers.
module GpuBudget {
  import opened Numbers
  import opened Options
  import opened PythonText
  import opened Ledger
  import opened CostLedgers
  import opened LedgerRuns

  const MICRO := 1_000_000.0

  // --- Rounding to ledger precision ---

  function CeilMicro(usd: real): (m: int)
    ensures (m - 1) as real < usd * MICRO <= m as real
  {
    -(-(usd * MICRO)).Floor
  }

  function SafetyCeiling(gpuCap: nat, margin: real): (m: int)
    ensures m as real <= gpuCap as real * (1.0 - margin) < (m + 1) as real
  {
    (gpuCap as real * (1.0 - margin)).Floor
  }

  function HourlyRate(gpuCount: int, perGpu: real, storage: real): real {
    gpuCount as real * perGpu + storage
  }

  // The maximum an approved quote implies; None where the arguments are refused.
  function ApprovedMaximum(gpuCount: int, perGpu: real, storage: real, hours: real): (m: Option<int>)
    ensures m.Some? <==> gpuCount > 0 && perGpu > 0.0 && storage >= 0.0 && hours > 0.0
  {
    if gpuCount <= 0 || perGpu <= 0.0 || storage < 0.0 || hours <= 0.0 then None
    else Some(CeilMicro(HourlyRate(gpuCount, perGpu, storage) * hours))
  }

  // An approved maximum never understates the cost of the approved hours, by less than a micro-dollar, and is positive.
  lemma ApprovedMaximumCovers(gpuCount: int, perGpu: real, storage: real, hours: real)
    requires ApprovedMaximum(gpuCount, perGpu, storage, hours).Some?
    ensures var m := ApprovedMaximum(gpuCount, perGpu, storage, hours).value;
            var cost := (gpuCount as real * perGpu + storage) * hours * 1_000_000.0;
            m > 0 && cost <= m as real < cost + 1.0
  {
    Positive(gpuCount as real, perGpu);
    Positive(HourlyRate(gpuCount, perGpu, storage), hours);
  }

  lemma Positive(x: real, y: real)
    requires x > 0.0 && y > 0.0
    ensures x * y > 0.0
  {
  }

  // --- Identities ---

  // What stable_hash is applied to here.
  datatype Preimage = SessionNonce(session: string) | ReservationKey(phase: string, sessionHash: string)

  type Hash = Preimage -> string

  predicate HexDigit(c: char) {
    '0' <= c <= '9' || 'a' <= c <= 'f'
  }

  predicate IsHash(h: string) {
    |h| == 71 && h[..7] == "sha256:" && forall i :: 7 <= i < 71 ==> HexDigit(h[i])
  }

  ghost predicate Digests(hash: Hash) {
    forall p :: IsHash(hash(p))
  }

  predicate PhaseChar(c: char, first: bool) {
    || 'A' <= c <= 'Z' || 'a' <= c <= 'z' || '0' <= c <= '9'
    || (!first && (c == '_' || c == '.' || c == ':' || c == '-'))
  }

  predicate ValidPhase(phase: string) {
    3 <= |phase| <= 128 && forall i :: 0 <= i < |phase| ==> PhaseChar(phase[i], i == 0)
  }

  predicate ValidSession(session: string) {
    && 0 < |session| <= 512
    && !IsSpace(session[0]) && !IsSpace(session[|session| - 1])
    && forall i :: 0 <= i < |session| ==> session[i] >= ' '
  }

  function Description(phase: string, sessionHash: string): string {
    "GPU phase " + phase + " session " + sessionHash
  }

  // --- Receipts ---

  datatype Receipt = Receipt(
    reservationId: string, phase: string, sessionHash: string,
    phaseMaximum: int, approvedHours: real, hourlyRate: real, margin: real,
    gpuHardStop: int, safeCeiling: int,
    priorIncurredGpu: int, priorReservedGpu: int, priorCommittedGpu: int, priorCommittedTotal: int,
    remainingSafeGpu: int, remainingTotal: int, safeHours: real,
    committedGpuAfter: int, committedTotalAfter: int)
  {
    function description(): string {
      Description(phase, sessionHash)
    }

    function SettlementEntry(amount: int, at: string): CostEntry {
      CostEntry(Gpu, amount, description(), Incurred, at)
    }
  }

  // Within the checks' slack of one micro-dollar.
  predicate Close(a: int, b: int) {
    -1 <= a - b <= 1
  }

  predicate Signs(r: Receipt) {
    && r.phaseMaximum > 0 && r.approvedHours > 0.0 && r.hourlyRate > 0.0 && r.margin > 0.0
    && r.gpuHardStop > 0 && r.safeCeiling > 0 && r.remainingSafeGpu > 0 && r.remainingTotal > 0
    && r.safeHours > 0.0 && r.committedGpuAfter > 0 && r.committedTotalAfter > 0
    && r.priorIncurredGpu >= 0 && r.priorReservedGpu >= 0 && r.priorCommittedGpu >= 0 && r.priorCommittedTotal >= 0
  }

  function SafeSpend(r: Receipt): int {
    Min(r.phaseMaximum, Min(r.remainingSafeGpu, r.remainingTotal))
  }

  function HoursFor(approved: real, spend: int, rate: real): real
    requires rate > 0.0
  {
    MinReal(approved, spend as real / (rate * MICRO))
  }

  predicate Accounted(r: Receipt)
    requires r.hourlyRate > 0.0 && r.gpuHardStop > 0
  {
    var ceiling := SafetyCeiling(r.gpuHardStop, r.margin);
    var hours := HoursFor(r.approvedHours, SafeSpend(r), r.hourlyRate);
    && Close(r.safeCeiling, ceiling)
    && Close(r.priorReservedGpu, r.priorCommittedGpu - r.priorIncurredGpu)
    && Close(r.remainingSafeGpu, ceiling - r.priorCommittedGpu)
    && Close(r.committedGpuAfter, r.priorCommittedGpu + r.phaseMaximum)
    && r.committedGpuAfter <= r.safeCeiling + 1
    && Close(r.committedTotalAfter, r.priorCommittedTotal + r.phaseMaximum)
    && r.committedTotalAfter <= r.priorCommittedTotal + r.remainingTotal + 1
    && -0.000000001 <= r.safeHours - hours <= 0.000000001
  }

  // The checks on a receipt that is loaded or used again.
  predicate ReceiptConsistent(hash: Hash, r: Receipt) {
    && ValidPhase(r.phase) && IsHash(r.sessionHash)
    && r.reservationId == hash(ReservationKey(r.phase, r.sessionHash))
    && Signs(r) && r.margin < 0.25
    && Accounted(r)
  }

  // --- Reserving ---

  datatype GpuError = InvalidArgument | OverCeiling | Refused(error: LedgerError) | GateError | Inactive

  datatype Request = Request(phase: string, session: string, maximum: real, hours: real, rate: real, margin: real)

  datatype Granted = Granted(receipt: Receipt, entries: seq<Entry>)

  predicate ValidRequest(q: Request) {
    && ValidPhase(q.phase) && ValidSession(q.session)
    && q.maximum > 0.0 && q.hours > 0.0 && q.rate > 0.0 && 0.0 < q.margin < 0.25
  }

  function RequestId(hash: Hash, q: Request): string {
    hash(ReservationKey(q.phase, hash(SessionNonce(q.session))))
  }

  function RequestCost(hash: Hash, q: Request, at: string): CostEntry {
    CostEntry(Gpu, CeilMicro(q.maximum), Description(q.phase, hash(SessionNonce(q.session))), Estimated, at)
  }

  function GpuCeilings(ceiling: int): Ceilings {
    NO_CEILINGS.(gpu := Some(ceiling))
  }

  function ReceiptFor(hash: Hash, limits: Limits, q: Request, s: Snapshot): Receipt
    requires q.rate > 0.0
  {
    var maximum, ceiling := CeilMicro(q.maximum), SafetyCeiling(limits.gpu, q.margin);
    var remainingSafe := Max(0, ceiling - s.committedBefore.gpu);
    var remainingTotal := Max(0, limits.total - s.committedBefore.total());
    Receipt(RequestId(hash, q), q.phase, hash(SessionNonce(q.session)),
            maximum, q.hours, q.rate, q.margin, limits.gpu, ceiling,
            s.incurredBefore.gpu, s.committedBefore.gpu - s.incurredBefore.gpu, s.committedBefore.gpu,
              s.committedBefore.total(),
            remainingSafe, remainingTotal,
            HoursFor(q.hours, Min(maximum, Min(remainingSafe, remainingTotal)), q.rate),
            s.committedAfter.gpu, s.committedAfter.total())
  }

  function Reserving(hash: Hash, limits: Limits, entries: seq<Entry>, q: Request,
                     at: string): Result<Granted, GpuError> {
    if !ValidRequest(q) then Err(InvalidArgument)
    else
      var ceiling := SafetyCeiling(limits.gpu, q.margin);
      if CeilMicro(q.maximum) > ceiling then Err(OverCeiling)
      else
        var o := ReserveOnce(limits, entries, RequestId(hash, q), RequestCost(hash, q, at), GpuCeilings(ceiling), true);
        if o.Err? then Err(Refused(o.error))
        else Ok(Granted(ReceiptFor(hash, limits, q, SnapshotOf(entries, o.value)), o.value))
  }

  // One more GPU estimate raises the committed GPU and overall totals by its amount.
  lemma OneMoreGpu(entries: seq<Entry>, e: Entry)
    requires e.kind == Gpu
    ensures TotalsOf(entries + [e], true) == TotalsOf(entries, true).(gpu := Total(entries, Gpu, true) + e.amount)
  {
    assert (entries + [e])[..|entries|] == entries;
  }

  // Exactly when an exclusive GPU reservation is accepted, and what it then adds.
  lemma ExclusiveGpu(limits: Limits, entries: seq<Entry>, id: string, e: CostEntry, ceiling: int)
    requires e.kind == Gpu
    ensures var o := ReserveOnce(limits, entries, id, e, GpuCeilings(ceiling), true);
            && (o.Ok? <==>
                && id != "" && e.status == Estimated && ceiling >= 0 && ValidCost(e)
                && !HasId(entries, id) && !Outstanding(entries, Gpu)
                && Total(entries, Gpu, true) + e.amount <= ceiling
                && WithinLimits(limits, TotalsOf(entries, true).(gpu := Total(entries, Gpu, true) + e.amount)))
            && (o.Ok? ==> o.value == entries + [Normalized(e, Some(id))])
  {
    hide Total, Outstanding, ValidCost, WithinLimits;
    OneMoreGpu(entries, Normalized(e, Some(id)));
  }

  // What a grant has done to the ledger: one new estimate, no other GPU estimate, everything under its ceiling.
  lemma GrantFacts(hash: Hash, limits: Limits, entries: seq<Entry>, q: Request, at: string)
    requires Reserving(hash, limits, entries, q, at).Ok?
    ensures var g := Reserving(hash, limits, entries, q, at).value;
            var r := g.receipt;
            && g.entries == entries + [Normalized(RequestCost(hash, q, at), Some(r.reservationId))]
            && r == ReceiptFor(hash, limits, q, SnapshotOf(entries, g.entries))
            && r.phaseMaximum > 0 && !HasId(entries, r.reservationId) && !Outstanding(entries, Gpu)
            && r.committedGpuAfter == r.priorCommittedGpu + r.phaseMaximum <= r.safeCeiling
            && r.committedTotalAfter == r.priorCommittedTotal + r.phaseMaximum <= limits.total
  {
    hide Total, Outstanding, ReserveOnce, SafetyCeiling, HasId, HoursFor, ValidRequest, CeilMicro;
    ExclusiveGpu(limits, entries, RequestId(hash, q), RequestCost(hash, q, at), SafetyCeiling(limits.gpu, q.margin));
    OneMoreGpu(entries, Normalized(RequestCost(hash, q, at), Some(RequestId(hash, q))));
    assert ValidRequest(q);
    PositiveMaximum(q);
  }

  lemma PositiveMaximum(q: Request)
    requires ValidRequest(q)
    ensures CeilMicro(q.maximum) > 0 && q.rate > 0.0
  {
  }

  method ReserveGpuPhaseBudget(hash: Hash, ledger: CostLedger, q: Request, at: string)
    returns (result: Result<Receipt, GpuError>)
    requires ledger.Valid()
    modifies ledger
    ensures var o := Reserving(hash, ledger.limits, old(ledger.entries), q, at);
            && result == (if o.Ok? then Ok(o.value.receipt) else Err(o.error))
            && ledger.entries == (if o.Ok? then o.value.entries else old(ledger.entries))
  {
    hide ReserveOnce, SafetyCeiling, HoursFor, ValidRequest, CeilMicro, TotalsOf, Outstanding, HasId, ValidLedger;
    if !ValidRequest(q) {
      return Err(InvalidArgument);
    }
    PositiveMaximum(q);
    var maximum := CeilMicro(q.maximum);
    var ceiling := SafetyCeiling(ledger.limits.gpu, q.margin);
    if maximum > ceiling {
      return Err(OverCeiling);
    }
    var sessionHash := hash(SessionNonce(q.session));
    var id := hash(ReservationKey(q.phase, sessionHash));
    var cost := CostEntry(Gpu, maximum, Description(q.phase, sessionHash), Estimated, at);
    ghost var before := ledger.entries;
    var snapshot := ledger.ReserveOnce(id, cost, GpuCeilings(ceiling), true);
    if snapshot.Err? {
      return Err(Refused(snapshot.error));
    }
    GrantFacts(hash, ledger.limits, before, q, at);
    var s := snapshot.value;
    var remainingSafe := Max(0, ceiling - s.committedBefore.gpu);
    var remainingTotal := Max(0, ledger.limits.total - s.committedBefore.total());
    var spend := Min(maximum, Min(remainingSafe, remainingTotal));
    var hours := HoursFor(q.hours, spend, q.rate);
    RequestHours(q);
    PositiveHours(q.hours, spend, q.rate);
    if hours <= 0.0 {
      assert false;
    }
    return Ok(Receipt(id, q.phase, sessionHash, maximum, q.hours, q.rate, q.margin, ledger.limits.gpu, ceiling,
                      s.incurredBefore.gpu, s.committedBefore.gpu - s.incurredBefore.gpu, s.committedBefore.gpu,
                      s.committedBefore.total(), remainingSafe, remainingTotal, hours,
                      s.committedAfter.gpu, s.committedAfter.total()));
  }

  lemma RequestHours(q: Request)
    requires ValidRequest(q)
    ensures q.hours > 0.0
  {
  }

  lemma PositiveHours(approved: real, spend: int, rate: real)
    requires approved > 0.0 && spend > 0 && rate > 0.0
    ensures HoursFor(approved, spend, rate) > 0.0
  {
    assert spend as real / (rate * MICRO) > 0.0;
  }

  // --- What a receipt promises ---

  lemma {:induction false} NothingOutstanding(entries: seq<Entry>, kind: Kind)
    requires !Outstanding(entries, kind)
    ensures Total(entries, kind, true) == Total(entries, kind, false)
  {
    if |entries| > 0 {
      var front := entries[..|entries| - 1];
      forall i | 0 <= i < |front|
        ensures !(front[i].kind == kind && front[i].status == Estimated)
      {
        assert front[i] == entries[i];
      }
      NothingOutstanding(front, kind);
    }
  }

  // Every receipt has no prior reserved GPU cost, and its safe spend is the whole phase maximum.
  lemma GrantSpend(hash: Hash, limits: Limits, entries: seq<Entry>, q: Request, at: string)
    requires Reserving(hash, limits, entries, q, at).Ok?
    ensures var r := Reserving(hash, limits, entries, q, at).value.receipt;
            && r.priorReservedGpu == 0 && SafeSpend(r) == r.phaseMaximum
            && r.remainingSafeGpu == r.safeCeiling - r.priorCommittedGpu
            && r.remainingTotal == limits.total - r.priorCommittedTotal
  {
    GrantFacts(hash, limits, entries, q, at);
    NothingOutstanding(entries, Gpu);
  }

  // Every receipt that is issued passes the checks made when it is used again.
  lemma IssuedReceiptsConsistent(hash: Hash, limits: Limits, entries: seq<Entry>, q: Request, at: string)
    requires Digests(hash) && WellFormedEntries(entries) && Reserving(hash, limits, entries, q, at).Ok?
    ensures ReceiptConsistent(hash, Reserving(hash, limits, entries, q, at).value.receipt)
  {
    var r := Reserving(hash, limits, entries, q, at).value.receipt;
    GrantFacts(hash, limits, entries, q, at);
    GrantSpend(hash, limits, entries, q, at);
    PositiveHours(q.hours, r.phaseMaximum, q.rate);
    forall kind {
      TotalNonNegative(entries, kind);
    }
    CeilingBelowCap(limits.gpu, q.margin);
  }

  lemma CeilingBelowCap(gpuCap: nat, margin: real)
    requires 0.0 < margin < 0.25
    ensures SafetyCeiling(gpuCap, margin) <= gpuCap
    ensures SafetyCeiling(gpuCap, margin) > 0 ==> SafetyCeiling(gpuCap, margin) < gpuCap
  {
    assert gpuCap as real * (1.0 - margin) == gpuCap as real - gpuCap as real * margin;
  }

  lemma SpendBound(spend: int, rate: real, approved: real, elapsed: real)
    requires rate > 0.0 && spend >= 0 && elapsed <= HoursFor(approved, spend, rate)
    ensures rate * elapsed * MICRO <= spend as real
  {
    var r := rate * MICRO;
    assert elapsed <= spend as real / r;
    ScaleBound(spend as real, r, elapsed);
    assert rate * elapsed * MICRO == elapsed * r;
  }

  lemma ScaleBound(s: real, r: real, x: real)
    requires r > 0.0 && x <= s / r
    ensures x * r <= s
  {
    assert (s / r) * r == s;
    assert (s / r - x) * r >= 0.0;
  }

  lemma WithinApproved(approved: real, spend: int, rate: real)
    requires rate > 0.0
    ensures HoursFor(approved, spend, rate) <= approved
  {
  }

  lemma Widen(prior: int, maximum: int, ceiling: int, spent: real)
    requires prior + maximum <= ceiling && spent <= maximum as real
    ensures prior as real + spent <= ceiling as real
  {
  }

  // Running at the live rate for any time up to the safe runtime stays under the safety ceiling and under the total
  // cap.
  lemma RunningIsSafe(hash: Hash, limits: Limits, entries: seq<Entry>, q: Request, at: string, elapsed: real)
    requires Reserving(hash, limits, entries, q, at).Ok?
    requires elapsed <= Reserving(hash, limits, entries, q, at).value.receipt.safeHours
    ensures var r := Reserving(hash, limits, entries, q, at).value.receipt;
            var spent := r.hourlyRate * elapsed * MICRO;
            && r.priorCommittedGpu as real + spent <= r.safeCeiling as real
            && r.safeCeiling as real <= limits.gpu as real * (1.0 - r.margin)
            && r.priorCommittedTotal as real + spent <= limits.total as real
            && elapsed <= r.approvedHours
  {
    hide HoursFor, Outstanding, HasId, TotalsOf, ReserveOnce, ValidPhase, ValidSession, SafetyCeiling, CeilMicro,
      Description;
    var r := Reserving(hash, limits, entries, q, at).value.receipt;
    GrantFacts(hash, limits, entries, q, at);
    GrantSpend(hash, limits, entries, q, at);
    SpendBound(r.phaseMaximum, r.hourlyRate, r.approvedHours, elapsed);
    WithinApproved(r.approvedHours, r.phaseMaximum, r.hourlyRate);
    Widen(r.priorCommittedGpu, r.phaseMaximum, r.safeCeiling, r.hourlyRate * elapsed * MICRO);
    Widen(r.priorCommittedTotal, r.phaseMaximum, limits.total, r.hourlyRate * elapsed * MICRO);
  }

  // Any receipt that passes the checks, issued here or loaded, bounds the spending of its whole safe runtime:
  // the slack in the checks is worth one micro-dollar and a thousandth of an hour's rate in micro-dollars.
  lemma ConsistentReceiptIsSafe(hash: Hash, r: Receipt, elapsed: real)
    requires ReceiptConsistent(hash, r) && elapsed <= r.safeHours
    ensures var ceiling := SafetyCeiling(r.gpuHardStop, r.margin);
            r.priorCommittedGpu as real + r.hourlyRate * elapsed * MICRO <= ceiling as real + 1.0
              + r.hourlyRate / 1000.0
  {
    hide SafetyCeiling, HoursFor, ReceiptConsistent, SafeSpend;
    var spend := SafeSpend(r);
    ConsistentSpend(hash, r);
    SpendBound(spend, r.hourlyRate, r.approvedHours, elapsed - 0.000000001);
    Slack(r.hourlyRate, elapsed);
    Widen(r.priorCommittedGpu, spend, SafetyCeiling(r.gpuHardStop, r.margin) + 1,
          r.hourlyRate * (elapsed - 0.000000001) * MICRO);
  }

  lemma ConsistentSpend(hash: Hash, r: Receipt)
    requires ReceiptConsistent(hash, r)
    ensures r.hourlyRate > 0.0 && r.gpuHardStop > 0 && SafeSpend(r) >= 0
    ensures r.priorCommittedGpu + SafeSpend(r) <= SafetyCeiling(r.gpuHardStop, r.margin) + 1
    ensures r.safeHours - 0.000000001 <= HoursFor(r.approvedHours, SafeSpend(r), r.hourlyRate)
  {
    hide SafetyCeiling, HoursFor, ValidPhase, IsHash;
  }

  lemma Slack(rate: real, elapsed: real)
    ensures rate * elapsed * MICRO == rate * (elapsed - 0.000000001) * MICRO + rate / 1000.0
  {
  }

  // With the quote's own rate and its rounded-up maximum the safe runtime is the whole approved runtime.
  lemma QuotedRuntimeIsWhole(hash: Hash, limits: Limits, entries: seq<Entry>, q: Request, at: string,
                             gpuCount: int, perGpu: real, storage: real)
    requires Reserving(hash, limits, entries, q, at).Ok?
    requires var m := ApprovedMaximum(gpuCount, perGpu, storage, q.hours);
             m.Some? && q.maximum * MICRO == m.value as real
    requires q.rate == gpuCount as real * perGpu + storage
    ensures Reserving(hash, limits, entries, q, at).value.receipt.safeHours == q.hours
  {
    hide ReserveOnce, SafetyCeiling, HoursFor, HourlyRate, TotalsOf, Outstanding, HasId;
    var m := ApprovedMaximum(gpuCount, perGpu, storage, q.hours).value;
    GrantFacts(hash, limits, entries, q, at);
    GrantSpend(hash, limits, entries, q, at);
    ApprovedMaximumCovers(gpuCount, perGpu, storage, q.hours);
    assert CeilMicro(q.maximum) == m;
    assert ValidRequest(q);
    CoveredHours(q.rate, q.hours, m);
  }

  lemma Quotient(s: real, r: real, x: real)
    requires r > 0.0 && x * r <= s
    ensures x <= s / r
  {
    var q := s / r;
    assert q * r == s;
    assert (x - q) * r <= 0.0;
  }

  lemma CoveredHours(rate: real, hours: real, spend: int)
    requires rate > 0.0 && rate * hours * MICRO <= spend as real
    ensures HoursFor(hours, spend, rate) == hours
  {
    var r := rate * MICRO;
    assert rate * hours * MICRO == hours * r;
    Quotient(spend as real, r, hours);
  }

  // --- When a reservation succeeds ---

  predicate NotBlankDescription(phase: string, sessionHash: string) {
    !Blank(Description(phase, sessionHash))
  }

  lemma DescriptionNotBlank(phase: string, sessionHash: string)
    ensures NotBlankDescription(phase, sessionHash)
  {
    assert Description(phase, sessionHash)[0] == 'G';
  }

  // The exact condition under which a GPU phase is granted.
  lemma GrantedIff(hash: Hash, limits: Limits, entries: seq<Entry>, q: Request, at: string)
    requires Digests(hash) && ValidLedger(limits, entries)
    ensures Reserving(hash, limits, entries, q, at).Ok? <==>
            && ValidRequest(q)
            && !HasId(entries, RequestId(hash, q)) && !Outstanding(entries, Gpu)
            && Total(entries, Gpu, true) + CeilMicro(q.maximum) <= SafetyCeiling(limits.gpu, q.margin)
            && TotalsOf(entries, true).total() + CeilMicro(q.maximum) <= limits.total
  {
    hide ReserveOnce, SafetyCeiling, Outstanding, HasId, Total, HoursFor, Blank, IsHash, Description;
    if ValidRequest(q) {
      var ceiling := SafetyCeiling(limits.gpu, q.margin);
      ExclusiveGpu(limits, entries, RequestId(hash, q), RequestCost(hash, q, at), ceiling);
      DescriptionNotBlank(q.phase, hash(SessionNonce(q.session)));
      HashNotEmpty(hash, ReservationKey(q.phase, hash(SessionNonce(q.session))));
      CeilingBelowCap(limits.gpu, q.margin);
      TotalNonNegative(entries, Gpu);
    }
  }

  lemma HashNotEmpty(hash: Hash, p: Preimage)
    requires Digests(hash)
    ensures hash(p) != ""
  {
    assert IsHash(hash(p));
  }

  // A phase and session pair that was granted is refused for the rest of every run, settled or not.
  lemma SessionUsedOnce(hash: Hash, limits: Limits, entries: seq<Entry>, q: Request, at: string, ops: seq<Op>,
                        q': Request, at': string)
    requires Digests(hash) && ValidLedger(limits, entries) && Reserving(hash, limits, entries, q, at).Ok?
    requires q'.phase == q.phase && q'.session == q.session
    ensures Reserving(hash, limits, Run(limits, Reserving(hash, limits, entries, q, at).value.entries, ops),
                      q', at').Err?
  {
    var g := Reserving(hash, limits, entries, q, at).value;
    GrantFacts(hash, limits, entries, q, at);
    ReservingValid(hash, limits, entries, q, at);
    assert g.entries[|entries|].entryId == Some(g.receipt.reservationId);
    RunSafe(limits, g.entries, ops);
    GrowsKeepsIds(g.entries, Run(limits, g.entries, ops), g.receipt.reservationId);
    GrantedIff(hash, limits, Run(limits, g.entries, ops), q', at');
  }

  lemma ReservingValid(hash: Hash, limits: Limits, entries: seq<Entry>, q: Request, at: string)
    requires ValidLedger(limits, entries) && Reserving(hash, limits, entries, q, at).Ok?
    ensures ValidLedger(limits, Reserving(hash, limits, entries, q, at).value.entries)
    ensures Grows(entries, Reserving(hash, limits, entries, q, at).value.entries)
  {
    StepValid(limits, entries, DoReserveOnce(RequestId(hash, q), RequestCost(hash, q, at),
                                             GpuCeilings(SafetyCeiling(limits.gpu, q.margin)), true));
  }
}
