// What a GPU phase reservation and its receipt say of the request and of the ledger.
module GpuDecisions {
  import opened Numbers
  import opened Options
  import opened PythonText
  import opened Ledger
  import LD = LedgerDecisions
  import opened GpuBudget
  import opened GpuSettlement

  // --- Identifiers ---

  ghost predicate AlphaNumeric(c: char) {
    var n := c as int;
    0x30 <= n < 0x30 + 10 || 0x41 <= n < 0x41 + 26 || 0x61 <= n < 0x61 + 26
  }

  // A letter or digit, then 2 to 127 letters, digits, underscores, periods, colons and hyphens.
  ghost predicate PhasePattern(s: string) {
    && s != "" && AlphaNumeric(s[0]) && 2 <= |s[1..]| <= 127
    && forall c :: c in s[1..] ==> AlphaNumeric(c) || c in {'_', '.', ':', '-'}
  }

  // Not blank, without space around it, at most 512 characters, none of them a control character.
  ghost predicate SessionPattern(s: string) {
    && s != "" && !IsSpace(s[0]) && !IsSpace(s[|s| - 1]) && |s| < 513
    && forall c :: c in s ==> c as int >= 32
  }

  lemma PhaseIs(s: string)
    ensures ValidPhase(s) <==> PhasePattern(s)
  {
    if PhasePattern(s) {
      forall i | 0 <= i < |s|
        ensures PhaseChar(s[i], i == 0)
      {
        if i > 0 {
          assert s[1..][i - 1] == s[i] && s[i] in s[1..];
        }
      }
    }
    if ValidPhase(s) {
      assert PhaseChar(s[0], true);
      forall c | c in s[1..]
        ensures AlphaNumeric(c) || c in {'_', '.', ':', '-'}
      {
        var i :| 0 <= i < |s[1..]| && s[1..][i] == c;
        assert PhaseChar(s[i + 1], false);
      }
    }
  }

  lemma SessionIs(s: string)
    ensures ValidSession(s) <==> SessionPattern(s)
  {
    if SessionPattern(s) {
      forall i | 0 <= i < |s|
        ensures s[i] >= ' '
      {
        assert s[i] in s;
      }
    }
  }

  // --- Granting ---

  ghost predicate Sound(q: Request) {
    && PhasePattern(q.phase) && SessionPattern(q.session)
    && q.maximum > 0.0 && q.hours > 0.0 && q.rate > 0.0 && 0.0 < q.margin && q.margin < 0.25
  }

  ghost function KeyOf(hash: Hash, q: Request): string {
    hash(ReservationKey(q.phase, hash(SessionNonce(q.session))))
  }

  // The request is refused as invalid, over the whole ceiling, or by the ledger, in this order; it is granted exactly
  // when its id is new, no GPU estimate is open, and the amount, rounded up to the micro-dollar, fits under the margin
  // of the GPU cap and under the total cap.
  lemma GrantDecided(hash: Hash, limits: Limits, entries: seq<Entry>, q: Request, at: string, amount: int)
    requires Digests(hash) && ValidLedger(limits, entries)
    requires (amount - 1) as real < q.maximum * 1_000_000.0 <= amount as real
    ensures var o := Reserving(hash, limits, entries, q, at);
            && (o == Err(InvalidArgument) <==> !Sound(q))
            && (o == Err(OverCeiling) <==> Sound(q) && amount as real > limits.gpu as real * (1.0 - q.margin))
            && (o.Ok? <==>
                && Sound(q)
                && (forall e :: e in entries ==> e.entryId != Some(KeyOf(hash, q)))
                && (forall e :: e in entries ==> !(e.kind == Gpu && e.status == Estimated))
                && (Total(entries, Gpu, true) + amount) as real <= limits.gpu as real * (1.0 - q.margin)
                && LD.SumOfKinds(entries) + amount <= limits.total)
  {
    hide Total, ReserveOnce, HoursFor, ValidPhase, ValidSession, PhasePattern, SessionPattern, ValidLedger;
    hide SafetyCeiling, CeilMicro;
    PhaseIs(q.phase);
    SessionIs(q.session);
    GrantedIff(hash, limits, entries, q, at);
    CeilUnique(q.maximum, amount);
    FloorIff(SafetyCeiling(limits.gpu, q.margin), limits.gpu as real * (1.0 - q.margin), amount);
    FloorIff(SafetyCeiling(limits.gpu, q.margin), limits.gpu as real * (1.0 - q.margin),
             Total(entries, Gpu, true) + amount);
    OpenAndTaken(entries, KeyOf(hash, q));
  }

  lemma CeilUnique(x: real, amount: int)
    requires (amount - 1) as real < x * 1_000_000.0 <= amount as real
    ensures CeilMicro(x) == amount
  {
  }

  lemma OpenAndTaken(entries: seq<Entry>, id: string)
    ensures HasId(entries, id) <==> exists e :: e in entries && e.entryId == Some(id)
    ensures Outstanding(entries, Gpu) <==> exists e :: e in entries && e.kind == Gpu && e.status == Estimated
  {
    if e :| e in entries && e.entryId == Some(id) {
      var i :| 0 <= i < |entries| && entries[i] == e;
    }
    if e :| e in entries && e.kind == Gpu && e.status == Estimated {
      var i :| 0 <= i < |entries| && entries[i] == e;
    }
  }

  // What a granted receipt and its ledger entry say.
  lemma ReceiptSays(hash: Hash, limits: Limits, entries: seq<Entry>, q: Request, at: string)
    requires Reserving(hash, limits, entries, q, at).Ok?
    ensures var g := Reserving(hash, limits, entries, q, at).value;
            var r := g.receipt;
            && r.phase == q.phase && r.sessionHash == hash(SessionNonce(q.session))
            && r.reservationId == KeyOf(hash, q)
            && r.approvedHours == q.hours && r.hourlyRate == q.rate && r.margin == q.margin
            && r.gpuHardStop == limits.gpu
            && (r.phaseMaximum - 1) as real < q.maximum * 1_000_000.0 <= r.phaseMaximum as real
            && r.safeCeiling as real <= limits.gpu as real * (1.0 - q.margin) < (r.safeCeiling + 1) as real
            && r.priorIncurredGpu == Total(entries, Gpu, false) && r.priorCommittedGpu == Total(entries, Gpu, true)
            && r.priorReservedGpu == Total(entries, Gpu, true) - Total(entries, Gpu, false)
            && r.priorCommittedTotal == LD.SumOfKinds(entries)
            && r.remainingSafeGpu == r.safeCeiling - Total(entries, Gpu, true)
            && r.remainingTotal == limits.total - LD.SumOfKinds(entries)
            && r.committedGpuAfter == Total(g.entries, Gpu, true) && r.committedTotalAfter == LD.SumOfKinds(g.entries)
    ensures var g := Reserving(hash, limits, entries, q, at).value;
            |g.entries| == |entries| + 1 && g.entries[..|entries|] == entries
            && var e := g.entries[|entries|];
               && e.entryId == Some(KeyOf(hash, q)) && e.kind == Gpu && e.amount == g.receipt.phaseMaximum
               && e.status == Estimated && e.occurredAt == at
               && e.description == "GPU phase " + q.phase + " session " + hash(SessionNonce(q.session))
  {
    hide Total, Outstanding, ReserveOnce, SafetyCeiling, HasId, HoursFor, ValidPhase, ValidSession, CeilMicro;
    GrantFacts(hash, limits, entries, q, at);
    GrantSpend(hash, limits, entries, q, at);
  }

  // The safe runtime is the longest within the approved hours whose cost at the live rate is at most the maximum.
  lemma LongestRuntime(hash: Hash, limits: Limits, entries: seq<Entry>, q: Request, at: string, hours: real)
    requires Reserving(hash, limits, entries, q, at).Ok?
    ensures var r := Reserving(hash, limits, entries, q, at).value.receipt;
            hours <= r.safeHours <==> hours <= q.hours && q.rate * hours * 1_000_000.0 <= r.phaseMaximum as real
  {
    hide Total, Outstanding, ReserveOnce, SafetyCeiling, HasId, HoursFor, ValidPhase, ValidSession, CeilMicro;
    var r := Reserving(hash, limits, entries, q, at).value.receipt;
    GrantFacts(hash, limits, entries, q, at);
    GrantSpend(hash, limits, entries, q, at);
    assert ValidRequest(q);
    LongestHours(q.hours, r.phaseMaximum, q.rate, hours);
  }

  lemma LongestHours(approved: real, spend: int, rate: real, hours: real)
    requires rate > 0.0 && spend >= 0
    ensures hours <= HoursFor(approved, spend, rate) <==>
            hours <= approved && rate * hours * 1_000_000.0 <= spend as real
  {
    if hours <= HoursFor(approved, spend, rate) {
      SpendBound(spend, rate, approved, hours);
    }
    if hours <= approved && rate * hours * 1_000_000.0 <= spend as real {
      assert rate * hours * 1_000_000.0 == hours * (rate * MICRO);
      Quotient(spend as real, rate * MICRO, hours);
    }
  }

  // --- Receipts used again ---

  // The entries of the receipt that the checks leave free: everything else follows from these.
  ghost predicate SameTerms(r: Receipt, s: Receipt) {
    && r.phase == s.phase && r.sessionHash == s.sessionHash && r.phaseMaximum == s.phaseMaximum
    && r.approvedHours == s.approvedHours && r.hourlyRate == s.hourlyRate && r.margin == s.margin
    && r.gpuHardStop == s.gpuHardStop && r.priorIncurredGpu == s.priorIncurredGpu
    && r.priorCommittedGpu == s.priorCommittedGpu && r.priorCommittedTotal == s.priorCommittedTotal
    && r.remainingSafeGpu == s.remainingSafeGpu && r.remainingTotal == s.remainingTotal
  }

  // No field of a receipt can be altered past the slack of the checks: two accepted receipts of the same terms agree.
  lemma ReceiptDetermined(hash: Hash, r: Receipt, s: Receipt)
    requires ReceiptConsistent(hash, r) && ReceiptConsistent(hash, s) && SameTerms(r, s)
    ensures r.reservationId == s.reservationId
    ensures Near(r.safeCeiling, s.safeCeiling, 2) && Near(r.priorReservedGpu, s.priorReservedGpu, 2)
    ensures Near(r.committedGpuAfter, s.committedGpuAfter, 2) && Near(r.committedTotalAfter, s.committedTotalAfter, 2)
    ensures s.safeHours - 0.000000002 <= r.safeHours <= s.safeHours + 0.000000002
  {
    hide SafetyCeiling, HoursFor, ValidPhase, IsHash;
  }

  // The prefix and 64 hexadecimal digits.
  ghost predicate Digest(h: string) {
    && |h| == 7 + 64 && h[..7] == "sha256:"
    && forall c :: c in h[7..] ==> 0x30 <= c as int < 0x30 + 10 || 0x61 <= c as int < 0x61 + 6
  }

  lemma HashIs(h: string)
    ensures IsHash(h) <==> Digest(h)
  {
    if Digest(h) {
      forall i | 7 <= i < 71
        ensures HexDigit(h[i])
      {
        assert h[7..][i - 7] == h[i] && h[i] in h[7..];
      }
    }
  }

  // What an accepted receipt says of itself: its identity and its signs.
  lemma ReceiptIdentity(hash: Hash, r: Receipt)
    requires ReceiptConsistent(hash, r)
    ensures PhasePattern(r.phase) && Digest(r.sessionHash)
    ensures r.reservationId == hash(ReservationKey(r.phase, r.sessionHash))
    ensures 0.0 < r.margin < 0.25 && 0.0 < r.approvedHours && 0.0 < r.hourlyRate && 0.0 < r.safeHours
    ensures 0 < r.phaseMaximum && 0 < r.gpuHardStop && 0 < r.safeCeiling
    ensures 0 < r.remainingSafeGpu && 0 < r.remainingTotal && 0 < r.committedGpuAfter && 0 < r.committedTotalAfter
    ensures 0 <= r.priorIncurredGpu && 0 <= r.priorReservedGpu && 0 <= r.priorCommittedGpu
    ensures 0 <= r.priorCommittedTotal
  {
    hide Accounted, ValidPhase, PhasePattern, IsHash, Digest;
    PhaseIs(r.phase);
    HashIs(r.sessionHash);
  }

  // And its accounts, to within the slack of the checks.
  lemma ReceiptAccounts(hash: Hash, r: Receipt)
    requires ReceiptConsistent(hash, r)
    ensures Near(r.priorIncurredGpu + r.priorReservedGpu, r.priorCommittedGpu, 1)
    ensures Near(r.priorCommittedGpu + r.remainingSafeGpu, r.safeCeiling, 2)
    ensures Near(r.committedGpuAfter, r.priorCommittedGpu + r.phaseMaximum, 1)
    ensures Near(r.committedTotalAfter, r.priorCommittedTotal + r.phaseMaximum, 1)
    ensures r.committedGpuAfter <= r.safeCeiling + 1
    ensures r.committedTotalAfter <= r.priorCommittedTotal + r.remainingTotal + 1
    ensures r.safeHours <= r.approvedHours + 0.000000001
  {
    hide SafetyCeiling, HoursFor, ValidPhase, IsHash;
    WithinApproved(r.approvedHours, SafeSpend(r), r.hourlyRate);
  }

  lemma ReceiptCeiling(hash: Hash, r: Receipt)
    requires ReceiptConsistent(hash, r)
    ensures r.safeCeiling as real <= r.gpuHardStop as real * (1.0 - r.margin) + 1.0
  {
    hide SafetyCeiling, HoursFor, ValidPhase, IsHash, SafeSpend;
    OneMore(r.safeCeiling, SafetyCeiling(r.gpuHardStop, r.margin), r.gpuHardStop as real * (1.0 - r.margin));
  }

  lemma OneMore(a: int, b: int, x: real)
    requires a <= b + 1 && b as real <= x
    ensures a as real <= x + 1.0
  {
  }

  // --- The ledger behind a receipt ---

  // The ledger has the caps the receipt was issued under.
  ghost predicate SameCaps(limits: Limits, r: Receipt) {
    Near(limits.gpu, r.gpuHardStop, 1) && Near(limits.total, r.priorCommittedTotal + r.remainingTotal, 1)
  }

  // e is the entry of the receipt: still open at the amount and with no other GPU cost since, or settled.
  ghost predicate Backs(entries: seq<Entry>, e: Entry, r: Receipt) {
    && e in entries && e.entryId == Some(r.reservationId) && e.kind == Gpu
    && e.description == "GPU phase " + r.phase + " session " + r.sessionHash
    && (e.status == Estimated ==>
          Near(e.amount, r.phaseMaximum, 1) && Near(Total(entries, Gpu, true), r.committedGpuAfter, 1))
  }

  // A receipt is accepted exactly when the caps are its own and one entry backs it, open if it must still be open.
  lemma BackingDecided(limits: Limits, entries: seq<Entry>, r: Receipt, active: bool)
    requires UniqueIds(entries)
    ensures var o := ValidatedEntry(limits, entries, r, active);
            && (o.Ok? <==>
                SameCaps(limits, r) && exists e :: Backs(entries, e, r) && (active ==> e.status == Estimated))
            && (o.Ok? ==> Backs(entries, o.value, r))
            && (o == Err(Inactive) <==>
                active && SameCaps(limits, r) && exists e :: Backs(entries, e, r) && e.status == Incurred)
            && (o.Err? ==> o.error in {Inactive, GateError})
  {
    hide Total;
    MatchingIsTheEntry(entries, r.reservationId);
    var m := Matching(entries, r.reservationId);
    forall e | Backs(entries, e, r)
      ensures m == [e]
    {
      var i :| 0 <= i < |entries| && entries[i] == e;
      IndexUnique(entries, r.reservationId, i);
    }
    if m != [] && Carries(entries, m[0], r) {
      assert Backs(entries, m[0], r);
    }
  }
}
