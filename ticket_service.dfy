/** The purchase pipeline of the cinema ticket service: validate the account,
    validate and summarise the requests in order, check the business rules on
    the summary, and only then charge the account and reserve the seats. */
module TicketService {
  import opened TicketConstants

  /** The account id as the caller passes it: an integer, or some value that
      is not an integer at all (a string, a fraction, null). */
  datatype AccountId = IntId(id: int) | NonInteger

  /** Success carrying a value, or a rejection with its one reason. */
  datatype Result<T> = Ok(value: T) | Rejected(reason: Reason)

  /** The aggregate built while walking the requests: the six fields of the
      source's summary object, grouped as the per-category counts and the
      running totals. */
  datatype Summary = Summary(counts: Counts, totals: Totals)
  datatype Counts = Counts(adultCount: int, childCount: int, infantCount: int)
  datatype Totals = Totals(totalTicketCount: int, totalCost: int, totalNumberOfSeats: int)

  const EmptySummary := Summary(Counts(0, 0, 0), Totals(0, 0, 0))

  /** A call made to one of the two external collaborators. */
  datatype Call =
    | MakePayment(accountId: int, totalCost: int)
    | ReserveSeat(accountId: int, totalNumberOfSeats: int)

  // ---------------------------------------------------------------------
  // Step 1: the account id

  predicate IsValidAccountId(a: AccountId) {
    a.IntId? && a.id > 0
  }

  /** Accepts exactly the integers above zero; everything else is rejected
      with InvalidAccountId. */
  function ValidateAccountId(a: AccountId): (r: Result<()>)
    ensures r.Ok? <==> IsValidAccountId(a)
    ensures r.Rejected? ==> r.reason == InvalidAccountId
  {
    if !a.IntId? || a.id <= 0 then Rejected(InvalidAccountId) else Ok(())
  }

  // ---------------------------------------------------------------------
  // Step 2: validating and summarising the requests

  /** A request the loop accepts: a positive count of a known category. */
  predicate WellFormed(req: Request) {
    req.count > 0 && IsKnown(req.cat)
  }

  predicate AllWellFormed(reqs: seq<Request>) {
    forall i :: 0 <= i < |reqs| ==> WellFormed(reqs[i])
  }

  /** The reason a single ill-formed request is rejected with: the count is
      looked at before the category. */
  function RequestError(req: Request): Reason
    requires !WellFormed(req)
  {
    if req.count <= 0 then TicketTypeMissingTickets
    else UnknownTicketType(req.cat.name)
  }

  /** Index of the first ill-formed request. */
  function FirstBad(reqs: seq<Request>): (i: nat)
    requires !AllWellFormed(reqs)
    ensures i < |reqs| && !WellFormed(reqs[i])
    ensures forall j :: 0 <= j < i ==> WellFormed(reqs[j])
  {
    if !WellFormed(reqs[0]) then 0
    else
      assert !AllWellFormed(reqs[1..]) by {
        var k :| 0 <= k < |reqs| && !WellFormed(reqs[k]);
        assert k > 0 && !WellFormed(reqs[1..][k - 1]);
      }
      1 + FirstBad(reqs[1..])
  }

  /** The bookkeeping a summary keeps between its fields: tickets and seats
      are adults plus children, infants cost nothing and take no seat. */
  predicate Consistent(s: Summary) {
    && s.counts.adultCount >= 0 && s.counts.childCount >= 0 && s.counts.infantCount >= 0
    && s.totals.totalTicketCount == s.counts.adultCount + s.counts.childCount
    && s.totals.totalNumberOfSeats == s.counts.adultCount + s.counts.childCount
    && s.totals.totalCost == 25 * s.counts.adultCount + 15 * s.counts.childCount
  }

  /** One iteration of the loop on a summary so far. */
  function Step(s: Summary, req: Request): Result<Summary> {
    if req.count <= 0 then Rejected(TicketTypeMissingTickets)
    else match req.cat
      case Adult => Ok(Summary(
        s.counts.(adultCount := s.counts.adultCount + req.count),
        Totals(s.totals.totalTicketCount + req.count,
               s.totals.totalCost + 25 * req.count,
               s.totals.totalNumberOfSeats + req.count)))
      case Child => Ok(Summary(
        s.counts.(childCount := s.counts.childCount + req.count),
        Totals(s.totals.totalTicketCount + req.count,
               s.totals.totalCost + 15 * req.count,
               s.totals.totalNumberOfSeats + req.count)))
      case Infant => Ok(s.(counts := s.counts.(infantCount := s.counts.infantCount + req.count)))
      case Unknown(name) => Rejected(UnknownTicketType(name))
  }

  /** One request is rejected exactly when it is ill-formed, for the reason
      its count or else its category gives; an accepted request keeps the
      bookkeeping, and only an infant request changes the infant count. */
  lemma StepSpec(s: Summary, req: Request)
    ensures Step(s, req).Rejected? <==> !WellFormed(req)
    ensures Step(s, req).Rejected? ==> Step(s, req).reason == RequestError(req)
    ensures Step(s, req).Ok? && Consistent(s) ==> Consistent(Step(s, req).value)
    ensures Step(s, req).Ok? && !req.cat.Infant? ==>
      Step(s, req).value.counts.infantCount == s.counts.infantCount
  {
  }

  /** The loop as a left fold over the requests: the summary of a list is the
      summary of all but its last request, advanced by the last one; the
      first rejection stops the fold. */
  function Summarise(reqs: seq<Request>): Result<Summary>
    decreases |reqs|
  {
    if reqs == [] then Ok(EmptySummary)
    else
      match Summarise(reqs[..|reqs| - 1])
      case Rejected(e) => Rejected(e)
      case Ok(s) => Step(s, reqs[|reqs| - 1])
  }

  /** Independent reference: the total count of the requests of category c. */
  function CountOf(reqs: seq<Request>, c: Category): int {
    if reqs == [] then 0
    else (if reqs[0].cat == c then reqs[0].count else 0) + CountOf(reqs[1..], c)
  }

  /** Independent reference: the summary a list of well-formed requests should
      produce, from the per-category totals and the price table. */
  function Tally(reqs: seq<Request>): Summary {
    var a := CountOf(reqs, Adult);
    var c := CountOf(reqs, Child);
    Summary(Counts(a, c, CountOf(reqs, Infant)), Totals(a + c, 25 * a + 15 * c, a + c))
  }

  lemma {:induction false} CountOfSnoc(reqs: seq<Request>, x: Request, c: Category)
    ensures CountOf(reqs + [x], c) == CountOf(reqs, c) + (if x.cat == c then x.count else 0)
  {
    if reqs != [] {
      assert (reqs + [x])[1..] == reqs[1..] + [x];
      CountOfSnoc(reqs[1..], x, c);
    }
  }

  /** Once a prefix of the requests is rejected, the whole list is rejected
      for the same reason: later requests are never looked at. */
  lemma {:induction false} RejectionPersists(reqs: seq<Request>, k: nat)
    requires k <= |reqs|
    requires Summarise(reqs[..k]).Rejected?
    ensures Summarise(reqs) == Summarise(reqs[..k])
    decreases |reqs| - k
  {
    if k < |reqs| {
      var p := reqs[..k + 1];
      assert p[..|p| - 1] == reqs[..k];
      RejectionPersists(reqs, k + 1);
    } else {
      assert reqs[..k] == reqs;
    }
  }

  /** Every summary the loop produces keeps the bookkeeping between its
      fields. */
  lemma {:induction false} SummariseConsistent(reqs: seq<Request>)
    ensures Summarise(reqs).Ok? ==> Consistent(Summarise(reqs).value)
    decreases |reqs|
  {
    if reqs != [] {
      var p := reqs[..|reqs| - 1];
      SummariseConsistent(p);
      if Summarise(p).Ok? {
        StepSpec(Summarise(p).value, reqs[|reqs| - 1]);
      }
    }
  }

  /** When every request has a positive count and a known category, the loop
      yields the per-category totals priced from the table. */
  lemma {:induction false} SummariseAccepts(reqs: seq<Request>)
    requires AllWellFormed(reqs)
    ensures Summarise(reqs) == Ok(Tally(reqs))
    decreases |reqs|
  {
    if reqs != [] {
      var p, x := reqs[..|reqs| - 1], reqs[|reqs| - 1];
      assert reqs == p + [x];
      assert AllWellFormed(p) by {
        forall i | 0 <= i < |p| ensures WellFormed(p[i]) {
          assert p[i] == reqs[i];
        }
      }
      SummariseAccepts(p);
      CountOfSnoc(p, x, Adult);
      CountOfSnoc(p, x, Child);
      CountOfSnoc(p, x, Infant);
    }
  }

  /** Otherwise the loop rejects with the reason of the first ill-formed
      request in list order, its count checked before its category. */
  lemma {:induction false} SummariseRejects(reqs: seq<Request>)
    requires !AllWellFormed(reqs)
    ensures Summarise(reqs) == Rejected(RequestError(reqs[FirstBad(reqs)]))
    decreases |reqs|
  {
    var p, x := reqs[..|reqs| - 1], reqs[|reqs| - 1];
    assert reqs == p + [x];
    var m := FirstBad(reqs);
    if !AllWellFormed(p) {
      SummariseRejects(p);
      var k := FirstBad(p);
      assert reqs[k] == p[k];
      assert m == k by {
        assert m < |p| ==> reqs[m] == p[m];
        assert !WellFormed(reqs[k]);
      }
    } else {
      SummariseAccepts(p);
      assert m == |p| by {
        assert forall j :: 0 <= j < |p| ==> reqs[j] == p[j];
      }
    }
  }

  /** The loop succeeds only on a list of well-formed requests. */
  lemma SummariseOkOnlyIfWellFormed(reqs: seq<Request>)
    ensures Summarise(reqs).Ok? ==> AllWellFormed(reqs)
  {
    if !AllWellFormed(reqs) {
      SummariseRejects(reqs);
    }
  }

  /** What the request loop computes, in terms of the reference
      definitions. */
  lemma SummariseSpec(reqs: seq<Request>)
    ensures AllWellFormed(reqs) ==> Summarise(reqs) == Ok(Tally(reqs))
    ensures !AllWellFormed(reqs) ==>
      Summarise(reqs) == Rejected(RequestError(reqs[FirstBad(reqs)]))
  {
    if AllWellFormed(reqs) {
      SummariseAccepts(reqs);
    } else {
      SummariseRejects(reqs);
    }
  }

  /** Summarising one more request advances the summary of the prefix by one
      step. */
  lemma SummariseExtend(reqs: seq<Request>, i: nat)
    requires i < |reqs|
    ensures Summarise(reqs[..i + 1]) ==
      match Summarise(reqs[..i])
      case Rejected(e) => Rejected(e)
      case Ok(s) => Step(s, reqs[i])
  {
    assert reqs[..i + 1][..i] == reqs[..i];
  }

  /** The request loop: walks the requests in order, rejecting a request with
      a non-positive count, then one of an unknown category, and otherwise
      adding it to the running summary. */
  method ValidateAndSummariseTicketRequests(requests: seq<Request>) returns (r: Result<Summary>)
    ensures r == Summarise(requests)
  {
    var summary := EmptySummary;
    var i := 0;
    while i < |requests|
      invariant 0 <= i <= |requests|
      invariant Summarise(requests[..i]) == Ok(summary)
    {
      var req := requests[i];
      var ticketCount := req.count;
      SummariseExtend(requests, i);
      ghost var before := summary;
      if ticketCount <= 0 {
        RejectionPersists(requests, i + 1);
        return Rejected(TicketTypeMissingTickets);
      }
      match req.cat {
        case Adult =>
          summary := Summary(
            summary.counts.(adultCount := summary.counts.adultCount + ticketCount),
            Totals(summary.totals.totalTicketCount + ticketCount,
                   summary.totals.totalCost + CostOf(Adult, ticketCount),
                   summary.totals.totalNumberOfSeats + ticketCount));
        case Child =>
          summary := Summary(
            summary.counts.(childCount := summary.counts.childCount + ticketCount),
            Totals(summary.totals.totalTicketCount + ticketCount,
                   summary.totals.totalCost + CostOf(Child, ticketCount),
                   summary.totals.totalNumberOfSeats + ticketCount));
        case Infant =>
          summary := summary.(counts := summary.counts.(infantCount := summary.counts.infantCount + ticketCount));
        case Unknown(name) =>
          RejectionPersists(requests, i + 1);
          return Rejected(UnknownTicketType(name));
      }
      assert Step(before, req) == Ok(summary);
      i := i + 1;
    }
    assert requests[..|requests|] == requests;
    r := Ok(summary);
  }

  // ---------------------------------------------------------------------
  // Step 3: the business rules

  /** Independent reference: every rule the summary breaks, in priority
      order (ticket cap, at least one adult, no more infants than adults). */
  function Violations(s: Summary): seq<Reason> {
    (if s.totals.totalTicketCount > MaxTicketsPerPurchase then [TooManyTickets] else [])
    + (if s.counts.adultCount <= 0 then [NoAdultTickets] else [])
    + (if s.counts.infantCount > s.counts.adultCount then [MoreInfantsThanAdults] else [])
  }

  /** The guard chain: passes when no rule is broken and otherwise reports
      the first broken rule only. */
  function ValidateBusinessRules(s: Summary): Result<()> {
    if s.totals.totalTicketCount > MaxTicketsPerPurchase then Rejected(TooManyTickets)
    else if s.counts.adultCount <= 0 then Rejected(NoAdultTickets)
    else if s.counts.infantCount > s.counts.adultCount then Rejected(MoreInfantsThanAdults)
    else Ok(())
  }

  /** The guard chain agrees with the reference: it passes when no rule is
      broken and otherwise reports the first broken rule only. */
  lemma BusinessRulesSpec(s: Summary)
    ensures ValidateBusinessRules(s).Ok? <==> Violations(s) == []
    ensures ValidateBusinessRules(s).Rejected? ==>
      ValidateBusinessRules(s).reason == Violations(s)[0]
  {
  }

  // ---------------------------------------------------------------------
  // Step 4: the whole purchase

  /** The purchase as a value: its outcome and the collaborator calls it
      makes, in order. Every rejection happens before any call. */
  function Purchase(accountId: AccountId, requests: seq<Request>): (Result<()>, seq<Call>) {
    match ValidateAccountId(accountId)
    case Rejected(e) => (Rejected(e), [])
    case Ok(_) =>
      match Summarise(requests)
      case Rejected(e) => (Rejected(e), [])
      case Ok(summary) =>
        match ValidateBusinessRules(summary)
        case Rejected(e) => (Rejected(e), [])
        case Ok(_) =>
          (Ok(()), [MakePayment(accountId.id, summary.totals.totalCost),
                    ReserveSeat(accountId.id, summary.totals.totalNumberOfSeats)])
  }

  /** All or nothing: a rejection makes no call, and a success makes
      exactly two, the payment first and the reservation second, both for
      the purchasing account. */
  lemma PurchaseAllOrNothing(accountId: AccountId, requests: seq<Request>)
    ensures Purchase(accountId, requests).0.Rejected? <==> Purchase(accountId, requests).1 == []
    ensures Purchase(accountId, requests).0.Ok? ==>
      var calls := Purchase(accountId, requests).1;
      && accountId.IntId? && |calls| == 2
      && calls[0].MakePayment? && calls[0].accountId == accountId.id
      && calls[1].ReserveSeat? && calls[1].accountId == accountId.id
  {
  }

  /** purchaseTickets: runs the three validations and, only when all pass,
      charges the account and then reserves the seats; the calls made are
      returned as a trace. */
  method PurchaseTickets(accountId: AccountId, requests: seq<Request>)
    returns (result: Result<()>, calls: seq<Call>)
    ensures (result, calls) == Purchase(accountId, requests)
  {
    calls := [];
    result := ValidateAccountId(accountId);
    if result.Rejected? {
      return;
    }
    var summarised := ValidateAndSummariseTicketRequests(requests);
    if summarised.Rejected? {
      assert Purchase(accountId, requests).0 == Rejected(summarised.reason);
      return Rejected(summarised.reason), calls;
    }
    var summary := summarised.value;
    result := ValidateBusinessRules(summary);
    if result.Rejected? {
      return;
    }
    calls := calls + [MakePayment(accountId.id, summary.totals.totalCost)];
    calls := calls + [ReserveSeat(accountId.id, summary.totals.totalNumberOfSeats)];
    assert Purchase(accountId, requests).1 == calls;
    assert Purchase(accountId, requests).0 == result;
  }

  // ---------------------------------------------------------------------
  // Properties of the whole purchase

  /** The purchase in terms of the reference definitions: the first failing
      step decides the reason and nothing is called; otherwise the account is
      charged 25 per adult and 15 per child and one seat is reserved per adult
      and child, in that order. */
  lemma PurchaseSpec(accountId: AccountId, requests: seq<Request>)
    ensures !IsValidAccountId(accountId) ==>
      Purchase(accountId, requests) == (Rejected(InvalidAccountId), [])
    ensures IsValidAccountId(accountId) && !AllWellFormed(requests) ==>
      Purchase(accountId, requests)
        == (Rejected(RequestError(requests[FirstBad(requests)])), [])
    ensures IsValidAccountId(accountId) && AllWellFormed(requests)
            && Violations(Tally(requests)) != [] ==>
      Purchase(accountId, requests) == (Rejected(Violations(Tally(requests))[0]), [])
    ensures IsValidAccountId(accountId) && AllWellFormed(requests)
            && Violations(Tally(requests)) == [] ==>
      var a, c := CountOf(requests, Adult), CountOf(requests, Child);
      Purchase(accountId, requests)
        == (Ok(()), [MakePayment(accountId.id, 25 * a + 15 * c),
                     ReserveSeat(accountId.id, a + c)])
  {
    SummariseSpec(requests);
    BusinessRulesSpec(Tally(requests));
  }

  /** What a successful purchase guarantees about what was bought. */
  lemma SuccessfulPurchase(accountId: AccountId, requests: seq<Request>)
    requires Purchase(accountId, requests).0.Ok?
    ensures IsValidAccountId(accountId) && AllWellFormed(requests)
    ensures var a, c, i :=
      CountOf(requests, Adult), CountOf(requests, Child), CountOf(requests, Infant);
      && 1 <= a && 0 <= c && 0 <= i <= a
      && a + c <= MaxTicketsPerPurchase
      && Purchase(accountId, requests).1
         == [MakePayment(accountId.id, 25 * a + 15 * c), ReserveSeat(accountId.id, a + c)]
  {
    assert IsValidAccountId(accountId);
    assert Summarise(requests).Ok?;
    SummariseOkOnlyIfWellFormed(requests);
    SummariseAccepts(requests);
    SummariseConsistent(requests);
    var summary := Tally(requests);
    assert Summarise(requests) == Ok(summary);
    assert Consistent(summary);
    assert ValidateBusinessRules(summary).Ok?;
    BusinessRulesSpec(summary);
    assert Purchase(accountId, requests).1
      == [MakePayment(accountId.id, summary.totals.totalCost),
          ReserveSeat(accountId.id, summary.totals.totalNumberOfSeats)];
  }

  /** An empty list of requests summarises to all zeros and so has no adult. */
  lemma EmptyRequestsRejected(accountId: AccountId)
    requires IsValidAccountId(accountId)
    ensures Purchase(accountId, []) == (Rejected(NoAdultTickets), [])
  {
  }

  /** The scenario of the successful purchase test: ten adults, five infants
      and five children cost 325 and take 15 seats. */
  lemma MixedPurchaseScenario()
    ensures Purchase(IntId(1), [Request(Adult, 10), Request(Infant, 5), Request(Child, 5)])
      == (Ok(()), [MakePayment(1, 325), ReserveSeat(1, 15)])
  {
    var reqs := [Request(Adult, 10), Request(Infant, 5), Request(Child, 5)];
    assert reqs[..2][..1] == [Request(Adult, 10)];
    assert [Request(Adult, 10)][..0] == [];
    assert reqs[..2] == [Request(Adult, 10), Request(Infant, 5)];
    assert Summarise(reqs[..2][..1]) == Ok(Summary(Counts(10, 0, 0), Totals(10, 250, 10)));
    assert Summarise(reqs[..2]) == Ok(Summary(Counts(10, 0, 5), Totals(10, 250, 10)));
    assert Summarise(reqs) == Ok(Summary(Counts(10, 5, 5), Totals(15, 325, 15)));
  }

  /** The business rule tests, one per rule: 26 adults exceed the cap. */
  lemma TooManyTicketsScenario()
    ensures Purchase(IntId(1), [Request(Adult, 26)]) == (Rejected(TooManyTickets), [])
  {
    var reqs := [Request(Adult, 26)];
    assert reqs[..0] == [];
    assert Summarise(reqs) == Ok(Summary(Counts(26, 0, 0), Totals(26, 650, 26)));
  }

  /** Five children and no adult. */
  lemma NoAdultScenario()
    ensures Purchase(IntId(1), [Request(Child, 5)]) == (Rejected(NoAdultTickets), [])
  {
    var reqs := [Request(Child, 5)];
    assert reqs[..0] == [];
    assert Summarise(reqs) == Ok(Summary(Counts(0, 5, 0), Totals(5, 75, 5)));
  }

  /** Ten adults and fifteen infants. */
  lemma MoreInfantsScenario()
    ensures Purchase(IntId(1), [Request(Adult, 10), Request(Infant, 15)])
      == (Rejected(MoreInfantsThanAdults), [])
  {
    var reqs := [Request(Adult, 10), Request(Infant, 15)];
    SummariseExtend(reqs, 0);
    SummariseExtend(reqs, 1);
    assert reqs[..0] == [] && reqs[..2] == reqs;
    assert Summarise(reqs[..1]) == Ok(Summary(Counts(10, 0, 0), Totals(10, 250, 10)));
    var summary := Summary(Counts(10, 0, 15), Totals(10, 250, 10));
    assert Summarise(reqs) == Ok(summary);
    assert ValidateBusinessRules(summary) == Rejected(MoreInfantsThanAdults);
  }

  /** The account validation tests: a non-integer (a string, a fraction,
      null) and a negative id are refused before the requests are read. */
  lemma InvalidAccountScenarios()
    ensures Purchase(NonInteger, [Request(Adult, 1)]) == (Rejected(InvalidAccountId), [])
    ensures Purchase(IntId(-1), [Request(Adult, 1)]) == (Rejected(InvalidAccountId), [])
    ensures Purchase(IntId(0), [Request(Adult, 1)]) == (Rejected(InvalidAccountId), [])
  {
  }

  /** A bad count is reported even when the category is unknown too, and an
      unknown category is named in the rejection. */
  lemma RequestValidationScenarios(name: string)
    ensures Purchase(IntId(1), [Request(Unknown(name), 0)])
      == (Rejected(TicketTypeMissingTickets), [])
    ensures Purchase(IntId(1), [Request(Unknown(name), 1)])
      == (Rejected(UnknownTicketType(name)), [])
    ensures Purchase(IntId(1), [Request(Adult, -1)]) == (Rejected(TicketTypeMissingTickets), [])
    ensures Purchase(IntId(1), [Request(Adult, 0)]) == (Rejected(TicketTypeMissingTickets), [])
    ensures Purchase(IntId(1), [Request(Adult, 1)]).0 != Rejected(TicketTypeMissingTickets)
  {
    var zero, one := [Request(Unknown(name), 0)], [Request(Unknown(name), 1)];
    assert zero[..0] == [] && one[..0] == [];
    assert Summarise(zero) == Rejected(TicketTypeMissingTickets);
    assert Summarise(one) == Rejected(UnknownTicketType(name));
  }
}
