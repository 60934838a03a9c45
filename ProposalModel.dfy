/** The proposal record (backend/src/models/Proposal.js): status enum, score bounds, defaults and the pre-save hook. */
module ProposalModel {
  import opened Wrappers
  import opened Ids

  datatype ProposalStatus = Received | UnderReview | Accepted | Rejected

  function StatusName(s: ProposalStatus): string {
    match s
    case Received => "received"
    case UnderReview => "under-review"
    case Accepted => "accepted"
    case Rejected => "rejected"
  }

  /** A numeric field of a breakdown line as it reaches the browser: missing, `null`, or a number. */
  datatype NumField = Absent | Null | Num(n: int)

  /** One line of the price breakdown. */
  datatype BreakdownItem = BreakdownItem(item: Option<string>, unitPrice: NumField, quantity: NumField, totalPrice: NumField)

  datatype Pricing = Pricing(totalAmount: int, currency: string, breakdown: seq<BreakdownItem>)
  datatype ProposalTimeline = ProposalTimeline(value: Option<int>, unit: Option<string>, description: Option<string>)

  /** What `compareProposals` serialises into `aiRecommendation`. */
  datatype Recommendation = Recommendation(priceScore: int, timelineScore: int, complianceScore: int, pros: seq<string>, cons: seq<string>)

  /** A stored proposal document. */
  datatype Proposal = Proposal(
    rfpId: RfpId,
    vendorId: VendorId,
    pricing: Pricing,
    deliveryTimeline: ProposalTimeline,
    paymentTerms: Option<string>,
    warranty: Option<string>,
    additionalTerms: Option<string>,
    complianceScore: Option<int>,
    aiSummary: Option<string>,
    aiScore: Option<int>,
    aiRecommendation: Option<Recommendation>,
    rawEmailContent: Option<string>,
    emailReceivedAt: Option<Time>,
    status: ProposalStatus,
    createdAt: Time,
    updatedAt: Time)

  /** The `min: 0, max: 100` validators. */
  predicate InScoreRange(n: int) {
    0 <= n <= 100
  }

  /** An optional score passes validation when it is missing or within 0..100. */
  predicate ScoreOk(o: Option<int>) {
    o.None? || InScoreRange(o.value)
  }

  /** What the schema guarantees of every stored proposal. */
  predicate Valid(p: Proposal) {
    ScoreOk(p.complianceScore) && ScoreOk(p.aiScore)
  }

  /** The pricing object as given: `totalAmount` may be missing. */
  datatype PricingInput = PricingInput(totalAmount: Option<int>, currency: Option<string>, breakdown: seq<BreakdownItem>)

  /**
   * Casting a pricing object into the schema: `totalAmount` is required and
   * `currency` defaults to 'USD'. `None` is a validation error.
   */
  function CastPricing(p: Option<PricingInput>): (r: Option<Pricing>)
    ensures r.Some? <==> p.Some? && p.value.totalAmount.Some?
    ensures r.Some? ==> r.value.totalAmount == p.value.totalAmount.value
    ensures r.Some? ==> r.value.currency == (if p.value.currency.Some? then p.value.currency.value else "USD")
    ensures r.Some? ==> r.value.breakdown == p.value.breakdown
  {
    if p.None? || p.value.totalAmount.None? then None
    else Some(Pricing(p.value.totalAmount.value, if p.value.currency.Some? then p.value.currency.value else "USD", p.value.breakdown))
  }

  /** A missing timeline object leaves all of its fields missing. */
  function CastTimeline(t: Option<ProposalTimeline>): ProposalTimeline {
    if t.Some? then t.value else ProposalTimeline(None, None, None)
  }

  /** The pre-save hook: `updatedAt` becomes `now` and nothing else changes. */
  function PreSave(p: Proposal, now: Time): (p': Proposal)
    ensures p'.updatedAt == now
    ensures p'.(updatedAt := p.updatedAt) == p
    ensures Valid(p') <==> Valid(p)
  {
    p.(updatedAt := now)
  }
}
