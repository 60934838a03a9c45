/** The RFP record (backend/src/models/RFP.js): enums, defaults, required fields and the pre-save hook. */
module RfpModel {
  import opened Wrappers
  import opened Ids
  import opened Text

  datatype RfpStatus = Draft | Sent | InReview | Completed | Cancelled

  /** The string stored for each status. */
  function StatusName(s: RfpStatus): string {
    match s
    case Draft => "draft"
    case Sent => "sent"
    case InReview => "in-review"
    case Completed => "completed"
    case Cancelled => "cancelled"
  }

  /** The enum validator: only the five names are accepted. */
  function ParseStatus(name: string): (r: Option<RfpStatus>)
    ensures r.Some? ==> StatusName(r.value) == name
    ensures r.None? ==> forall s :: StatusName(s) != name
  {
    if name == "draft" then Some(Draft)
    else if name == "sent" then Some(Sent)
    else if name == "in-review" then Some(InReview)
    else if name == "completed" then Some(Completed)
    else if name == "cancelled" then Some(Cancelled)
    else None
  }

  datatype TimelineUnit = Days | Weeks | Months

  function UnitName(u: TimelineUnit): string {
    match u
    case Days => "days"
    case Weeks => "weeks"
    case Months => "months"
  }

  function ParseUnit(name: string): (r: Option<TimelineUnit>)
    ensures r.Some? ==> UnitName(r.value) == name
    ensures r.None? ==> forall u :: UnitName(u) != name
  {
    if name == "days" then Some(Days)
    else if name == "weeks" then Some(Weeks)
    else if name == "months" then Some(Months)
    else None
  }

  datatype Budget = Budget(amount: int, currency: string)
  datatype Requirement = Requirement(item: string, quantity: int, specifications: string)
  datatype Timeline = Timeline(value: Option<int>, unit: TimelineUnit)
  datatype SentEntry = SentEntry(vendorId: VendorId, sentAt: Time)

  /** A stored RFP document. */
  datatype Rfp = Rfp(
    title: string,
    description: string,
    budget: Budget,
    requirements: seq<Requirement>,
    deliveryTimeline: Timeline,
    paymentTerms: string,
    warranty: Option<string>,
    additionalTerms: Option<string>,
    status: RfpStatus,
    sentToVendors: seq<SentEntry>,
    rawInput: Option<string>,
    createdAt: Time,
    updatedAt: Time)

  /** What the schema guarantees of every stored RFP: a non-empty trimmed title and a non-empty description. */
  predicate Valid(r: Rfp) {
    r.title != "" && Trimmed(r.title) && r.description != ""
  }

  /** The plain object handed to `RFP.create`: every field may be missing. */
  datatype BudgetInput = BudgetInput(amount: Option<int>, currency: Option<string>)
  datatype TimelineInput = TimelineInput(value: Option<int>, unit: Option<string>)
  datatype RfpInput = RfpInput(
    title: Option<string>,
    description: Option<string>,
    budget: Option<BudgetInput>,
    requirements: seq<Requirement>,
    deliveryTimeline: Option<TimelineInput>,
    paymentTerms: Option<string>,
    warranty: Option<string>,
    additionalTerms: Option<string>,
    status: Option<string>,
    rawInput: Option<string>)

  /** Mongoose's `required` on a string: present and not empty (after the `trim` setter, for the title). */
  predicate RequiredString(o: Option<string>) {
    o.Some? && o.value != ""
  }

  /** The unit after the default ('days') and the enum validator; `None` when the validator rejects it. */
  function CastUnit(t: Option<TimelineInput>): (r: Option<TimelineUnit>)
    ensures (t.None? || t.value.unit.None?) ==> r == Some(Days)
    ensures t.Some? && t.value.unit.Some? ==> r == ParseUnit(t.value.unit.value)
  {
    if t.None? || t.value.unit.None? then Some(Days) else ParseUnit(t.value.unit.value)
  }

  /** Whether `RFP.create(input)` passes validation. */
  predicate Accepts(input: RfpInput) {
    && input.title.Some? && RequiredString(Some(Trim(input.title.value)))
    && RequiredString(input.description)
    && input.budget.Some? && input.budget.value.amount.Some?
    && CastUnit(input.deliveryTimeline).Some?
    && (input.status.None? || ParseStatus(input.status.value).Some?)
  }

  /**
   * `RFP.create(input)` at time `now`: the `trim` setter, the defaults ('USD',
   * 'days', 'Net 30', 'draft', no sends), validation, and the pre-save hook.
   * `None` is a validation error: nothing is stored.
   */
  function Create(input: RfpInput, now: Time): (r: Option<Rfp>)
    ensures r.Some? <==> Accepts(input)
    ensures r.Some? ==> Valid(r.value)
    ensures r.Some? ==> r.value.title == Trim(input.title.value)
    ensures r.Some? ==> r.value.description == input.description.value
    ensures r.Some? ==> r.value.budget.amount == input.budget.value.amount.value
    ensures r.Some? ==> r.value.budget.currency == (if input.budget.value.currency.Some? then input.budget.value.currency.value else "USD")
    ensures r.Some? ==> r.value.paymentTerms == (if input.paymentTerms.Some? then input.paymentTerms.value else "Net 30")
    ensures r.Some? ==> r.value.requirements == input.requirements
    ensures r.Some? ==> r.value.deliveryTimeline.value == (if input.deliveryTimeline.Some? then input.deliveryTimeline.value.value else None)
    ensures r.Some? ==> r.value.deliveryTimeline.unit == CastUnit(input.deliveryTimeline).value
    ensures r.Some? && (input.deliveryTimeline.None? || input.deliveryTimeline.value.unit.None?) ==> r.value.deliveryTimeline.unit == Days
    ensures r.Some? ==> r.value.warranty == input.warranty && r.value.additionalTerms == input.additionalTerms
    ensures r.Some? ==> r.value.status == (if input.status.Some? then ParseStatus(input.status.value).value else Draft)
    ensures r.Some? ==> r.value.rawInput == input.rawInput && r.value.sentToVendors == []
    ensures r.Some? ==> r.value.createdAt == now && r.value.updatedAt == now
  {
    if !Accepts(input) then None
    else
      var b := input.budget.value;
      Some(Rfp(
        title := Trim(input.title.value),
        description := input.description.value,
        budget := Budget(b.amount.value, if b.currency.Some? then b.currency.value else "USD"),
        requirements := input.requirements,
        deliveryTimeline := Timeline(
          if input.deliveryTimeline.Some? then input.deliveryTimeline.value.value else None,
          CastUnit(input.deliveryTimeline).value),
        paymentTerms := if input.paymentTerms.Some? then input.paymentTerms.value else "Net 30",
        warranty := input.warranty,
        additionalTerms := input.additionalTerms,
        status := if input.status.Some? then ParseStatus(input.status.value).value else Draft,
        sentToVendors := [],
        rawInput := input.rawInput,
        createdAt := now,
        updatedAt := now))
  }

  /** The pre-save hook: `updatedAt` becomes `now` and nothing else changes. */
  function PreSave(r: Rfp, now: Time): (r': Rfp)
    ensures r'.updatedAt == now
    ensures r'.(updatedAt := r.updatedAt) == r
    ensures Valid(r') <==> Valid(r)
  {
    r.(updatedAt := now)
  }
}
