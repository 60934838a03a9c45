/**
 * backend/src/controllers/rfpController.js: creating an RFP from natural
 * language (`createRFP`) and sending it to vendors (`sendRFPToVendors`). The
 * LLM's reply and `JSON.parse` are parameters as in AiService. The call
 * `emailService.sendRFPEmail(email, name, rfp)` is the parameter `transport`:
 * `transport(n, email, name, rfp)` says whether the `n`-th send of a request
 * resolved (true) or threw (false). The message that call builds is
 * `EmailService.MailFor(email, name, rfp)`.
 */
module RfpController {
  import opened Wrappers
  import opened Ids
  import opened Text
  import opened RfpModel
  import opened Store
  import AiService

  // ---------------------------------------------------------------------------
  // createRFP
  // ---------------------------------------------------------------------------

  datatype CreateOutcome = MissingInput | CreateFailed | Created(id: RfpId)

  /** `{ ...parsedRFP, rawInput: naturalLanguageInput, status: 'draft' }`. */
  function CreationInput(parsed: RfpInput, naturalLanguage: string): (r: RfpInput)
    ensures r.status == Some("draft") && r.rawInput == Some(naturalLanguage)
    ensures r.(status := parsed.status, rawInput := parsed.rawInput) == parsed
  {
    parsed.(rawInput := Some(naturalLanguage), status := Some("draft"))
  }

  /**
   * A created RFP is always a draft holding the natural-language input,
   * whatever status or raw input the parsed object carried, and no vendor has
   * been sent it yet.
   */
  lemma CreatedIsDraft(parsed: RfpInput, naturalLanguage: string, now: Time)
    ensures Create(CreationInput(parsed, naturalLanguage), now).Some? ==>
      && Create(CreationInput(parsed, naturalLanguage), now).value.status == Draft
      && Create(CreationInput(parsed, naturalLanguage), now).value.rawInput == Some(naturalLanguage)
      && Create(CreationInput(parsed, naturalLanguage), now).value.sentToVendors == []
  {
    assert ParseStatus("draft") == Some(Draft);
  }

  /** `createRFP(req, res)`: 400 without input, 500 when parsing or validation fails, 201 with the new RFP. */
  method CreateRfp(db: Database, naturalLanguageInput: Option<string>, response: Option<string>,
                   decode: string -> Option<RfpInput>, now: Time)
    returns (outcome: CreateOutcome)
    requires db.Valid()
    modifies db
    ensures db.Valid()
    ensures db.vendors == old(db.vendors) && db.proposals == old(db.proposals)
    ensures db.nextVendorId == old(db.nextVendorId) && db.nextProposalId == old(db.nextProposalId)
    ensures outcome == MissingInput <==> !Truthy(naturalLanguageInput)
    ensures !outcome.Created? ==> db.rfps == old(db.rfps) && db.nextRfpId == old(db.nextRfpId)
    ensures outcome.Created? <==>
      Truthy(naturalLanguageInput) && AiService.ParseRfp(response, decode).Success?
      && Create(CreationInput(AiService.ParseRfp(response, decode).value, naturalLanguageInput.value), now).Some?
    ensures outcome.Created? ==>
      && outcome.id == old(db.nextRfpId) && db.nextRfpId == old(db.nextRfpId) + 1
      && db.rfps == old(db.rfps)[outcome.id :=
           Create(CreationInput(AiService.ParseRfp(response, decode).value, naturalLanguageInput.value), now).value]
      && db.rfps[outcome.id].status == Draft
  {
    if !Truthy(naturalLanguageInput) {
      return MissingInput;
    }
    var parsed := AiService.ParseRfp(response, decode);
    if parsed.Failure? {
      return CreateFailed;
    }
    var input := CreationInput(parsed.value, naturalLanguageInput.value);
    var rfp := Create(input, now);
    if rfp.None? {
      return CreateFailed;
    }
    CreatedIsDraft(parsed.value, naturalLanguageInput.value, now);
    var id := db.InsertRfp(rfp.value);
    outcome := Created(id);
  }

  // ---------------------------------------------------------------------------
  // sendRFPToVendors
  // ---------------------------------------------------------------------------

  datatype SendStatus = Delivered | Failed

  /** One element of `emailResults`; failed sends carry no time. */
  datatype EmailResult = EmailResult(vendorId: VendorId, vendorName: string, email: string, status: SendStatus, sentAt: Option<Time>)

  /** The `n`-th send of the request, `sendRFPEmail(vendor.email, vendor.name, rfp)`, and the result it pushes. */
  function Attempt(n: nat, id: VendorId, v: Vendor, rfp: Rfp, transport: (nat, string, string, Rfp) -> bool, now: Time): (r: EmailResult)
    ensures r.vendorId == id && r.vendorName == v.name && r.email == v.email
    ensures r.status == Delivered <==> transport(n, v.email, v.name, rfp)
    ensures r.status == Delivered <==> r.sentAt == Some(now)
  {
    if transport(n, v.email, v.name, rfp) then EmailResult(id, v.name, v.email, Delivered, Some(now))
    else EmailResult(id, v.name, v.email, Failed, None)
  }

  /** The entries pushed onto the local `sentToVendors` at time `now`: one per delivered result, in order. */
  function SentEntries(results: seq<EmailResult>, now: Time): (r: seq<SentEntry>)
    ensures |r| <= |results|
    ensures (forall i :: 0 <= i < |results| ==> results[i].status == Failed) ==> r == []
    decreases |results|
  {
    if results == [] then []
    else
      var prev := SentEntries(results[..|results| - 1], now);
      var last := results[|results| - 1];
      assert forall i :: 0 <= i < |results| - 1 ==> results[..|results| - 1][i] == results[i];
      if last.status == Delivered then prev + [SentEntry(last.vendorId, now)] else prev
  }

  /** How many results are deliveries. */
  function DeliveredCount(results: seq<EmailResult>): nat
    decreases |results|
  {
    if results == [] then 0
    else DeliveredCount(results[..|results| - 1]) + (if results[|results| - 1].status == Delivered then 1 else 0)
  }

  /**
   * Only delivered sends are recorded: there is one entry per delivery, and
   * every entry names a vendor whose send was delivered.
   */
  lemma {:induction false} SentEntriesAreDeliveries(results: seq<EmailResult>, now: Time)
    ensures |SentEntries(results, now)| == DeliveredCount(results)
    ensures forall e :: e in SentEntries(results, now) ==>
      e.sentAt == now && exists i :: 0 <= i < |results| && results[i].status == Delivered && results[i].vendorId == e.vendorId
    decreases |results|
  {
    if results != [] {
      var pre := results[..|results| - 1];
      assert forall i :: 0 <= i < |pre| ==> pre[i] == results[i];
      SentEntriesAreDeliveries(pre, now);
    }
  }

  /** The results of the first `n` sends, one per vendor in order. */
  function Attempts(ids: seq<VendorId>, vendors: map<VendorId, Vendor>, rfp: Rfp,
                    transport: (nat, string, string, Rfp) -> bool, now: Time, n: nat): (r: seq<EmailResult>)
    requires n <= |ids| && forall i :: 0 <= i < |ids| ==> ids[i] in vendors
    ensures |r| == n
  {
    if n == 0 then []
    else Attempts(ids, vendors, rfp, transport, now, n - 1) + [Attempt(n - 1, ids[n - 1], vendors[ids[n - 1]], rfp, transport, now)]
  }

  /** Result `i` is the `i`-th send, to the `i`-th vendor. */
  lemma {:induction false} AttemptAt(ids: seq<VendorId>, vendors: map<VendorId, Vendor>, rfp: Rfp,
                                     transport: (nat, string, string, Rfp) -> bool, now: Time, n: nat, i: nat)
    requires i < n <= |ids| && forall j :: 0 <= j < |ids| ==> ids[j] in vendors
    ensures Attempts(ids, vendors, rfp, transport, now, n)[i] == Attempt(i, ids[i], vendors[ids[i]], rfp, transport, now)
    decreases n
  {
    if i < n - 1 {
      AttemptAt(ids, vendors, rfp, transport, now, n - 1, i);
    }
  }

  /**
   * The loop over the found vendors: one result per vendor in iteration
   * order, and the deliveries collected for `sentToVendors`. Nothing is
   * written; `transport` stands for the SMTP server.
   */
  method DispatchEmails(ids: seq<VendorId>, vendors: map<VendorId, Vendor>, rfp: Rfp,
                        transport: (nat, string, string, Rfp) -> bool, now: Time)
    returns (results: seq<EmailResult>, sent: seq<SentEntry>)
    requires forall i :: 0 <= i < |ids| ==> ids[i] in vendors
    ensures results == Attempts(ids, vendors, rfp, transport, now, |ids|)
    ensures sent == SentEntries(results, now)
  {
    results, sent := [], [];
    var i := 0;
    while i < |ids|
      invariant 0 <= i <= |ids|
      invariant results == Attempts(ids, vendors, rfp, transport, now, i)
      invariant sent == SentEntries(results, now)
    {
      var v := vendors[ids[i]];
      var ok := transport(i, v.email, v.name, rfp);
      var r: EmailResult;
      if ok {
        r := EmailResult(ids[i], v.name, v.email, Delivered, Some(now));
        sent := sent + [SentEntry(ids[i], now)];
      } else {
        r := EmailResult(ids[i], v.name, v.email, Failed, None);
      }
      assert r == Attempt(i, ids[i], v, rfp, transport, now);
      assert (results + [r])[..|results + [r]| - 1] == results;
      results := results + [r];
      i := i + 1;
    }
  }

  datatype SendOutcome = BadRequest | RfpNotFound | NoVendors | Dispatched(results: seq<EmailResult>)

  /**
   * `sendRFPToVendors(req, res)`: 400 without an RFP id or vendor ids, 404 for
   * an unknown RFP or when none of the ids is a vendor; otherwise every found
   * vendor gets the email, the deliveries are appended to `sentToVendors`,
   * and the status becomes `sent` whatever it was and however many sends
   * failed.
   */
  method SendRfpToVendors(db: Database, rfpId: Option<RfpId>, vendorIds: Option<seq<VendorId>>,
                          transport: (nat, string, string, Rfp) -> bool, now: Time)
    returns (outcome: SendOutcome)
    requires db.Valid()
    modifies db
    ensures db.Valid()
    ensures db.vendors == old(db.vendors) && db.proposals == old(db.proposals)
    ensures db.nextVendorId == old(db.nextVendorId) && db.nextRfpId == old(db.nextRfpId) && db.nextProposalId == old(db.nextProposalId)
    ensures outcome == BadRequest <==> rfpId.None? || vendorIds.None? || vendorIds.value == []
    ensures outcome == RfpNotFound <==> !(rfpId.None? || vendorIds.None? || vendorIds.value == []) && rfpId.value !in old(db.rfps)
    ensures outcome == NoVendors <==>
      !(rfpId.None? || vendorIds.None? || vendorIds.value == []) && rfpId.value in old(db.rfps)
      && VendorsAmong(old(db.vendors), old(db.nextVendorId), vendorIds.value) == []
    ensures !outcome.Dispatched? ==> db.rfps == old(db.rfps)
    ensures outcome.Dispatched? ==>
      var found := VendorsAmong(old(db.vendors), old(db.nextVendorId), vendorIds.value);
      var old_rfp := old(db.rfps)[rfpId.value];
      && outcome.results == Attempts(found, db.vendors, old_rfp, transport, now, |found|)
      && db.rfps == old(db.rfps)[rfpId.value := PreSave(
           old_rfp.(sentToVendors := old_rfp.sentToVendors + SentEntries(outcome.results, now), status := Sent), now)]
  {
    if rfpId.None? || vendorIds.None? || vendorIds.value == [] {
      return BadRequest;
    }
    var rid := rfpId.value;
    if rid !in db.rfps {
      return RfpNotFound;
    }
    var rfp := db.rfps[rid];
    var found := VendorsAmong(db.vendors, db.nextVendorId, vendorIds.value);
    if found == [] {
      return NoVendors;
    }
    var results, sent := DispatchEmails(found, db.vendors, rfp, transport, now);
    db.SaveRfp(rid, rfp.(sentToVendors := rfp.sentToVendors + sent, status := Sent), now);
    outcome := Dispatched(results);
  }

  /**
   * After a dispatch the RFP is `sent`, its earlier `sentToVendors` is a prefix
   * of the new one, and what follows that prefix is one entry per delivery.
   */
  lemma DispatchRecord(rfp: Rfp, results: seq<EmailResult>, now: Time)
    ensures var r := PreSave(rfp.(sentToVendors := rfp.sentToVendors + SentEntries(results, now), status := Sent), now);
      && r.status == Sent
      && r.sentToVendors[..|rfp.sentToVendors|] == rfp.sentToVendors
      && |r.sentToVendors| == |rfp.sentToVendors| + DeliveredCount(results)
      && r.(sentToVendors := rfp.sentToVendors, status := rfp.status, updatedAt := rfp.updatedAt) == rfp
  {
    SentEntriesAreDeliveries(results, now);
    var r := PreSave(rfp.(sentToVendors := rfp.sentToVendors + SentEntries(results, now), status := Sent), now);
    assert r.sentToVendors == rfp.sentToVendors + SentEntries(results, now);
  }
}
