/**
 * backend/src/controllers/proposalController.js: turning a vendor's reply into
 * a proposal (`processVendorResponse`) and merging the AI's per-vendor scores
 * into the proposals of an RFP (`compareProposals`). The LLM's reply and
 * `JSON.parse` are parameters, as in AiService.
 */
module ProposalController {
  import opened Wrappers
  import opened Ids
  import opened Text
  import RfpModel
  import opened ProposalModel
  import opened Store
  import opened AiService
  import EmailFetch
  import SubjectMatch
  import EmailService

  // ---------------------------------------------------------------------------
  // processVendorResponse
  // ---------------------------------------------------------------------------

  /** Where `processVendorResponse` stopped; every stop but `Stored` writes nothing. */
  datatype IngestOutcome =
    | VendorUnknown
    | SubjectMissing       // `emailData.subject.match` on a missing subject throws
    | NoRfpInSubject
    | RfpUnknown
    | ParseFailed
    | SaveRejected         // the proposal failed schema validation
    | Stored(rfpId: RfpId, vendorId: VendorId, proposalId: ProposalId, created: bool)

  /** `emailData.text || emailData.html`. */
  function RawContent(mail: EmailFetch.InboundEmail): (r: Option<string>)
    ensures Truthy(mail.text) ==> r == mail.text
    ensures !Truthy(mail.text) ==> r == mail.html
  {
    Or(mail.text, mail.html)
  }

  /**
   * The nine assignments to an existing proposal, then validation. Exactly
   * those nine fields change: the pair, the status, the AI score and
   * recommendation and the timestamps stay as they were.
   */
  function UpdatedProposal(p: Proposal, parsed: ParsedProposal, mail: EmailFetch.InboundEmail): (r: Option<Proposal>)
    ensures r.Some? <==> CastPricing(parsed.pricing).Some? && ScoreOk(parsed.complianceScore) && ScoreOk(p.aiScore)
    ensures r.Some? ==> Valid(r.value)
    ensures r.Some? ==> r.value.pricing == CastPricing(parsed.pricing).value && r.value.deliveryTimeline == CastTimeline(parsed.deliveryTimeline)
    ensures r.Some? ==> r.value.paymentTerms == parsed.paymentTerms && r.value.warranty == parsed.warranty
    ensures r.Some? ==> r.value.additionalTerms == parsed.additionalTerms && r.value.complianceScore == parsed.complianceScore
    ensures r.Some? ==> r.value.aiSummary == parsed.summary && r.value.rawEmailContent == RawContent(mail) && r.value.emailReceivedAt == mail.date
    ensures r.Some? ==> r.value.(pricing := p.pricing, deliveryTimeline := p.deliveryTimeline, paymentTerms := p.paymentTerms,
                                 warranty := p.warranty, additionalTerms := p.additionalTerms, complianceScore := p.complianceScore,
                                 aiSummary := p.aiSummary, rawEmailContent := p.rawEmailContent, emailReceivedAt := p.emailReceivedAt) == p
  {
    var pricing := CastPricing(parsed.pricing);
    if pricing.None? then None
    else
      var q := p.(pricing := pricing.value, deliveryTimeline := CastTimeline(parsed.deliveryTimeline),
                  paymentTerms := parsed.paymentTerms, warranty := parsed.warranty, additionalTerms := parsed.additionalTerms,
                  complianceScore := parsed.complianceScore, aiSummary := parsed.summary,
                  rawEmailContent := RawContent(mail), emailReceivedAt := mail.date);
      if Valid(q) then Some(q) else None
  }

  /** `Proposal.create({...})` at time `now`: status `received`, no AI score yet. */
  function NewProposal(rfpId: RfpId, vendorId: VendorId, parsed: ParsedProposal, mail: EmailFetch.InboundEmail, now: Time): (r: Option<Proposal>)
    ensures r.Some? <==> CastPricing(parsed.pricing).Some? && ScoreOk(parsed.complianceScore)
    ensures r.Some? ==> Valid(r.value)
    ensures r.Some? ==> r.value.rfpId == rfpId && r.value.vendorId == vendorId && r.value.status == Received
    ensures r.Some? ==> r.value.aiScore == None && r.value.aiRecommendation == None
    ensures r.Some? ==> r.value.pricing == CastPricing(parsed.pricing).value && r.value.complianceScore == parsed.complianceScore
    ensures r.Some? ==> r.value.deliveryTimeline == CastTimeline(parsed.deliveryTimeline) && r.value.paymentTerms == parsed.paymentTerms
    ensures r.Some? ==> r.value.warranty == parsed.warranty && r.value.additionalTerms == parsed.additionalTerms
    ensures r.Some? ==> r.value.aiSummary == parsed.summary && r.value.rawEmailContent == RawContent(mail) && r.value.emailReceivedAt == mail.date
    ensures r.Some? ==> r.value.createdAt == now && r.value.updatedAt == now
  {
    var pricing := CastPricing(parsed.pricing);
    if pricing.None? || !ScoreOk(parsed.complianceScore) then None
    else Some(Proposal(rfpId, vendorId, pricing.value, CastTimeline(parsed.deliveryTimeline), parsed.paymentTerms,
                       parsed.warranty, parsed.additionalTerms, parsed.complianceScore, parsed.summary, None, None,
                       RawContent(mail), mail.date, Received, now, now))
  }

  /** The RFP status after a reply: `sent` becomes `in-review`, every other status stays. */
  function BumpStatus(s: RfpModel.RfpStatus): (r: RfpModel.RfpStatus)
    ensures s == RfpModel.Sent ==> r == RfpModel.InReview
    ensures s != RfpModel.Sent ==> r == s
  {
    if s == RfpModel.Sent then RfpModel.InReview else s
  }

  /** Bumping twice is bumping once: a second reply leaves an `in-review` RFP alone. */
  lemma BumpIdempotent(s: RfpModel.RfpStatus)
    ensures BumpStatus(BumpStatus(s)) == BumpStatus(s)
    ensures BumpStatus(s) != RfpModel.Sent
  {
  }

  /** Creating a proposal for a pair that has none keeps the pairs unique. */
  lemma CreateKeepsPairsUnique(ps: map<ProposalId, Proposal>, id: ProposalId, p: Proposal)
    requires PairsUnique(ps) && id !in ps
    requires forall k :: k in ps ==> !(ps[k].rfpId == p.rfpId && ps[k].vendorId == p.vendorId)
    ensures PairsUnique(ps[id := p])
  {
    var ps' := ps[id := p];
    forall a, b | a in ps' && b in ps' && a != b
      ensures !(ps'[a].rfpId == ps'[b].rfpId && ps'[a].vendorId == ps'[b].vendorId)
    {
      if a == id {
        assert ps'[b] == ps[b];
      } else if b == id {
        assert ps'[a] == ps[a];
      }
    }
  }

  /** Overwriting a proposal with one for the same pair keeps the pairs unique. */
  lemma UpdateKeepsPairsUnique(ps: map<ProposalId, Proposal>, id: ProposalId, p: Proposal)
    requires PairsUnique(ps) && id in ps
    requires p.rfpId == ps[id].rfpId && p.vendorId == ps[id].vendorId
    ensures PairsUnique(ps[id := p])
  {
    var ps' := ps[id := p];
    forall a, b | a in ps' && b in ps' && a != b
      ensures !(ps'[a].rfpId == ps'[b].rfpId && ps'[a].vendorId == ps'[b].vendorId)
    {
      assert ps'[a].rfpId == ps[a].rfpId && ps'[a].vendorId == ps[a].vendorId;
      assert ps'[b].rfpId == ps[b].rfpId && ps'[b].vendorId == ps[b].vendorId;
    }
  }

  /** How far the lookups of a reply get: a stop, or the pair to file the parsed reply under. */
  datatype Route = Stop(outcome: IngestOutcome) | Go(rfpId: RfpId, vendorId: VendorId, parsed: ParsedProposal)

  /**
   * The reads of `processVendorResponse`: the vendor by sender address, the
   * title token of the subject, the first RFP whose title matches it, and the
   * parsed reply. A route to a pair names a vendor with the sender's address
   * and an RFP whose title matches the subject's token.
   */
  function RouteReply(vendors: map<VendorId, Vendor>, nv: nat, rfps: map<RfpId, RfpModel.Rfp>, nr: nat,
                      mail: EmailFetch.InboundEmail, response: Option<string>, decode: string -> Option<ParsedProposal>): (r: Route)
    ensures r.Stop? ==> !r.outcome.Stored? && r.outcome != SaveRejected
    ensures r.Go? ==>
      && r.vendorId in vendors && vendors[r.vendorId].email == mail.from
      && VendorByEmail(vendors, nv, mail.from) == Some(r.vendorId)
      && mail.subject.Some? && SubjectMatch.ExtractRfpTitle(mail.subject.value).Some?
      && r.rfpId in rfps && MatchesIgnoringCase(rfps[r.rfpId].title, SubjectMatch.ExtractRfpTitle(mail.subject.value).value)
      && RfpByTitle(rfps, nr, SubjectMatch.ExtractRfpTitle(mail.subject.value).value) == Some(r.rfpId)
      && ParseVendorResponse(response, decode) == Success(r.parsed)
  {
    var vendor := VendorByEmail(vendors, nv, mail.from);
    if vendor.None? then Stop(VendorUnknown)
    else if mail.subject.None? then Stop(SubjectMissing)
    else
      var token := SubjectMatch.ExtractRfpTitle(mail.subject.value);
      if token.None? then Stop(NoRfpInSubject)
      else
        var rfpId := RfpByTitle(rfps, nr, token.value);
        if rfpId.None? then Stop(RfpUnknown)
        else
          var parsed := ParseVendorResponse(response, decode);
          if parsed.Failure? then Stop(ParseFailed)
          else Go(rfpId.value, vendor.value, parsed.value)
  }

  /**
   * Why a reply stops: an unknown sender, a missing subject, a subject without
   * a title token, a token no title matches, or a reply the AI could not parse.
   */
  lemma RouteStops(vendors: map<VendorId, Vendor>, nv: nat, rfps: map<RfpId, RfpModel.Rfp>, nr: nat,
                   mail: EmailFetch.InboundEmail, response: Option<string>, decode: string -> Option<ParsedProposal>)
    ensures var r := RouteReply(vendors, nv, rfps, nr, mail, response, decode);
      && (r == Stop(VendorUnknown) <==> VendorByEmail(vendors, nv, mail.from).None?)
      && (r == Stop(SubjectMissing) <==> VendorByEmail(vendors, nv, mail.from).Some? && mail.subject.None?)
      && (r == Stop(NoRfpInSubject) <==>
           VendorByEmail(vendors, nv, mail.from).Some? && mail.subject.Some? && SubjectMatch.ExtractRfpTitle(mail.subject.value).None?)
      && (r == Stop(RfpUnknown) <==>
           VendorByEmail(vendors, nv, mail.from).Some? && mail.subject.Some? && SubjectMatch.ExtractRfpTitle(mail.subject.value).Some?
           && RfpByTitle(rfps, nr, SubjectMatch.ExtractRfpTitle(mail.subject.value).value).None?)
      && (r == Stop(ParseFailed) ==> ParseVendorResponse(response, decode).Failure?)
  {
  }

  /**
   * A reply to an RFP that was sent out, from a vendor it was sent to, always
   * reaches some RFP: the token read from the subject is the first word of the
   * stored title, which that title matches.
   */
  lemma ReplyReachesAnRfp(rfps: map<RfpId, RfpModel.Rfp>, nr: nat, id: RfpId)
    requires id in rfps && id < nr && RfpModel.Valid(rfps[id])
    ensures SubjectMatch.ExtractRfpTitle(EmailService.Subject(rfps[id].title)).Some?
    ensures RfpByTitle(rfps, nr, SubjectMatch.ExtractRfpTitle(EmailService.Subject(rfps[id].title)).value).Some?
  {
    SubjectMatch.StoredTitleReadsFirstWord(rfps[id].title);
  }

  /**
   * The writes of `processVendorResponse` once the pair is known: update the
   * pair's proposal or create one, then move a `sent` RFP to `in-review`. A
   * proposal that fails validation throws before anything is written.
   */
  method Upsert(db: Database, rid: RfpId, vid: VendorId, parsed: ParsedProposal, mail: EmailFetch.InboundEmail, now: Time)
    returns (outcome: IngestOutcome)
    requires db.Valid() && rid in db.rfps
    modifies db
    ensures db.Valid()
    ensures PairsUnique(old(db.proposals)) ==> PairsUnique(db.proposals)
    ensures db.vendors == old(db.vendors) && db.nextVendorId == old(db.nextVendorId) && db.nextRfpId == old(db.nextRfpId)
    ensures outcome == SaveRejected || (outcome.Stored? && outcome.rfpId == rid && outcome.vendorId == vid)
    ensures outcome == SaveRejected ==>
      db.rfps == old(db.rfps) && db.proposals == old(db.proposals) && db.nextProposalId == old(db.nextProposalId)
    ensures outcome.Stored? && outcome.created ==>
      && old(ProposalFor(db.proposals, db.nextProposalId, rid, vid)).None?
      && db.nextProposalId == old(db.nextProposalId) + 1 && outcome.proposalId == old(db.nextProposalId)
      && NewProposal(rid, vid, parsed, mail, now).Some?
      && db.proposals == old(db.proposals)[outcome.proposalId := NewProposal(rid, vid, parsed, mail, now).value]
    ensures outcome.Stored? && !outcome.created ==>
      && old(ProposalFor(db.proposals, db.nextProposalId, rid, vid)) == Some(outcome.proposalId)
      && db.nextProposalId == old(db.nextProposalId)
      && UpdatedProposal(old(db.proposals)[outcome.proposalId], parsed, mail).Some?
      && db.proposals == old(db.proposals)[outcome.proposalId :=
           PreSave(UpdatedProposal(old(db.proposals)[outcome.proposalId], parsed, mail).value, now)]
    ensures outcome.Stored? ==>
      db.rfps == (if old(db.rfps)[rid].status == RfpModel.Sent
                  then old(db.rfps)[rid := RfpModel.PreSave(old(db.rfps)[rid].(status := BumpStatus(RfpModel.Sent)), now)]
                  else old(db.rfps))
  {
    var rfp := db.rfps[rid];
    var existing := ProposalFor(db.proposals, db.nextProposalId, rid, vid);
    if existing.Some? {
      var updated := UpdatedProposal(db.proposals[existing.value], parsed, mail);
      if updated.None? {
        return SaveRejected;
      }
      ghost var before := db.proposals;
      db.SaveProposal(existing.value, updated.value, now);
      if PairsUnique(before) {
        UpdateKeepsPairsUnique(before, existing.value, PreSave(updated.value, now));
      }
      outcome := Stored(rid, vid, existing.value, false);
    } else {
      var created := NewProposal(rid, vid, parsed, mail, now);
      if created.None? {
        return SaveRejected;
      }
      ghost var before := db.proposals;
      var id := db.InsertProposal(created.value);
      if PairsUnique(before) {
        CreateKeepsPairsUnique(before, id, created.value);
      }
      outcome := Stored(rid, vid, id, true);
    }
    if rfp.status == RfpModel.Sent {
      db.SaveRfp(rid, rfp.(status := BumpStatus(rfp.status)), now);
    }
  }

  /**
   * `processVendorResponse(emailData)`: route the reply, then file it. Any
   * failure on the way is logged and writes nothing.
   */
  method ProcessVendorResponse(db: Database, mail: EmailFetch.InboundEmail, response: Option<string>,
                               decode: string -> Option<ParsedProposal>, now: Time)
    returns (outcome: IngestOutcome)
    requires db.Valid()
    modifies db
    ensures db.Valid()
    ensures PairsUnique(old(db.proposals)) ==> PairsUnique(db.proposals)
    ensures db.vendors == old(db.vendors) && db.nextVendorId == old(db.nextVendorId) && db.nextRfpId == old(db.nextRfpId)
    ensures !outcome.Stored? ==> db.rfps == old(db.rfps) && db.proposals == old(db.proposals) && db.nextProposalId == old(db.nextProposalId)
    ensures old(RouteReply(db.vendors, db.nextVendorId, db.rfps, db.nextRfpId, mail, response, decode)).Stop? ==>
      outcome == old(RouteReply(db.vendors, db.nextVendorId, db.rfps, db.nextRfpId, mail, response, decode)).outcome
    ensures old(RouteReply(db.vendors, db.nextVendorId, db.rfps, db.nextRfpId, mail, response, decode)).Go? ==>
      outcome == SaveRejected ||
      (outcome.Stored?
       && outcome.rfpId == old(RouteReply(db.vendors, db.nextVendorId, db.rfps, db.nextRfpId, mail, response, decode)).rfpId
       && outcome.vendorId == old(RouteReply(db.vendors, db.nextVendorId, db.rfps, db.nextRfpId, mail, response, decode)).vendorId)
    ensures var g := old(RouteReply(db.vendors, db.nextVendorId, db.rfps, db.nextRfpId, mail, response, decode));
      g.Go? && outcome.Stored? && outcome.created ==>
        && old(ProposalFor(db.proposals, db.nextProposalId, g.rfpId, g.vendorId)).None?
        && db.nextProposalId == old(db.nextProposalId) + 1 && outcome.proposalId == old(db.nextProposalId)
        && NewProposal(g.rfpId, g.vendorId, g.parsed, mail, now).Some?
        && db.proposals == old(db.proposals)[outcome.proposalId := NewProposal(g.rfpId, g.vendorId, g.parsed, mail, now).value]
    ensures var g := old(RouteReply(db.vendors, db.nextVendorId, db.rfps, db.nextRfpId, mail, response, decode));
      g.Go? && outcome.Stored? && !outcome.created ==>
        && old(ProposalFor(db.proposals, db.nextProposalId, g.rfpId, g.vendorId)) == Some(outcome.proposalId)
        && db.nextProposalId == old(db.nextProposalId)
        && outcome.proposalId in old(db.proposals)
        && UpdatedProposal(old(db.proposals)[outcome.proposalId], g.parsed, mail).Some?
        && db.proposals == old(db.proposals)[outcome.proposalId :=
             PreSave(UpdatedProposal(old(db.proposals)[outcome.proposalId], g.parsed, mail).value, now)]
    ensures var g := old(RouteReply(db.vendors, db.nextVendorId, db.rfps, db.nextRfpId, mail, response, decode));
      g.Go? && outcome.Stored? ==>
        && g.rfpId in old(db.rfps)
        && db.rfps == (if old(db.rfps)[g.rfpId].status == RfpModel.Sent
                       then old(db.rfps)[g.rfpId := RfpModel.PreSave(old(db.rfps)[g.rfpId].(status := BumpStatus(RfpModel.Sent)), now)]
                       else old(db.rfps))
  {
    var route := RouteReply(db.vendors, db.nextVendorId, db.rfps, db.nextRfpId, mail, response, decode);
    if route.Stop? {
      return route.outcome;
    }
    outcome := Upsert(db, route.rfpId, route.vendorId, route.parsed, mail, now);
  }

  // ---------------------------------------------------------------------------
  // compareProposals
  // ---------------------------------------------------------------------------

  /** `Array.prototype.find` by vendor name: the first index holding `name`. */
  function FirstNamed(names: seq<string>, name: string): (r: Option<nat>)
    ensures r.Some? ==> r.value < |names| && names[r.value] == name
    ensures r.Some? ==> forall i :: 0 <= i < r.value ==> names[i] != name
    ensures r.None? ==> forall i :: 0 <= i < |names| ==> names[i] != name
  {
    if names == [] then None
    else if names[0] == name then Some(0)
    else
      var r := FirstNamed(names[1..], name);
      assert forall i :: 1 <= i < |names| ==> names[1..][i - 1] == names[i];
      if r.None? then None else Some(r.value + 1)
  }

  /** The populated vendor names, one per proposal. */
  function VendorNames(list: seq<Populated>): (r: seq<string>)
    requires forall i :: 0 <= i < |list| ==> list[i].vendor.Some?
    ensures |r| == |list| && forall i :: 0 <= i < |list| ==> r[i] == list[i].vendor.value.name
  {
    seq(|list|, i requires 0 <= i < |list| => list[i].vendor.value.name)
  }

  /** `JSON.stringify({ priceScore, timelineScore, complianceScore, pros, cons })`, as a value. */
  function RecommendationOf(vs: VendorScore): Recommendation {
    Recommendation(vs.priceScore, vs.timelineScore, vs.complianceScore, vs.pros, vs.cons)
  }

  /** The two assignments made to a matched proposal. */
  function Scored(p: Proposal, vs: VendorScore): (q: Proposal)
    ensures q.aiScore == vs.overallScore && q.aiRecommendation == Some(RecommendationOf(vs))
    ensures q.(aiScore := p.aiScore, aiRecommendation := p.aiRecommendation) == p
  {
    p.(aiScore := vs.overallScore, aiRecommendation := Some(RecommendationOf(vs)))
  }

  /**
   * One iteration of the loop: the first proposal with the score's vendor name
   * gets the score and is saved; `None` is a save that fails validation.
   */
  function ApplyScore(docs: seq<Proposal>, names: seq<string>, vs: VendorScore, now: Time): (r: Option<seq<Proposal>>)
    requires |names| == |docs|
    ensures r.Some? ==> |r.value| == |docs|
  {
    var i := FirstNamed(names, vs.vendorName);
    if i.None? then Some(docs)
    else
      var d := Scored(docs[i.value], vs);
      if Valid(d) then Some(docs[i.value := PreSave(d, now)]) else None
  }

  /** Only score, recommendation and save time differ between two documents. */
  predicate SameButScores(p: Proposal, q: Proposal) {
    q.(aiScore := p.aiScore, aiRecommendation := p.aiRecommendation, updatedAt := p.updatedAt) == p
  }

  predicate AllValid(docs: seq<Proposal>) {
    forall i :: 0 <= i < |docs| ==> Valid(docs[i])
  }

  /**
   * The documents after the loop has run over `scores`, and whether it ran to
   * the end: the first save that fails validation throws, leaving the
   * documents as the earlier iterations left them.
   */
  function MergeScores(docs: seq<Proposal>, names: seq<string>, scores: seq<VendorScore>, now: Time): (r: (seq<Proposal>, bool))
    requires |names| == |docs|
    ensures |r.0| == |docs|
    ensures forall i :: 0 <= i < |docs| ==> SameButScores(docs[i], r.0[i])
    ensures AllValid(docs) ==> AllValid(r.0)
    decreases |scores|
  {
    if scores == [] then (docs, true)
    else
      var prev := MergeScores(docs, names, scores[..|scores| - 1], now);
      if !prev.1 then prev
      else
        var next := ApplyScore(prev.0, names, scores[|scores| - 1], now);
        if next.None? then (prev.0, false) else (next.value, true)
  }

  /** A proposal that no score's vendor name selects is left exactly as it was. */
  lemma {:induction false} MergeLeavesUnmatched(docs: seq<Proposal>, names: seq<string>, scores: seq<VendorScore>, now: Time, i: nat)
    requires |names| == |docs| && i < |docs|
    requires forall k :: 0 <= k < |scores| ==> FirstNamed(names, scores[k].vendorName) != Some(i)
    ensures MergeScores(docs, names, scores, now).0[i] == docs[i]
    decreases |scores|
  {
    if scores != [] {
      var pre := scores[..|scores| - 1];
      assert forall k :: 0 <= k < |pre| ==> pre[k] == scores[k];
      MergeLeavesUnmatched(docs, names, pre, now, i);
    }
  }

  /** Only the first proposal carrying a vendor name can be scored: later namesakes are untouched. */
  lemma OnlyFirstNamesakeScored(docs: seq<Proposal>, names: seq<string>, scores: seq<VendorScore>, now: Time, i: nat, j: nat)
    requires |names| == |docs| && i < j < |docs| && names[i] == names[j]
    ensures MergeScores(docs, names, scores, now).0[j] == docs[j]
  {
    forall k | 0 <= k < |scores| ensures FirstNamed(names, scores[k].vendorName) != Some(j) {
      var f := FirstNamed(names, scores[k].vendorName);
      assert f.Some? ==> names[i] != scores[k].vendorName || f.value <= i;
    }
    MergeLeavesUnmatched(docs, names, scores, now, j);
  }

  /** One more score after a completed prefix. */
  lemma MergeStep(docs: seq<Proposal>, names: seq<string>, scores: seq<VendorScore>, now: Time, k: nat)
    requires |names| == |docs| && k < |scores|
    ensures MergeScores(docs, names, scores[..k + 1], now) ==
      (var prev := MergeScores(docs, names, scores[..k], now);
       if !prev.1 then prev
       else
         var next := ApplyScore(prev.0, names, scores[k], now);
         if next.None? then (prev.0, false) else (next.value, true))
  {
    assert scores[..k + 1][..k] == scores[..k];
    assert scores[..k + 1][k] == scores[k];
  }

  /** One turn of the score loop, in the three ways it can go. */
  lemma MergeAdvance(docs0: seq<Proposal>, names: seq<string>, scores: seq<VendorScore>, now: Time, k: nat, docs: seq<Proposal>)
    requires |names| == |docs0| && k < |scores|
    requires MergeScores(docs0, names, scores[..k], now) == (docs, true)
    ensures FirstNamed(names, scores[k].vendorName).None? ==> MergeScores(docs0, names, scores[..k + 1], now) == (docs, true)
    ensures var i := FirstNamed(names, scores[k].vendorName);
      i.Some? && !Valid(Scored(docs[i.value], scores[k])) ==> MergeScores(docs0, names, scores, now) == (docs, false)
    ensures var i := FirstNamed(names, scores[k].vendorName);
      i.Some? && Valid(Scored(docs[i.value], scores[k])) ==>
        MergeScores(docs0, names, scores[..k + 1], now) == (docs[i.value := PreSave(Scored(docs[i.value], scores[k]), now)], true)
  {
    MergeStep(docs0, names, scores, now, k);
    var i := FirstNamed(names, scores[k].vendorName);
    if i.Some? && !Valid(Scored(docs[i.value], scores[k])) {
      MergeStaysStopped(docs0, names, scores, now, k + 1);
    }
  }

  /** Once the loop has stopped on a failed save, later scores change nothing. */
  lemma {:induction false} MergeStaysStopped(docs: seq<Proposal>, names: seq<string>, scores: seq<VendorScore>, now: Time, k: nat)
    requires |names| == |docs| && k <= |scores|
    requires !MergeScores(docs, names, scores[..k], now).1
    ensures MergeScores(docs, names, scores, now) == MergeScores(docs, names, scores[..k], now)
    decreases |scores| - k
  {
    if k < |scores| {
      MergeStep(docs, names, scores, now, k);
      MergeStaysStopped(docs, names, scores, now, k + 1);
    } else {
      assert scores[..k] == scores;
    }
  }

  /**
   * When the loop completes, a scored proposal carries the score of the last
   * vendorScore that selected it, and the time of that save.
   */
  lemma {:induction false} LastScoreWins(docs: seq<Proposal>, names: seq<string>, scores: seq<VendorScore>, now: Time, k: nat, i: nat)
    requires |names| == |docs| && k < |scores| && i < |docs|
    requires MergeScores(docs, names, scores, now).1
    requires FirstNamed(names, scores[k].vendorName) == Some(i)
    requires forall k' :: k < k' < |scores| ==> FirstNamed(names, scores[k'].vendorName) != Some(i)
    ensures MergeScores(docs, names, scores, now).0[i].aiScore == scores[k].overallScore
    ensures MergeScores(docs, names, scores, now).0[i].aiRecommendation == Some(RecommendationOf(scores[k]))
    ensures MergeScores(docs, names, scores, now).0[i].updatedAt == now
    decreases |scores|
  {
    var last := |scores| - 1;
    var pre := scores[..last];
    assert forall k' :: 0 <= k' < |pre| ==> pre[k'] == scores[k'];
    assert scores == pre + [scores[last]];
    var prev := MergeScores(docs, names, pre, now);
    assert prev.1;
    var next := ApplyScore(prev.0, names, scores[last], now);
    assert next.Some? && MergeScores(docs, names, scores, now) == (next.value, true);
    if k != last {
      LastScoreWins(docs, names, pre, now, k, i);
      assert next.value[i] == prev.0[i];
    } else {
      assert next.value[i] == PreSave(Scored(prev.0[i], scores[k]), now);
    }
  }

  /**
   * The loop completes exactly when every score that selects a proposal is
   * missing or within 0..100.
   */
  lemma {:induction false} MergeCompletes(docs: seq<Proposal>, names: seq<string>, scores: seq<VendorScore>, now: Time)
    requires |names| == |docs| && AllValid(docs)
    ensures MergeScores(docs, names, scores, now).1 <==>
      forall k :: 0 <= k < |scores| && FirstNamed(names, scores[k].vendorName).Some? ==> ScoreOk(scores[k].overallScore)
    decreases |scores|
  {
    if scores != [] {
      var last := |scores| - 1;
      var pre := scores[..last];
      assert forall k' :: 0 <= k' < |pre| ==> pre[k'] == scores[k'];
      MergeCompletes(docs, names, pre, now);
      var prev := MergeScores(docs, names, pre, now);
      if prev.1 {
        var f := FirstNamed(names, scores[last].vendorName);
        if f.Some? {
          assert Valid(prev.0[f.value]);
          assert Valid(Scored(prev.0[f.value], scores[last])) <==> ScoreOk(scores[last].overallScore);
        }
      }
    }
  }

  /** What `compareProposals` answers; its 500 covers both a failed comparison and a failed save. */
  datatype CompareOutcome =
    | RfpNotFound
    | NoProposals
    | CompareFailed
    | Compared(ids: seq<ProposalId>, docs: seq<Proposal>, comparison: Comparison)

  /** Rewriting proposals without touching their pairs keeps the pairs unique. */
  lemma SamePairsKeepUnique(p0: map<ProposalId, Proposal>, p1: map<ProposalId, Proposal>)
    requires PairsUnique(p0) && p1.Keys == p0.Keys
    requires forall k :: k in p0 ==> p1[k].rfpId == p0[k].rfpId && p1[k].vendorId == p0[k].vendorId
    ensures PairsUnique(p1)
  {
    forall a, b | a in p1 && b in p1 && a != b
      ensures !(p1[a].rfpId == p1[b].rfpId && p1[a].vendorId == p1[b].vendorId)
    {
      assert a in p0 && b in p0;
    }
  }

  /**
   * `await proposal.save()` on the in-memory document at position `j`: the
   * database and the documents change at that position alone.
   */
  method SaveScored(db: Database, ids: seq<ProposalId>, docs: seq<Proposal>, j: nat, d: Proposal, now: Time)
    returns (docs': seq<Proposal>)
    requires db.Valid() && |docs| == |ids| && DistinctIds(ids) && j < |ids| && Valid(d)
    requires forall i :: 0 <= i < |ids| ==> ids[i] in db.proposals && db.proposals[ids[i]] == docs[i]
    modifies db
    ensures db.Valid()
    ensures db.vendors == old(db.vendors) && db.rfps == old(db.rfps)
    ensures db.nextVendorId == old(db.nextVendorId) && db.nextRfpId == old(db.nextRfpId) && db.nextProposalId == old(db.nextProposalId)
    ensures db.proposals.Keys == old(db.proposals).Keys
    ensures docs' == docs[j := PreSave(d, now)]
    ensures forall i :: 0 <= i < |ids| ==> db.proposals[ids[i]] == docs'[i]
    ensures forall key :: key in old(db.proposals) && key !in ids ==> db.proposals[key] == old(db.proposals)[key]
  {
    db.SaveProposal(ids[j], d, now);
    docs' := docs[j := PreSave(d, now)];
  }

  /**
   * The loop `for (const vendorScore of comparison.vendorScores)` over the
   * in-memory documents `docs0` stored under `ids`: each matched document is
   * scored and saved at once. It ends where `MergeScores` says, and the
   * database then holds the documents as the loop left them.
   */
  method ApplyScores(db: Database, ids: seq<ProposalId>, docs0: seq<Proposal>, names: seq<string>,
                     scores: seq<VendorScore>, now: Time)
    returns (docs: seq<Proposal>, completed: bool)
    requires db.Valid() && |docs0| == |ids| && |names| == |ids| && DistinctIds(ids)
    requires forall i :: 0 <= i < |ids| ==> ids[i] in db.proposals && db.proposals[ids[i]] == docs0[i]
    modifies db
    ensures db.Valid()
    ensures db.vendors == old(db.vendors) && db.rfps == old(db.rfps)
    ensures db.nextVendorId == old(db.nextVendorId) && db.nextRfpId == old(db.nextRfpId) && db.nextProposalId == old(db.nextProposalId)
    ensures db.proposals.Keys == old(db.proposals).Keys
    ensures MergeScores(docs0, names, scores, now) == (docs, completed)
    ensures forall i :: 0 <= i < |ids| ==> db.proposals[ids[i]] == docs[i]
    ensures forall key :: key in old(db.proposals) && key !in ids ==> db.proposals[key] == old(db.proposals)[key]
  {
    docs := docs0;
    var k := 0;
    while k < |scores|
      invariant 0 <= k <= |scores|
      invariant db.Valid() && |docs| == |ids|
      invariant db.vendors == old(db.vendors) && db.rfps == old(db.rfps)
      invariant db.nextVendorId == old(db.nextVendorId) && db.nextRfpId == old(db.nextRfpId) && db.nextProposalId == old(db.nextProposalId)
      invariant db.proposals.Keys == old(db.proposals).Keys
      invariant MergeScores(docs0, names, scores[..k], now) == (docs, true)
      invariant forall i :: 0 <= i < |ids| ==> db.proposals[ids[i]] == docs[i]
      invariant forall key :: key in old(db.proposals) && key !in ids ==> db.proposals[key] == old(db.proposals)[key]
    {
      MergeAdvance(docs0, names, scores, now, k, docs);
      var vs := scores[k];
      var i := FirstNamed(names, vs.vendorName);
      if i.Some? {
        var d := Scored(docs[i.value], vs);
        if !Valid(d) {
          // the save throws and the loop stops
          return docs, false;
        }
        docs := SaveScored(db, ids, docs, i.value, d, now);
      }
      k := k + 1;
    }
    assert scores[..k] == scores;
    completed := true;
  }

  /**
   * After the score loop every proposal keeps its vendor and RFP, so the
   * pairs stay unique.
   */
  lemma ScoringKeepsPairs(p0: map<ProposalId, Proposal>, p1: map<ProposalId, Proposal>, ids: seq<ProposalId>,
                          docs0: seq<Proposal>, docs: seq<Proposal>)
    requires p1.Keys == p0.Keys && |docs0| == |ids| && |docs| == |ids|
    requires forall i :: 0 <= i < |ids| ==> ids[i] in p0 && p0[ids[i]] == docs0[i] && p1[ids[i]] == docs[i]
    requires forall i :: 0 <= i < |ids| ==> SameButScores(docs0[i], docs[i])
    requires forall key :: key in p0 && key !in ids ==> p1[key] == p0[key]
    ensures forall k :: k in p0 ==> p1[k].rfpId == p0[k].rfpId && p1[k].vendorId == p0[k].vendorId
    ensures PairsUnique(p0) ==> PairsUnique(p1)
  {
    forall k | k in p0 ensures p1[k].rfpId == p0[k].rfpId && p1[k].vendorId == p0[k].vendorId {
      if k in ids {
        var i :| 0 <= i < |ids| && ids[i] == k;
        assert SameButScores(docs0[i], docs[i]);
      }
    }
    if PairsUnique(p0) {
      SamePairsKeepUnique(p0, p1);
    }
  }

  /**
   * `compareProposals(req, res)` for `rfpId`: 404 for an unknown RFP or one
   * without proposals, then the AI comparison, then the score loop; its 500
   * covers a failed comparison and a failed save alike.
   */
  method CompareProposals(db: Database, rfpId: RfpId, response: Option<string>,
                          decode: string -> Option<Comparison>, now: Time)
    returns (outcome: CompareOutcome)
    requires db.Valid()
    modifies db
    ensures db.Valid()
    ensures db.vendors == old(db.vendors) && db.rfps == old(db.rfps)
    ensures db.nextVendorId == old(db.nextVendorId) && db.nextRfpId == old(db.nextRfpId) && db.nextProposalId == old(db.nextProposalId)
    ensures db.proposals.Keys == old(db.proposals).Keys
    ensures PairsUnique(old(db.proposals)) ==> PairsUnique(db.proposals)
    ensures outcome == RfpNotFound <==> rfpId !in old(db.rfps)
    ensures outcome == NoProposals <==> rfpId in old(db.rfps) && old(ProposalsOfRfp(db.proposals, db.nextProposalId, rfpId)) == []
    ensures outcome == RfpNotFound || outcome == NoProposals ==> db.proposals == old(db.proposals)
    ensures forall k :: k in old(db.proposals) && old(db.proposals)[k].rfpId != rfpId ==> db.proposals[k] == old(db.proposals)[k]
    ensures outcome.Compared? ==>
      var ids := old(ProposalsOfRfp(db.proposals, db.nextProposalId, rfpId));
      var list := old(Populate(db.proposals, db.vendors, ids));
      && CompareProposalsAndRecommend(list, response, decode) == Success(outcome.comparison)
      && outcome.ids == ids
      && (forall i :: 0 <= i < |list| ==> list[i].vendor.Some?)
      && MergeScores(old(Docs(db.proposals, ids)), VendorNames(list), outcome.comparison.vendorScores, now) == (outcome.docs, true)
      && (forall i :: 0 <= i < |ids| ==> db.proposals[ids[i]] == outcome.docs[i])
    ensures rfpId in old(db.rfps) ==>
      var ids := old(ProposalsOfRfp(db.proposals, db.nextProposalId, rfpId));
      var list := old(Populate(db.proposals, db.vendors, ids));
      ids != [] && CompareProposalsAndRecommend(list, response, decode).Failure? ==>
        outcome == CompareFailed && db.proposals == old(db.proposals)
    ensures outcome == CompareFailed ==>
      var ids := old(ProposalsOfRfp(db.proposals, db.nextProposalId, rfpId));
      var list := old(Populate(db.proposals, db.vendors, ids));
      var comparison := CompareProposalsAndRecommend(list, response, decode);
      comparison.Success? ==>
        var m := MergeScores(old(Docs(db.proposals, ids)), VendorNames(list), comparison.value.vendorScores, now);
        && !m.1
        && (forall i :: 0 <= i < |ids| ==> db.proposals[ids[i]] == m.0[i])
  {
    if rfpId !in db.rfps {
      return RfpNotFound;
    }
    var ids := ProposalsOfRfp(db.proposals, db.nextProposalId, rfpId);
    if ids == [] {
      return NoProposals;
    }
    var list := Populate(db.proposals, db.vendors, ids);
    var comparison := CompareProposalsAndRecommend(list, response, decode);
    if comparison.Failure? {
      return CompareFailed;
    }
    outcome := ScoreProposals(db, rfpId, ids, list, comparison.value, now);
  }

  /**
   * The part of `compareProposals` after a successful comparison: the score
   * loop over the RFP's proposals as loaded, each document saved as it is
   * scored. A failed save is the 500 of `CompareFailed`.
   */
  method ScoreProposals(db: Database, rfpId: RfpId, ids: seq<ProposalId>, list: seq<Populated>,
                        comparison: Comparison, now: Time)
    returns (outcome: CompareOutcome)
    requires db.Valid()
    requires ids == ProposalsOfRfp(db.proposals, db.nextProposalId, rfpId)
    requires list == Populate(db.proposals, db.vendors, ids)
    requires forall i :: 0 <= i < |list| ==> list[i].vendor.Some?
    modifies db
    ensures db.Valid()
    ensures db.vendors == old(db.vendors) && db.rfps == old(db.rfps)
    ensures db.nextVendorId == old(db.nextVendorId) && db.nextRfpId == old(db.nextRfpId) && db.nextProposalId == old(db.nextProposalId)
    ensures db.proposals.Keys == old(db.proposals).Keys
    ensures PairsUnique(old(db.proposals)) ==> PairsUnique(db.proposals)
    ensures forall k :: k in old(db.proposals) && old(db.proposals)[k].rfpId != rfpId ==> db.proposals[k] == old(db.proposals)[k]
    ensures outcome == CompareFailed || outcome.Compared?
    ensures outcome == CompareFailed ==>
      var m := MergeScores(old(Docs(db.proposals, ids)), VendorNames(list), comparison.vendorScores, now);
      && !m.1
      && (forall i :: 0 <= i < |ids| ==> db.proposals[ids[i]] == m.0[i])
    ensures outcome.Compared? ==>
      && outcome.ids == ids && outcome.comparison == comparison
      && MergeScores(old(Docs(db.proposals, ids)), VendorNames(list), comparison.vendorScores, now) == (outcome.docs, true)
      && (forall i :: 0 <= i < |ids| ==> db.proposals[ids[i]] == outcome.docs[i])
  {
    ghost var p0 := db.proposals;
    var docs0 := Docs(db.proposals, ids);
    assert DistinctIds(ids);
    var docs, completed := ApplyScores(db, ids, docs0, VendorNames(list), comparison.vendorScores, now);
    ScoringKeepsPairs(p0, db.proposals, ids, docs0, docs);
    if !completed {
      return CompareFailed;
    }
    outcome := Compared(ids, docs, comparison);
  }

  predicate DistinctIds(ids: seq<ProposalId>) {
    forall i, j :: 0 <= i < j < |ids| ==> ids[i] != ids[j]
  }

  /** The proposals with the given ids, in that order, as loaded before the loop. */
  function Docs(ps: map<ProposalId, Proposal>, ids: seq<ProposalId>): (r: seq<Proposal>)
    requires forall i :: 0 <= i < |ids| ==> ids[i] in ps
    ensures |r| == |ids| && forall i :: 0 <= i < |ids| ==> r[i] == ps[ids[i]]
  {
    seq(|ids|, i requires 0 <= i < |ids| => ps[ids[i]])
  }
}
