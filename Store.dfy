/**
 * The database: one map per collection, keyed by ids allocated in insertion
 * order, so that a query's natural order is ascending id. `Select` and
 * `FindFirst` are `find` and `findOne`; the named queries below are the ones the
 * controllers issue.
 */
module Store {
  import opened Wrappers
  import opened Ids
  import opened Text
  import RfpModel
  import ProposalModel

  /** The vendor fields the core reads (models/Vendor.js is not part of this model). */
  datatype Vendor = Vendor(
    name: string,
    email: string,
    company: Option<string>,
    phone: Option<string>,
    address: Option<string>,
    specialization: Option<string>)

  predicate Ascending(ks: seq<nat>) {
    forall i, j :: 0 <= i < j < |ks| ==> ks[i] < ks[j]
  }

  /**
   * `find`: the keys below `n` whose entries satisfy `p`, in ascending order —
   * exactly those keys, each once.
   */
  function Select<T>(m: map<nat, T>, n: nat, p: (nat, T) -> bool): (r: seq<nat>)
    ensures Ascending(r)
    ensures forall i :: 0 <= i < |r| ==> r[i] < n && r[i] in m && p(r[i], m[r[i]])
    ensures forall k :: k < n && k in m && p(k, m[k]) ==> k in r
  {
    if n == 0 then []
    else
      var prev := Select(m, n - 1, p);
      if n - 1 in m && p(n - 1, m[n - 1]) then prev + [n - 1] else prev
  }

  /** `findOne`: the first entry in natural order that satisfies `p`, if any. */
  function FindFirst<T>(m: map<nat, T>, n: nat, p: (nat, T) -> bool): (r: Option<nat>)
    ensures r.Some? ==> r.value < n && r.value in m && p(r.value, m[r.value])
    ensures r.Some? ==> forall k :: k < r.value && k in m ==> !p(k, m[k])
    ensures r.None? ==> forall k :: k < n && k in m ==> !p(k, m[k])
  {
    var s := Select(m, n, p);
    if s == [] then None
    else
      assert forall k :: k < s[0] && k in m && p(k, m[k]) ==> k in s;
      Some(s[0])
  }

  /** `Vendor.findOne({ email })`. */
  function VendorByEmail(vendors: map<VendorId, Vendor>, n: nat, email: string): (r: Option<VendorId>)
    ensures r.Some? ==> r.value < n && r.value in vendors && vendors[r.value].email == email
    ensures r.Some? ==> forall k :: k < r.value && k in vendors ==> vendors[k].email != email
    ensures r.None? ==> forall k :: k < n && k in vendors ==> vendors[k].email != email
  {
    FindFirst(vendors, n, (k: nat, v: Vendor) => v.email == email)
  }

  /** `Vendor.find({ _id: { $in: ids } })`: the known vendors among `ids`, in natural order, each once. */
  function VendorsAmong(vendors: map<VendorId, Vendor>, n: nat, ids: seq<VendorId>): (r: seq<VendorId>)
    ensures Ascending(r)
    ensures forall i :: 0 <= i < |r| ==> r[i] in vendors && r[i] in ids
    ensures forall k :: k < n && k in vendors && k in ids ==> k in r
  {
    Select(vendors, n, (k: nat, v: Vendor) => k in ids)
  }

  /** `RFP.findOne({ title: { $regex: new RegExp(token, 'i') } })`, with the pattern taken literally. */
  function RfpByTitle(rfps: map<RfpId, RfpModel.Rfp>, n: nat, token: string): (r: Option<RfpId>)
    ensures r.Some? ==> r.value < n && r.value in rfps && MatchesIgnoringCase(rfps[r.value].title, token)
    ensures r.Some? ==> forall k :: k < r.value && k in rfps ==> !MatchesIgnoringCase(rfps[k].title, token)
    ensures r.None? ==> forall k :: k < n && k in rfps ==> !MatchesIgnoringCase(rfps[k].title, token)
  {
    FindFirst(rfps, n, (k: nat, x: RfpModel.Rfp) => MatchesIgnoringCase(x.title, token))
  }

  /** `Proposal.find({ rfpId })`. */
  function ProposalsOfRfp(ps: map<ProposalId, ProposalModel.Proposal>, n: nat, rfpId: RfpId): (r: seq<ProposalId>)
    ensures Ascending(r)
    ensures forall i :: 0 <= i < |r| ==> r[i] in ps && ps[r[i]].rfpId == rfpId
    ensures forall k :: k < n && k in ps && ps[k].rfpId == rfpId ==> k in r
  {
    Select(ps, n, (k: nat, p: ProposalModel.Proposal) => p.rfpId == rfpId)
  }

  /** `Proposal.findOne({ rfpId, vendorId })`. */
  function ProposalFor(ps: map<ProposalId, ProposalModel.Proposal>, n: nat, rfpId: RfpId, vendorId: VendorId): (r: Option<ProposalId>)
    ensures r.Some? ==> r.value in ps && ps[r.value].rfpId == rfpId && ps[r.value].vendorId == vendorId
    ensures r.None? ==> forall k :: k < n && k in ps ==> !(ps[k].rfpId == rfpId && ps[k].vendorId == vendorId)
  {
    FindFirst(ps, n, (k: nat, p: ProposalModel.Proposal) => p.rfpId == rfpId && p.vendorId == vendorId)
  }

  /** At most one proposal per (RFP, vendor) pair. */
  predicate PairsUnique(ps: map<ProposalId, ProposalModel.Proposal>) {
    forall a, b :: a in ps && b in ps && a != b ==>
      !(ps[a].rfpId == ps[b].rfpId && ps[a].vendorId == ps[b].vendorId)
  }

  /** A proposal with its `vendorId` populated; a deleted vendor populates as `null`. */
  datatype Populated = Populated(id: ProposalId, proposal: ProposalModel.Proposal, vendor: Option<Vendor>)

  /** `.populate('vendorId', …)` over the proposals with the given ids, in the same order. */
  function Populate(ps: map<ProposalId, ProposalModel.Proposal>, vendors: map<VendorId, Vendor>, ids: seq<ProposalId>): (r: seq<Populated>)
    requires forall i :: 0 <= i < |ids| ==> ids[i] in ps
    ensures |r| == |ids|
    ensures forall i :: 0 <= i < |r| ==> r[i].id == ids[i] && r[i].proposal == ps[ids[i]]
    ensures forall i :: 0 <= i < |r| ==>
      r[i].vendor == (if ps[ids[i]].vendorId in vendors then Some(vendors[ps[ids[i]].vendorId]) else None)
  {
    seq(|ids|, i requires 0 <= i < |ids| =>
      var p := ps[ids[i]];
      Populated(ids[i], p, if p.vendorId in vendors then Some(vendors[p.vendorId]) else None))
  }

  class Database {
    var vendors: map<VendorId, Vendor>
    var rfps: map<RfpId, RfpModel.Rfp>
    var proposals: map<ProposalId, ProposalModel.Proposal>
    var nextVendorId: nat
    var nextRfpId: nat
    var nextProposalId: nat

    /** Ids lie below the next id to allocate, and every stored record passed its schema's validation. */
    ghost predicate Valid()
      reads this
    {
      && (forall k :: k in vendors ==> k < nextVendorId)
      && (forall k :: k in rfps ==> k < nextRfpId && RfpModel.Valid(rfps[k]))
      && (forall k :: k in proposals ==> k < nextProposalId && ProposalModel.Valid(proposals[k]))
    }

    /** A database holding the given vendors and nothing else. */
    constructor (vs: map<VendorId, Vendor>, bound: nat)
      requires forall k :: k in vs ==> k < bound
      ensures Valid()
      ensures vendors == vs && nextVendorId == bound
      ensures rfps == map[] && proposals == map[]
    {
      vendors, rfps, proposals := vs, map[], map[];
      nextVendorId, nextRfpId, nextProposalId := bound, 0, 0;
    }

    /** `RFP.create`: stores a validated RFP under a fresh id. */
    method InsertRfp(r: RfpModel.Rfp) returns (id: RfpId)
      requires Valid() && RfpModel.Valid(r)
      modifies this
      ensures Valid()
      ensures id == old(nextRfpId) && id !in old(rfps)
      ensures rfps == old(rfps)[id := r] && nextRfpId == old(nextRfpId) + 1
      ensures vendors == old(vendors) && proposals == old(proposals)
      ensures nextVendorId == old(nextVendorId) && nextProposalId == old(nextProposalId)
    {
      id := nextRfpId;
      rfps := rfps[id := r];
      nextRfpId := nextRfpId + 1;
    }

    /** `rfp.save()` of a valid document at time `now`: runs the pre-save hook and overwrites the stored one. */
    method SaveRfp(id: RfpId, r: RfpModel.Rfp, now: Time)
      requires Valid() && id in rfps && RfpModel.Valid(r)
      modifies this
      ensures Valid()
      ensures rfps == old(rfps)[id := RfpModel.PreSave(r, now)]
      ensures vendors == old(vendors) && proposals == old(proposals)
      ensures nextVendorId == old(nextVendorId) && nextRfpId == old(nextRfpId) && nextProposalId == old(nextProposalId)
    {
      rfps := rfps[id := RfpModel.PreSave(r, now)];
    }

    /** `Proposal.create`: stores a validated proposal under a fresh id. */
    method InsertProposal(p: ProposalModel.Proposal) returns (id: ProposalId)
      requires Valid() && ProposalModel.Valid(p)
      modifies this
      ensures Valid()
      ensures id == old(nextProposalId) && id !in old(proposals)
      ensures proposals == old(proposals)[id := p] && nextProposalId == old(nextProposalId) + 1
      ensures vendors == old(vendors) && rfps == old(rfps)
      ensures nextVendorId == old(nextVendorId) && nextRfpId == old(nextRfpId)
    {
      id := nextProposalId;
      proposals := proposals[id := p];
      nextProposalId := nextProposalId + 1;
    }

    /** `proposal.save()` of a valid document at time `now`. */
    method SaveProposal(id: ProposalId, p: ProposalModel.Proposal, now: Time)
      requires Valid() && id in proposals && ProposalModel.Valid(p)
      modifies this
      ensures Valid()
      ensures proposals == old(proposals)[id := ProposalModel.PreSave(p, now)]
      ensures vendors == old(vendors) && rfps == old(rfps)
      ensures nextVendorId == old(nextVendorId) && nextRfpId == old(nextRfpId) && nextProposalId == old(nextProposalId)
    {
      proposals := proposals[id := ProposalModel.PreSave(p, now)];
    }
  }
}
