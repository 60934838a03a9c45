/**
 * backend/src/services/aiService.js without the model call: the clean-up every
 * LLM response goes through before `JSON.parse`, the payload built from the
 * proposals for the comparison prompt, and the single error message each call
 * reports. The LLM's reply is an input (`None` when the call failed) and
 * `JSON.parse` is the `decode` parameter.
 */
module AiService {
  import opened Wrappers
  import opened Text
  import RfpModel
  import opened ProposalModel
  import Store

  // ---------------------------------------------------------------------------
  // Code-fence stripping:
  //   text.trim().replace(/```json\n?/g, '').replace(/```\n?/g, '').trim()
  // ---------------------------------------------------------------------------

  /** Three backticks at index `k`. */
  predicate FenceAt(s: string, k: int) {
    0 <= k && k + 3 <= |s| && s[k] == '`' && s[k + 1] == '`' && s[k + 2] == '`'
  }

  predicate NoFence(s: string) {
    forall k :: 0 <= k < |s| ==> !FenceAt(s, k)
  }

  predicate JsonFenceAt(s: string, k: int) {
    FenceAt(s, k) && k + 7 <= |s| && s[k + 3..k + 7] == "json"
  }

  /** The length of a match at the start of `s` of the fence followed by `extra` and an optional newline. */
  function MatchLength(s: string, extra: nat): nat
    requires 3 + extra <= |s|
  {
    if 3 + extra < |s| && s[3 + extra] == '\n' then 4 + extra else 3 + extra
  }

  /** The first replacement: every "```json", with the newline after it if any, removed left to right. */
  function StripJsonFences(s: string): (r: string)
    ensures '`' !in s ==> r == s
    decreases |s|
  {
    if s == [] then []
    else if JsonFenceAt(s, 0) then StripJsonFences(s[MatchLength(s, 4)..])
    else
      assert '`' !in s ==> '`' !in s[1..];
      [s[0]] + StripJsonFences(s[1..])
  }

  /**
   * The second replacement: every "```", with the newline after it if any,
   * removed left to right. No three backticks survive: a backtick that is kept
   * is never directly followed by a match, since the scan would have matched at
   * the backtick itself.
   */
  function StripTicks(s: string): (r: string)
    ensures NoFence(r)
    ensures s != [] && !FenceAt(s, 0) ==> r != [] && r[0] == s[0]
    ensures '`' !in s ==> r == s
    decreases |s|
  {
    if s == [] then []
    else if FenceAt(s, 0) then StripTicks(s[MatchLength(s, 0)..])
    else
      var rest := StripTicks(s[1..]);
      var r := [s[0]] + rest;
      assert '`' !in s ==> '`' !in s[1..];
      assert !FenceAt(r, 0) by {
        if s[0] == '`' && |s| > 1 {
          assert !FenceAt(s[1..], 0);
          assert rest[0] == s[1];
          if s[1] == '`' && |s| > 2 {
            assert !FenceAt(s[1..][1..], 0);
            assert StripTicks(s[1..]) == [s[1]] + StripTicks(s[1..][1..]);
            assert rest[1] == s[2];
          }
        }
      }
      assert forall k :: 1 <= k < |r| ==> (FenceAt(r, k) <==> FenceAt(rest, k - 1));
      r
  }

  /** A slice of a fence-free string is fence-free. */
  lemma SliceKeepsNoFence(s: string, t: string, a: nat)
    requires a + |t| <= |s| && t == s[a..a + |t|]
    requires NoFence(s)
    ensures NoFence(t)
  {
    forall k | 0 <= k < |t| ensures !FenceAt(t, k) {
      if k + 3 <= |t| {
        assert t[k] == s[a + k] && t[k + 1] == s[a + k + 1] && t[k + 2] == s[a + k + 2];
        assert !FenceAt(s, a + k);
      }
    }
  }

  lemma TrimKeepsNoTick(s: string)
    requires '`' !in s
    ensures '`' !in Trim(s)
  {
    var r := Trim(s);
    TrimSlice(s);
    forall i | 0 <= i < |r| ensures r[i] != '`' {
      assert r[i] == s[TrimOffset(s) + i];
    }
  }

  /** The clean-up applied to every LLM response before `JSON.parse`. */
  function StripFences(response: string): (r: string)
    ensures Trimmed(r)
    ensures NoFence(r)
    ensures '`' !in response ==> r == Trim(response)
  {
    var t := StripTicks(StripJsonFences(Trim(response)));
    TrimSlice(t);
    SliceKeepsNoFence(t, Trim(t), TrimOffset(t));
    if '`' in response then Trim(t)
    else
      TrimKeepsNoTick(response);
      Trim(t)
  }

  /** A response wrapped in a json code block comes back as the block's contents, trimmed. */
  lemma FencedBlockUnwrapped(body: string)
    requires '`' !in body && Trimmed(body) && body != []
    ensures StripFences("```json\n" + body + "\n```") == body
  {
    var w := "```json\n" + body + "\n```";
    assert w[0] == '`' && w[|w| - 1] == '`';
    assert Trim(w) == w;
    OpeningFenceRemoved(body);
    ClosingFenceRemoved(body);
    TrailingNewlineTrimmed(body);
  }

  lemma OpeningFenceRemoved(body: string)
    requires '`' !in body
    ensures StripJsonFences("```json\n" + body + "\n```") == body + "\n```"
  {
    var w := "```json\n" + body + "\n```";
    assert JsonFenceAt(w, 0) && MatchLength(w, 4) == 8;
    assert w[8..] == body + "\n```";
    NoJsonFenceKept(body, "\n```");
    var c := "\n```";
    assert StripJsonFences(c[3..]) == "`" by {
      assert c[3..] == "`";
      assert "`"[1..] == [];
    }
    assert StripJsonFences(c[2..]) == "``" by {
      assert c[2..][1..] == c[3..];
    }
    assert StripJsonFences(c[1..]) == "```" by {
      assert c[1..][1..] == c[2..];
    }
    assert c[1..] == "```";
  }

  lemma ClosingFenceRemoved(body: string)
    requires '`' !in body
    ensures StripTicks(body + "\n```") == body + "\n"
  {
    NoTickKept(body, "\n```");
    var c := "\n```";
    assert c[1..] == "```" && FenceAt(c[1..], 0) && MatchLength(c[1..], 0) == 3;
    assert c[1..][3..] == [];
  }

  lemma TrailingNewlineTrimmed(body: string)
    requires Trimmed(body) && body != []
    ensures Trim(body + "\n") == body
  {
    var v := body + "\n";
    assert v[0] == body[0];
    assert TrimStart(v) == v;
    assert v[..|v| - 1] == body;
    assert TrimEnd(v) == TrimEnd(body);
    assert TrimEnd(body) == body;
  }

  /** A backtick-free prefix passes through the json-fence step unchanged. */
  lemma {:induction false} NoJsonFenceKept(a: string, b: string)
    requires '`' !in a
    ensures StripJsonFences(a + b) == a + StripJsonFences(b)
    decreases |a|
  {
    if a != [] {
      assert (a + b)[0] == a[0] && !JsonFenceAt(a + b, 0);
      assert (a + b)[1..] == a[1..] + b;
      assert '`' !in a[1..];
      NoJsonFenceKept(a[1..], b);
    } else {
      assert a + b == b;
    }
  }

  /** A backtick-free prefix passes through the fence step unchanged. */
  lemma {:induction false} NoTickKept(a: string, b: string)
    requires '`' !in a
    ensures StripTicks(a + b) == a + StripTicks(b)
    decreases |a|
  {
    if a != [] {
      assert (a + b)[0] == a[0] && !FenceAt(a + b, 0);
      assert (a + b)[1..] == a[1..] + b;
      assert '`' !in a[1..];
      NoTickKept(a[1..], b);
    } else {
      assert a + b == b;
    }
  }

  // ---------------------------------------------------------------------------
  // The parsed shapes
  // ---------------------------------------------------------------------------

  /** What `parseVendorResponse` returns: the schema fields may be missing. */
  datatype ParsedProposal = ParsedProposal(
    pricing: Option<PricingInput>,
    deliveryTimeline: Option<ProposalTimeline>,
    paymentTerms: Option<string>,
    warranty: Option<string>,
    additionalTerms: Option<string>,
    complianceScore: Option<int>,
    summary: Option<string>)

  /** One entry of `vendorScores`; a missing `overallScore` is `None`. */
  datatype VendorScore = VendorScore(
    vendorName: string,
    overallScore: Option<int>,
    priceScore: int,
    timelineScore: int,
    complianceScore: int,
    pros: seq<string>,
    cons: seq<string>)

  datatype Comparison = Comparison(
    overallRecommendation: Option<string>,
    vendorScores: seq<VendorScore>,
    keyFindings: seq<string>,
    riskFactors: seq<string>)

  // ---------------------------------------------------------------------------
  // Error wrapping
  // ---------------------------------------------------------------------------

  const RfpParseError := "Failed to parse RFP from natural language"
  const ProposalParseError := "Failed to parse vendor response"
  const CompareError := "Failed to compare proposals"

  /**
   * The shared tail of the three calls: clean the reply up and decode it; any
   * failure on the way, whether of the model call or of the decoding, becomes
   * the one fixed `message`.
   */
  function Decode<T>(response: Option<string>, decode: string -> Option<T>, message: string): (r: Result<T, string>)
    ensures r.Failure? ==> r.error == message
    ensures r.Success? <==> response.Some? && decode(StripFences(response.value)).Some?
    ensures r.Success? ==> r.value == decode(StripFences(response.value)).value
  {
    if response.None? then Failure(message)
    else
      var parsed := decode(StripFences(response.value));
      if parsed.None? then Failure(message) else Success(parsed.value)
  }

  /** `parseRFPFromNaturalLanguage`. */
  function ParseRfp(response: Option<string>, decode: string -> Option<RfpModel.RfpInput>): (r: Result<RfpModel.RfpInput, string>)
    ensures r.Failure? ==> r.error == RfpParseError
    ensures r.Success? <==> response.Some? && decode(StripFences(response.value)).Some?
    ensures r.Success? ==> r.value == decode(StripFences(response.value)).value
  {
    Decode(response, decode, RfpParseError)
  }

  /** `parseVendorResponse`. */
  function ParseVendorResponse(response: Option<string>, decode: string -> Option<ParsedProposal>): (r: Result<ParsedProposal, string>)
    ensures r.Failure? ==> r.error == ProposalParseError
    ensures r.Success? <==> response.Some? && decode(StripFences(response.value)).Some?
    ensures r.Success? ==> r.value == decode(StripFences(response.value)).value
  {
    Decode(response, decode, ProposalParseError)
  }

  /** The three calls report three different messages, so a failure names the call that failed. */
  lemma ErrorMessagesDistinct()
    ensures RfpParseError != ProposalParseError && RfpParseError != CompareError && ProposalParseError != CompareError
  {
    assert RfpParseError[16] != ProposalParseError[16];
    assert RfpParseError[10] != CompareError[10];
    assert ProposalParseError[10] != CompareError[10];
  }

  // ---------------------------------------------------------------------------
  // compareProposalsAndRecommend
  // ---------------------------------------------------------------------------

  /** One element of `proposalsData`. */
  datatype ProposalData = ProposalData(
    vendorName: string,
    vendorCompany: Option<string>,
    totalAmount: int,
    deliveryTimeline: ProposalTimeline,
    paymentTerms: Option<string>,
    warranty: Option<string>,
    complianceScore: Option<int>,
    summary: Option<string>)

  function ToData(p: Proposal, v: Store.Vendor): (d: ProposalData)
    ensures d.vendorName == v.name && d.vendorCompany == v.company
    ensures d.totalAmount == p.pricing.totalAmount && d.deliveryTimeline == p.deliveryTimeline
    ensures d.paymentTerms == p.paymentTerms && d.warranty == p.warranty
    ensures d.complianceScore == p.complianceScore && d.summary == p.aiSummary
  {
    ProposalData(v.name, v.company, p.pricing.totalAmount, p.deliveryTimeline, p.paymentTerms, p.warranty, p.complianceScore, p.aiSummary)
  }

  /**
   * `proposals.map(...)`: one entry per proposal, in order. Reading the name of
   * a vendor that no longer exists throws, so the whole projection fails.
   */
  function ProposalsData(list: seq<Store.Populated>): (r: Option<seq<ProposalData>>)
    ensures r.Some? <==> forall i :: 0 <= i < |list| ==> list[i].vendor.Some?
    ensures r.Some? ==> |r.value| == |list|
    ensures r.Some? ==> forall i :: 0 <= i < |list| ==> r.value[i] == ToData(list[i].proposal, list[i].vendor.value)
    decreases |list|
  {
    if list == [] then Some([])
    else if list[0].vendor.None? then None
    else
      var rest := ProposalsData(list[1..]);
      assert rest.Some? <==> forall i :: 1 <= i < |list| ==> list[i].vendor.Some? by {
        assert forall i :: 1 <= i < |list| ==> list[1..][i - 1] == list[i];
      }
      if rest.None? then None
      else Some([ToData(list[0].proposal, list[0].vendor.value)] + rest.value)
  }

  /** `compareProposalsAndRecommend(rfpDetails, proposals)`; the RFP details only feed the prompt. */
  function CompareProposalsAndRecommend(list: seq<Store.Populated>, response: Option<string>, decode: string -> Option<Comparison>): (r: Result<Comparison, string>)
    ensures r.Failure? ==> r.error == CompareError
    ensures r.Success? <==> ProposalsData(list).Some? && response.Some? && decode(StripFences(response.value)).Some?
    ensures r.Success? ==> r.value == decode(StripFences(response.value)).value
  {
    if ProposalsData(list).None? then Failure(CompareError)
    else Decode(response, decode, CompareError)
  }
}
