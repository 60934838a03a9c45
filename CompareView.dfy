/**
 * frontend/src/pages/CompareProposals.js: the colour and the label a score is
 * shown with, the pairing of each vendor score with a proposal, and how one
 * line of a price breakdown is displayed.
 *
 * Scores come from the comparison the backend returns; `overallScore` may be
 * missing there (`undefined`), and JavaScript's `undefined >= 80` is false, so
 * a missing score compares below every threshold.
 */
module CompareView {
  import opened Wrappers
  import opened Store
  import opened ProposalModel
  import AiService
  import ProposalController

  // ---------------------------------------------------------------------------
  // getScoreColor / getScoreLabel
  // ---------------------------------------------------------------------------

  const Green := "#10b981"
  const Amber := "#f59e0b"
  const Red := "#ef4444"

  const Excellent := "Excellent"
  const Good := "Good"
  const Fair := "Fair"
  const Poor := "Poor"

  /** JavaScript's `score >= k` for a score that may be `undefined`. */
  predicate AtLeast(score: Option<int>, k: int) {
    score.Some? && score.value >= k
  }

  /** `getScoreColor(score)`. */
  function ScoreColor(score: Option<int>): (c: string)
    ensures c == Green <==> AtLeast(score, 80)
    ensures c == Amber <==> AtLeast(score, 60) && !AtLeast(score, 80)
    ensures c == Red <==> !AtLeast(score, 60)
  {
    if AtLeast(score, 80) then Green
    else if AtLeast(score, 60) then Amber
    else Red
  }

  /** `getScoreLabel(score)`. */
  function ScoreLabel(score: Option<int>): (l: string)
    ensures l == Excellent <==> AtLeast(score, 80)
    ensures l == Good <==> AtLeast(score, 60) && !AtLeast(score, 80)
    ensures l == Fair <==> AtLeast(score, 40) && !AtLeast(score, 60)
    ensures l == Poor <==> !AtLeast(score, 40)
  {
    if AtLeast(score, 80) then Excellent
    else if AtLeast(score, 60) then Good
    else if AtLeast(score, 40) then Fair
    else Poor
  }

  /** The four labels ranked from worst to best; anything else ranks below them. */
  function LabelRank(l: string): int {
    if l == Excellent then 3 else if l == Good then 2 else if l == Fair then 1 else 0
  }

  /** The rank of a colour, in the same order. */
  function ColorRank(c: string): int {
    if c == Green then 2 else if c == Amber then 1 else 0
  }

  /** Scores ordered as JavaScript compares them against the thresholds: `undefined` lowest. */
  predicate NoHigher(a: Option<int>, b: Option<int>) {
    a.None? || (b.Some? && a.value <= b.value)
  }

  /** A higher score never gets a worse label or a worse colour. */
  lemma Monotone(a: Option<int>, b: Option<int>)
    requires NoHigher(a, b)
    ensures LabelRank(ScoreLabel(a)) <= LabelRank(ScoreLabel(b))
    ensures ColorRank(ScoreColor(a)) <= ColorRank(ScoreColor(b))
  {
  }

  /** The colour that goes with a label. */
  function LabelColor(l: string): string {
    if l == Excellent then Green else if l == Good then Amber else Red
  }

  /** Colour and label agree: Excellent is green, Good amber, Fair and Poor red. */
  lemma LabelAndColorAgree(score: Option<int>)
    ensures ScoreColor(score) == LabelColor(ScoreLabel(score))
  {
  }

  /** A missing score is shown as the lowest: red and Poor. */
  lemma MissingScoreIsPoor()
    ensures ScoreColor(None) == Red && ScoreLabel(None) == Poor
  {
  }

  // ---------------------------------------------------------------------------
  // proposals.find(p => p.vendorId.name === vendorScore.vendorName)
  // ---------------------------------------------------------------------------

  /**
   * The proposal a vendor score card is shown with: the first one whose
   * vendor carries the score's name, or none when no vendor does. The
   * comparison only returns proposals whose vendor is populated.
   */
  function PairedProposal(proposals: seq<Populated>, vs: AiService.VendorScore): (r: Option<Populated>)
    requires forall i :: 0 <= i < |proposals| ==> proposals[i].vendor.Some?
    ensures r.None? <==> forall i :: 0 <= i < |proposals| ==> proposals[i].vendor.value.name != vs.vendorName
    ensures r.Some? ==> exists i :: (0 <= i < |proposals| && r.value == proposals[i]
      && proposals[i].vendor.value.name == vs.vendorName
      && forall j :: 0 <= j < i ==> proposals[j].vendor.value.name != vs.vendorName)
  {
    var names := ProposalController.VendorNames(proposals);
    var k := ProposalController.FirstNamed(names, vs.vendorName);
    if k.None? then None
    else
      assert forall j :: 0 <= j < k.value ==> proposals[j].vendor.value.name == names[j];
      Some(proposals[k.value])
  }

  /**
   * When several vendors share a name, the card for that name shows the
   * proposal of the first of them, whatever comes later.
   */
  lemma FirstNamesakeShown(proposals: seq<Populated>, vs: AiService.VendorScore, i: nat)
    requires forall k :: 0 <= k < |proposals| ==> proposals[k].vendor.Some?
    requires i < |proposals| && proposals[i].vendor.value.name == vs.vendorName
    requires forall k :: 0 <= k < i ==> proposals[k].vendor.value.name != vs.vendorName
    ensures PairedProposal(proposals, vs) == Some(proposals[i])
  {
    var names := ProposalController.VendorNames(proposals);
    var k := ProposalController.FirstNamed(names, vs.vendorName);
    assert names[i] == vs.vendorName;
    assert k.Some? && k.value == i;
  }

  // ---------------------------------------------------------------------------
  // One line of the price breakdown
  // ---------------------------------------------------------------------------

  /**
   * What a breakdown line shows: the quantity times the unit price and the
   * total, the total alone, or nothing because rendering threw (calling
   * `toLocaleString` on `undefined` or `null` is a TypeError).
   */
  datatype LineView = Itemised(quantity: int, unitPrice: int, total: int) | TotalOnly(total: int) | RenderError

  /** JavaScript's `item.quantity > 1`: `undefined > 1` and `null > 1` are false. */
  predicate MoreThanOne(q: NumField) {
    q.Num? && q.n > 1
  }

  /** `x.toLocaleString()` on a number field; absent and null fields throw. */
  function Shown(f: NumField, k: int -> LineView): LineView {
    if f.Num? then k(f.n) else RenderError
  }

  /**
   * The line as written: the guard is `item.unitPrice !== null && item.quantity > 1`,
   * and the itemised branch then calls `item.unitPrice.toLocaleString()`.
   */
  function LineAsWritten(item: BreakdownItem): (v: LineView)
    ensures v.Itemised? <==> item.unitPrice.Num? && MoreThanOne(item.quantity) && item.totalPrice.Num?
    ensures v.TotalOnly? <==> !(item.unitPrice != Null && MoreThanOne(item.quantity)) && item.totalPrice.Num?
    ensures v.Itemised? ==> v == Itemised(item.quantity.n, item.unitPrice.n, item.totalPrice.n)
    ensures v.TotalOnly? ==> v.total == item.totalPrice.n
  {
    if item.unitPrice != Null && MoreThanOne(item.quantity) then
      Shown(item.unitPrice, u => Shown(item.totalPrice, t => Itemised(item.quantity.n, u, t)))
    else Shown(item.totalPrice, t => TotalOnly(t))
  }

  /** A line with a quantity but no unit price passes the `!== null` guard and then throws. */
  lemma AbsentUnitPriceThrows()
    ensures LineAsWritten(BreakdownItem(Some("Chairs"), Absent, Num(2), Num(500))) == RenderError
  {
  }

  /**
   * The line as intended: the unit price is shown only when it is a number
   * (`item.unitPrice != null`, which also excludes `undefined`).
   */
  function Line(item: BreakdownItem): (v: LineView)
    ensures v.Itemised? <==> item.unitPrice.Num? && MoreThanOne(item.quantity) && item.totalPrice.Num?
    ensures v.TotalOnly? <==> !(item.unitPrice.Num? && MoreThanOne(item.quantity)) && item.totalPrice.Num?
    ensures v.Itemised? ==> v == Itemised(item.quantity.n, item.unitPrice.n, item.totalPrice.n)
    ensures v.TotalOnly? ==> v.total == item.totalPrice.n
  {
    if item.unitPrice.Num? && MoreThanOne(item.quantity) then
      Shown(item.totalPrice, t => Itemised(item.quantity.n, item.unitPrice.n, t))
    else Shown(item.totalPrice, t => TotalOnly(t))
  }

  /**
   * With the intended guard only a missing total stops a line from
   * rendering, and wherever the unit price is present or null the intended
   * line is the line as written.
   */
  lemma LineRendersWithTotal(item: BreakdownItem)
    ensures Line(item) == RenderError <==> !item.totalPrice.Num?
    ensures item.unitPrice != Absent ==> Line(item) == LineAsWritten(item)
  {
  }

  /** The breakdown block as written is only rendered for a non-empty breakdown; each line in order. */
  function BreakdownView(p: Pricing): (r: seq<LineView>)
    ensures |r| == |p.breakdown|
    ensures forall i :: 0 <= i < |r| ==> r[i] == LineAsWritten(p.breakdown[i])
  {
    seq(|p.breakdown|, i requires 0 <= i < |p.breakdown| => LineAsWritten(p.breakdown[i]))
  }

  /** The breakdown block with the intended guard on every line. */
  function FixedBreakdownView(p: Pricing): (r: seq<LineView>)
    ensures |r| == |p.breakdown|
    ensures forall i :: 0 <= i < |r| ==> r[i] == Line(p.breakdown[i])
  {
    seq(|p.breakdown|, i requires 0 <= i < |p.breakdown| => Line(p.breakdown[i]))
  }

  /**
   * The two blocks differ only where a unit price is absent: without such an
   * item they are the same, and the intended block fails on a line exactly
   * where that line has no total.
   */
  lemma BreakdownViewsAgree(p: Pricing)
    ensures (forall i :: 0 <= i < |p.breakdown| ==> p.breakdown[i].unitPrice != Absent) ==>
      BreakdownView(p) == FixedBreakdownView(p)
    ensures forall i :: 0 <= i < |p.breakdown| ==>
      (FixedBreakdownView(p)[i] == RenderError <==> !p.breakdown[i].totalPrice.Num?)
  {
    forall i | 0 <= i < |p.breakdown| {
      LineRendersWithTotal(p.breakdown[i]);
    }
  }

  /** The page as written breaks on a breakdown whose item has a quantity but no unit price. */
  lemma AbsentUnitPriceBreaksBreakdown()
    ensures BreakdownView(Pricing(500, "USD", [BreakdownItem(Some("Chairs"), Absent, Num(2), Num(500))])) == [RenderError]
    ensures FixedBreakdownView(Pricing(500, "USD", [BreakdownItem(Some("Chairs"), Absent, Num(2), Num(500))])) == [TotalOnly(500)]
  {
    var p := Pricing(500, "USD", [BreakdownItem(Some("Chairs"), Absent, Num(2), Num(500))]);
    AbsentUnitPriceThrows();
    assert BreakdownView(p)[0] == RenderError;
    assert FixedBreakdownView(p)[0] == TotalOnly(500);
  }
}
