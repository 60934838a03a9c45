/**
 * The outgoing side of backend/src/services/emailService.js: the subject line,
 * the HTML body built from an RFP, and the plain-text alternative produced by
 * `stripHtml`. The SMTP transport is a parameter of the controller that sends.
 */
module EmailService {
  import opened Wrappers
  import opened Text
  import opened RfpModel
  import opened Seqs

  // ---------------------------------------------------------------------------
  // stripHtml: html.replace(/<[^>]*>/g, '').replace(/\s+/g, ' ').trim()
  // ---------------------------------------------------------------------------

  /** No `<` is followed, anywhere later, by a `>`: nothing matches `<[^>]*>`. */
  predicate NoTag(s: string) {
    forall i, j :: 0 <= i < j < |s| && s[i] == '<' ==> s[j] != '>'
  }

  /** Every whitespace character is a plain space. */
  predicate BlankSpacesOnly(s: string) {
    forall i :: 0 <= i < |s| && IsSpace(s[i]) ==> s[i] == ' '
  }

  /** The index of the first `c` at or after `from`. */
  function IndexOf(s: string, c: char, from: nat): (k: nat)
    requires from <= |s| && c in s[from..]
    ensures from <= k < |s| && s[k] == c
    ensures forall i :: from <= i < k ==> s[i] != c
    decreases |s| - from
  {
    if s[from] == c then from else IndexOf(s, c, from + 1)
  }

  /**
   * The first replacement: scanning left to right, each `<` that has a `>`
   * after it is removed together with everything up to the first such `>`.
   */
  function RemoveTags(s: string): (r: string)
    ensures NoTag(r)
    ensures '>' in r ==> '>' in s
    ensures '<' !in s ==> r == s
    decreases |s|
  {
    if s == [] then []
    else if s[0] == '<' && '>' in s[1..] then
      var k := IndexOf(s, '>', 1);
      assert '>' in s;
      RemoveTags(s[k + 1..])
    else
      var rest := RemoveTags(s[1..]);
      assert '<' !in s ==> '<' !in s[1..];
      assert s[0] == '<' ==> '>' !in rest;
      assert forall j :: 1 <= j < |[s[0]] + rest| ==> ([s[0]] + rest)[j] == rest[j - 1];
      [s[0]] + rest
  }

  /** The second replacement: every maximal run of whitespace becomes one space. */
  function CollapseSpaces(s: string): (r: string)
    ensures NoDoubleSpace(r) && BlankSpacesOnly(r)
    ensures r == [] <==> s == []
    ensures r != [] ==> (IsSpace(r[0]) <==> IsSpace(s[0]))
    ensures '>' in r ==> '>' in s
    ensures NoTag(s) ==> NoTag(r)
    decreases |s|
  {
    if s == [] then []
    else if IsSpace(s[0]) then
      var rest := TrimStart(s);
      assert |rest| < |s|;
      var r := CollapseSpaces(rest);
      assert NoTag(s) ==> NoTag(rest) by {
        if NoTag(s) {
          forall i, j | 0 <= i < j < |rest| && rest[i] == '<' ensures rest[j] != '>' {
            assert rest[i] == s[|s| - |rest| + i] && rest[j] == s[|s| - |rest| + j];
          }
        }
      }
      assert forall j :: 1 <= j < |[' '] + r| ==> ([' '] + r)[j] == r[j - 1];
      [' '] + r
    else
      var rest := s[1..];
      var r := CollapseSpaces(rest);
      assert NoTag(s) ==> NoTag(rest) by {
        if NoTag(s) {
          forall i, j | 0 <= i < j < |rest| && rest[i] == '<' ensures rest[j] != '>' {
            assert rest[i] == s[i + 1] && rest[j] == s[j + 1];
          }
        }
      }
      assert NoTag(s) && s[0] == '<' ==> '>' !in rest;
      assert forall j :: 1 <= j < |[s[0]] + r| ==> ([s[0]] + r)[j] == r[j - 1];
      [s[0]] + r
  }

  /** A slice of `s` keeps the three shape properties of `stripHtml`'s output. */
  lemma SliceKeepsShape(s: string, t: string, a: nat)
    requires a + |t| <= |s| && t == s[a..a + |t|]
    requires NoTag(s) && NoDoubleSpace(s) && BlankSpacesOnly(s)
    ensures NoTag(t) && NoDoubleSpace(t) && BlankSpacesOnly(t)
  {
    forall i, j | 0 <= i < j < |t| && t[i] == '<' ensures t[j] != '>' {
      assert t[i] == s[a + i] && t[j] == s[a + j];
    }
    forall i | 0 <= i < |t| - 1 ensures !(IsSpace(t[i]) && IsSpace(t[i + 1])) {
      assert t[i] == s[a + i] && t[i + 1] == s[a + i + 1];
    }
    forall i | 0 <= i < |t| && IsSpace(t[i]) ensures t[i] == ' ' {
      assert t[i] == s[a + i];
    }
  }

  /**
   * `stripHtml`: the plain-text alternative of an HTML body. The result holds no
   * tag, has no leading or trailing whitespace, and no two whitespace characters
   * in a row (each remaining one is a plain space).
   */
  function StripHtml(html: string): (r: string)
    ensures NoTag(r)
    ensures Trimmed(r)
    ensures NoDoubleSpace(r) && BlankSpacesOnly(r)
  {
    var c := CollapseSpaces(RemoveTags(html));
    TrimSlice(c);
    SliceKeepsShape(c, Trim(c), TrimOffset(c));
    Trim(c)
  }

  lemma {:induction false} RemoveTagsKeepsTagFree(s: string)
    requires NoTag(s)
    ensures RemoveTags(s) == s
    decreases |s|
  {
    if s != [] {
      var rest := s[1..];
      assert forall j :: 0 <= j < |rest| ==> rest[j] == s[j + 1];
      assert s[0] == '<' ==> '>' !in rest;
      assert NoTag(rest);
      RemoveTagsKeepsTagFree(rest);
    }
  }

  /** Dropping the first character keeps a collapsed string collapsed. */
  lemma CollapsedTail(s: string)
    requires s != [] && NoDoubleSpace(s) && BlankSpacesOnly(s)
    ensures NoDoubleSpace(s[1..]) && BlankSpacesOnly(s[1..])
  {
    var rest := s[1..];
    forall i | 0 <= i < |rest| - 1 ensures !(IsSpace(rest[i]) && IsSpace(rest[i + 1])) {
      assert rest[i] == s[i + 1] && rest[i + 1] == s[i + 2];
    }
    forall i | 0 <= i < |rest| && IsSpace(rest[i]) ensures rest[i] == ' ' {
      assert rest[i] == s[i + 1];
    }
  }

  lemma {:induction false} CollapseKeepsCollapsed(s: string)
    requires NoDoubleSpace(s) && BlankSpacesOnly(s)
    ensures CollapseSpaces(s) == s
    decreases |s|
  {
    if s != [] {
      var rest := s[1..];
      CollapsedTail(s);
      CollapseKeepsCollapsed(rest);
      if IsSpace(s[0]) {
        TrimStartOneSpace(s);
      }
      ConsSplit(s);
    }
  }

  /** `stripHtml` is idempotent: plain text it produced comes back unchanged. */
  lemma StripHtmlIdempotent(html: string)
    ensures StripHtml(StripHtml(html)) == StripHtml(html)
  {
    var t := StripHtml(html);
    RemoveTagsKeepsTagFree(t);
    CollapseKeepsCollapsed(t);
  }

  // ---------------------------------------------------------------------------
  // sendRFPEmail and formatRFPEmail
  // ---------------------------------------------------------------------------

  /** The fixed prefix of every outgoing subject. */
  const SubjectPrefix := "RFP: "

  /** The outgoing subject: `RFP: ` followed by the RFP's title. */
  function Subject(title: string): (s: string)
    ensures |s| == |SubjectPrefix| + |title|
    ensures s[..|SubjectPrefix|] == SubjectPrefix && s[|SubjectPrefix|..] == title
  {
    SubjectPrefix + title
  }

  /** Decimal text of an integer (`toLocaleString`'s grouping is not modelled). */
  function NatText(n: nat): (r: string)
    ensures |r| > 0
    ensures forall i :: 0 <= i < |r| ==> '0' <= r[i] <= '9'
  {
    var d := [(('0' as int) + n % 10) as char];
    if n < 10 then d else NatText(n / 10) + d
  }

  /** The number a string of decimal digits denotes. */
  function DigitsValue(s: string): nat
    requires forall i :: 0 <= i < |s| ==> '0' <= s[i] <= '9'
  {
    if s == [] then 0 else 10 * DigitsValue(s[..|s| - 1]) + (s[|s| - 1] as int - '0' as int)
  }

  /** The digits printed for `n` denote `n`, with no leading zero. */
  lemma {:induction false} NatTextDenotes(n: nat)
    ensures DigitsValue(NatText(n)) == n
    ensures n > 0 ==> NatText(n)[0] != '0'
    decreases n
  {
    if n >= 10 {
      NatTextDenotes(n / 10);
      var t := NatText(n / 10);
      var d := [(('0' as int) + n % 10) as char];
      assert NatText(n) == t + d;
      assert (t + d)[..|t + d| - 1] == t;
      assert (t + d)[0] == t[0];
    }
  }

  /** Different numbers print differently. */
  lemma NatTextInjective(m: nat, n: nat)
    ensures NatText(m) == NatText(n) ==> m == n
  {
    NatTextDenotes(m);
    NatTextDenotes(n);
  }

  function IntText(n: int): string {
    if n < 0 then "-" + NatText(-n) else NatText(n)
  }

  /** A template literal prints a missing value as `undefined`. */
  function OptIntText(o: Option<int>): string {
    if o.Some? then IntText(o.value) else "undefined"
  }

  /** One `<li>` of the requirements list. */
  function RequirementItem(r: Requirement): (li: string)
    ensures |li| >= 9 && li[..4] == "<li>" && li[|li| - 5..] == "</li>"
  {
    "<li><strong>" + r.item + "</strong>: Quantity " + IntText(r.quantity) + " - " + r.specifications + "</li>"
  }

  /** `requirements.map(...).join('')`. */
  function RequirementsList(reqs: seq<Requirement>): string {
    if reqs == [] then "" else RequirementItem(reqs[0]) + RequirementsList(reqs[1..])
  }

  /** Joining distributes over concatenation of the requirement sequence. */
  lemma {:induction false} RequirementsListAppend(a: seq<Requirement>, b: seq<Requirement>)
    ensures RequirementsList(a + b) == RequirementsList(a) + RequirementsList(b)
    decreases |a|
  {
    if a == [] {
      assert a + b == b;
    } else {
      assert (a + b)[1..] == a[1..] + b;
      RequirementsListAppend(a[1..], b);
    }
  }

  /**
   * The list holds one `<li>` per requirement in the original order: the item for
   * requirement `i` sits between the items of the requirements before and after it.
   */
  lemma RequirementsListInOrder(reqs: seq<Requirement>, i: nat)
    requires i < |reqs|
    ensures RequirementsList(reqs) == RequirementsList(reqs[..i]) + RequirementItem(reqs[i]) + RequirementsList(reqs[i + 1..])
  {
    var tail := [reqs[i]] + reqs[i + 1..];
    SplitAround(reqs, i);
    RequirementsListAppend(reqs[..i], tail);
    RequirementsListCons(reqs[i], reqs[i + 1..]);
    AppendAssoc(RequirementsList(reqs[..i]), RequirementItem(reqs[i]), RequirementsList(reqs[i + 1..]));
  }

  lemma RequirementsListCons(r: Requirement, rest: seq<Requirement>)
    ensures RequirementsList([r] + rest) == RequirementItem(r) + RequirementsList(rest)
  {
    assert ([r] + rest)[1..] == rest;
  }

  /** The `<h2>` of each section of the email. */
  datatype Heading = ProjectTitle | Description | Requirements | Budget | DeliveryTimeline | PaymentTerms
                   | Warranty | AdditionalTerms

  function HeadingText(h: Heading): string {
    match h
    case ProjectTitle => "📋 Project Title"
    case Description => "📝 Description"
    case Requirements => "🛒 Requirements"
    case Budget => "💰 Budget"
    case DeliveryTimeline => "📅 Delivery Timeline"
    case PaymentTerms => "💳 Payment Terms"
    case Warranty => "🛡️ Warranty Requirements"
    case AdditionalTerms => "📌 Additional Terms"
  }

  datatype Section = Section(heading: Heading, body: string)

  /** The section for an optional field, present exactly when the field is truthy. */
  function OptionalSection(heading: Heading, field: Option<string>): (s: seq<Section>)
    ensures |s| <= 1
    ensures s != [] <==> Truthy(field)
    ensures s != [] ==> s[0] == Section(heading, "<p>" + field.value + "</p>")
  {
    if Truthy(field) then [Section(heading, "<p>" + field.value + "</p>")] else []
  }

  /** The six sections every RFP email has, none of them a warranty or additional-terms section. */
  function FixedSections(rfp: Rfp): (r: seq<Section>)
    ensures |r| == 6
    ensures forall i :: 0 <= i < |r| ==> r[i].heading != Warranty && r[i].heading != AdditionalTerms
  {
    [ Section(ProjectTitle, "<p><strong>" + rfp.title + "</strong></p>"),
      Section(Description, "<p>" + rfp.description + "</p>"),
      Section(Requirements, "<ul> " + RequirementsList(rfp.requirements) + " </ul>"),
      Section(Heading.Budget, "<p><span class=\"highlight\">" + rfp.budget.currency + " " + IntText(rfp.budget.amount) + "</span></p>"),
      Section(DeliveryTimeline, "<p><strong>" + OptIntText(rfp.deliveryTimeline.value) + " " + UnitName(rfp.deliveryTimeline.unit) + "</strong></p>"),
      Section(PaymentTerms, "<p>" + rfp.paymentTerms + "</p>") ]
  }

  /** The six sections every RFP email has, then warranty and additional terms when given. */
  function Sections(rfp: Rfp): seq<Section> {
    FixedSections(rfp)
    + OptionalSection(Warranty, rfp.warranty)
    + OptionalSection(AdditionalTerms, rfp.additionalTerms)
  }

  predicate HasSection(secs: seq<Section>, heading: Heading) {
    exists i | 0 <= i < |secs| :: secs[i].heading == heading
  }

  /**
   * The warranty section is in the email exactly when `warranty` is truthy, and
   * the additional-terms section exactly when `additionalTerms` is; each shows
   * its field's text.
   */
  lemma ConditionalSections(rfp: Rfp)
    ensures HasSection(Sections(rfp), Warranty) <==> Truthy(rfp.warranty)
    ensures HasSection(Sections(rfp), AdditionalTerms) <==> Truthy(rfp.additionalTerms)
    ensures Truthy(rfp.warranty) ==> Sections(rfp)[6] == Section(Warranty, "<p>" + rfp.warranty.value + "</p>")
    ensures Truthy(rfp.additionalTerms) ==>
      Sections(rfp)[|Sections(rfp)| - 1] == Section(AdditionalTerms, "<p>" + rfp.additionalTerms.value + "</p>")
  {
    var secs := Sections(rfp);
    var w := OptionalSection(Warranty, rfp.warranty);
    var t := OptionalSection(AdditionalTerms, rfp.additionalTerms);
    var fixed := FixedSections(rfp);
    assert forall i :: 0 <= i < 6 ==> secs[i] == fixed[i];
    assert forall i :: 6 <= i < 6 + |w| ==> secs[i] == w[i - 6];
    assert forall i :: 6 + |w| <= i < |secs| ==> secs[i] == t[i - 6 - |w|];
    if Truthy(rfp.warranty) {
      assert secs[6].heading == Warranty;
    }
    if Truthy(rfp.additionalTerms) {
      assert secs[6 + |w|].heading == AdditionalTerms;
    }
  }

  const StyleSheet :=
    "body { font-family: Arial, sans-serif; line-height: 1.6; color: #333; } "
    + ".container { max-width: 800px; margin: 0 auto; padding: 20px; } "
    + "h1 { color: #2c3e50; border-bottom: 3px solid #3498db; padding-bottom: 10px; } "
    + "h2 { color: #34495e; margin-top: 20px; } "
    + ".section { margin: 20px 0; padding: 15px; background-color: #f8f9fa; border-left: 4px solid #3498db; } "
    + ".highlight { background-color: #fff3cd; padding: 2px 5px; } "
    + "ul { list-style-type: none; padding-left: 0; } "
    + "li { margin: 10px 0; padding: 10px; background-color: white; border-radius: 4px; } "
    + ".footer { margin-top: 30px; padding-top: 20px; border-top: 2px solid #e0e0e0; font-size: 14px; color: #666; }"

  // Each run of the template's layout whitespace (a line break and its indentation)
  // is written below as a single space. `stripHtml` turns every such run into one
  // space, so the plain text does not depend on the run's exact characters.

  const Footer :=
    "<div class=\"footer\"> <p><strong>Please submit your proposal by replying to this email with the following details:</strong></p> "
    + "<ul> <li>✓ Detailed pricing breakdown</li> <li>✓ Delivery timeline</li> <li>✓ Payment terms you can offer</li> "
    + "<li>✓ Warranty details</li> <li>✓ Any additional terms or conditions</li> </ul> "
    + "<p>We look forward to receiving your proposal.</p> <p>Best regards,<br> Procurement Team</p> </div>"

  /** Each section as its `<div class="section">`, each followed by the blank line between sections. */
  function RenderSections(secs: seq<Section>): string {
    if secs == [] then ""
    else "<div class=\"section\"> <h2>" + HeadingText(secs[0].heading) + "</h2> " + secs[0].body + " </div> " + RenderSections(secs[1..])
  }

  /** `formatRFPEmail(rfp, vendorName)`: greeting, the sections in order, and the reply instructions. */
  function FormatRfpEmail(rfp: Rfp, vendorName: string): string {
    " <!DOCTYPE html> <html> <head> <style> " + StyleSheet + " </style> </head> <body> <div class=\"container\"> "
    + "<h1>Request for Proposal</h1> <p>Dear " + vendorName + ",</p> "
    + "<p>We are pleased to invite you to submit a proposal for the following procurement requirement:</p> "
    + RenderSections(Sections(rfp))
    + Footer + " </div> </body> </html> "
  }

  /** The message `sendRFPEmail` hands to the transport. */
  datatype Mail = Mail(to: string, subject: string, html: string, text: string)

  /** The mail options for a recipient, a subject and an html body: the text part is the stripped html. */
  function MailOf(to: string, subject: string, html: string): (m: Mail)
    ensures m.to == to && m.subject == subject && m.html == html
    ensures m.text == StripHtml(html) && NoTag(m.text) && Trimmed(m.text)
  {
    Mail(to, subject, html, StripHtml(html))
  }

  /** `sendRFPEmail(vendorEmail, vendorName, rfp)`'s mail options. */
  function MailFor(vendorEmail: string, vendorName: string, rfp: Rfp): (m: Mail)
    ensures m.to == vendorEmail && m.subject == Subject(rfp.title) && m.html == FormatRfpEmail(rfp, vendorName)
    ensures m.text == StripHtml(m.html) && NoTag(m.text) && Trimmed(m.text)
  {
    MailOf(vendorEmail, Subject(rfp.title), FormatRfpEmail(rfp, vendorName))
  }
}
