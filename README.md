# RFP management: a verified model

RFD_management is a procurement tool. A buyer types a request in plain
language. An LLM turns it into a structured RFP (request for proposal), which
is saved and then emailed to chosen vendors. Vendors reply by email. The
replies are fetched over IMAP, matched to a vendor and to an RFP through the
subject line, parsed by the LLM into proposals, and stored. An LLM comparison
then scores the proposals of an RFP. A React frontend shows the dashboard
counters, the RFP page with its vendor selection, the vendor form and the
comparison page.

This project models that core in Dafny and proves properties of the model.

- **Backend.** The model covers:
  - the two Mongoose schemas with their casts, defaults, validators and pre-save hooks;
  - the store, as a class of maps with ids handed out in creation order;
  - the outgoing email: subject, HTML template and `stripHtml`;
  - the IMAP fetch, as a state machine around its `connectionClosed` latch;
  - the subject regular expression, stepped through the way the regex engine runs it;
  - the fence stripping and error wrapping of the LLM replies;
  - the two controllers.
- **Frontend.** The model covers:
  - the dashboard counters and badge classes;
  - the selection toggle and the send handler of the RFP page;
  - the vendor form;
  - the score colours and labels, the pairing of scores with proposals, and the breakdown lines of the comparison page.

Files:

| file | models |
|---|---|
| Wrappers.dfy, Ids.dfy, Seqs.dfy | `Option`, `Result`; ids and times; generic sequence facts |
| Text.dfy | JavaScript `\s`, `trim`, truthiness, `||`, case-insensitive substring match |
| RfpModel.dfy, ProposalModel.dfy | backend/src/models/RFP.js, backend/src/models/Proposal.js |
| Store.dfy | the MongoDB collections and the queries the controllers run |
| EmailService.dfy | `sendRFPEmail`, `formatRFPEmail`, `stripHtml` |
| EmailFetch.dfy | `fetchUnreadEmails` |
| SubjectMatch.dfy | the subject match in `processVendorResponse` |
| AiService.dfy | backend/src/services/aiService.js |
| ProposalController.dfy, RfpController.dfy | the two controllers |
| CompareView.dfy, RfpDetailsPage.dfy, DashboardStats.dfy, VendorForm.dfy | the four frontend pages |

Some inputs become parameters:

- **LLM and JSON.** The LLM's reply is an `Option<string>` parameter; `None` means the call failed. `JSON.parse` is a parameter `decode` that returns `None` on a syntax error.
- **SMTP.** The SMTP send is a parameter `transport(n, email, name, rfp)`. It says whether the `n`-th `sendRFPEmail` call of a request resolved.
- **IMAP.** The IMAP server's callbacks are the events of `EmailFetch.Event`.
- **Clock.** The clock is a parameter `now`.
- **Frontend requests.** The outcome of each frontend API request is a boolean parameter.

## Model

| member | source | states |
|---|---|---|
| Text.Trim | backend/src/models/RFP.js:7 | the trimmed title has no JavaScript whitespace at either end; an already trimmed string is unchanged |
| Text.TrimSlice | backend/src/models/RFP.js:7 | the trimmed title is one contiguous slice of the input |
| Text.TrimDropsSpaces | backend/src/models/RFP.js:7 | everything `trim` drops, before and after that slice, is whitespace |
| Text.TrimStart | backend/src/models/RFP.js:7 | the leading whitespace is dropped: the result is a suffix of the input and starts with a non-space |
| Text.TrimStartDropsSpaces | backend/src/models/RFP.js:7 | all that the leading trim drops is whitespace |
| Text.TrimEnd | backend/src/models/RFP.js:7 | the trailing whitespace is dropped: the result is a prefix of the input and ends with a non-space |
| Text.TrimEndDropsSpaces | backend/src/models/RFP.js:7 | all that the trailing trim drops is whitespace |
| Text.PrefixMatches | backend/src/controllers/proposalController.js:28 | every prefix of a title matches that title under `new RegExp(prefix, 'i')` |
| Text.Or | backend/src/controllers/proposalController.js:37 | `a || b` on optional strings: `a` when it is truthy, else `b` |
| Text.LowerAll | backend/src/controllers/proposalController.js:28 | the `i` flag folds each character of subject and title alike |
| RfpModel.ParseStatus | backend/src/models/RFP.js:46-50 | the status enum accepts exactly the five status names, and each accepted name maps back to itself |
| RfpModel.ParseUnit | backend/src/models/RFP.js:30-34 | the timeline unit enum accepts exactly `days`, `weeks`, `months` |
| RfpModel.CastUnit | backend/src/models/RFP.js:30-34 | a missing unit defaults to days; a given one must be in the enum |
| RfpModel.Create | backend/src/models/RFP.js:3-72 | `RFP.create` succeeds exactly when the required fields are present and non-empty and the enums accept; the document is valid, its title is trimmed, and currency, payment terms, timeline unit (days) and status take their defaults; description, budget amount, requirements, timeline value, warranty, additional terms and raw input are kept as given; it is stamped with `now` and has no vendors |
| RfpModel.PreSave | backend/src/models/RFP.js:74-77 | saving sets `updatedAt` to now, changes nothing else and keeps validity |
| ProposalModel.CastTimeline | backend/src/controllers/proposalController.js:55-71 | (no contract of its own) a missing `deliveryTimeline` is stored as the empty subdocument and a given one as given; `ProposalController.UpdatedProposal` and `ProposalController.NewProposal` state that the stored timeline is this cast |
| ProposalModel.CastPricing | backend/src/models/Proposal.js:14-28 | the pricing casts exactly when `totalAmount` is present; currency defaults to USD and the breakdown is kept |
| ProposalModel.PreSave | backend/src/models/Proposal.js:86-89 | saving sets `updatedAt` to now, changes nothing else and keeps validity |
| Store.VendorByEmail | backend/src/controllers/proposalController.js:13 | `Vendor.findOne({ email })` returns the first vendor, in creation order, with that email, or none when no vendor has it |
| Store.Select | backend/src/controllers/rfpController.js:112 | a `find` query returns exactly the stored keys whose documents satisfy it, each once, ascending |
| Store.FindFirst | backend/src/controllers/proposalController.js:47-50 | a `findOne` query returns the first stored key whose document satisfies it, or none when no document does |
| Store.VendorsAmong | backend/src/controllers/rfpController.js:112 | `Vendor.find({ _id: { $in: ids } })` returns every existing vendor whose id is listed, each once and in creation order |
| Store.RfpByTitle | backend/src/controllers/proposalController.js:28 | the first RFP whose title contains the token, ignoring case, or none when no title does |
| Store.ProposalsOfRfp | backend/src/controllers/proposalController.js:154-155 | every proposal of the RFP, each once, in creation order |
| Store.ProposalFor | backend/src/controllers/proposalController.js:47-50 | a proposal of this vendor for this RFP, or none when there is none |
| Store.Populate | backend/src/controllers/proposalController.js:154-155 | `.populate('vendorId')` pairs each proposal, in order, with its vendor, or with null when the vendor is gone |
| Store.Database.constructor | backend/src/controllers/rfpController.js:104-112 | a database holding just the given vendors, with no RFP and no proposal |
| Store.Database.InsertRfp | backend/src/controllers/rfpController.js:22-26 | a new RFP gets a fresh id; nothing else changes |
| Store.Database.SaveRfp | backend/src/controllers/rfpController.js:153-155 | `rfp.save()` stores the document through the pre-save hook; nothing else changes |
| Store.Database.InsertProposal | backend/src/controllers/proposalController.js:68-81 | a new proposal gets a fresh id; nothing else changes |
| Store.Database.SaveProposal | backend/src/controllers/proposalController.js:64 | `proposal.save()` stores the document through the pre-save hook; nothing else changes |
| EmailService.RemoveTags | backend/src/services/emailService.js:153 | after `replace(/<[^>]*>/g, '')` no `<` is followed by a `>`; text without `<` is unchanged |
| EmailService.CollapseSpaces | backend/src/services/emailService.js:153 | after `replace(/\s+/g, ' ')` every whitespace is a single space and no two are adjacent; emptiness and a leading space are kept, and tag-free text stays tag-free |
| EmailService.StripHtml | backend/src/services/emailService.js:152-154 | the plain text has no tag, no leading or trailing whitespace, and only single spaces |
| EmailService.RemoveTagsKeepsTagFree | backend/src/services/emailService.js:153 | removing tags from tag-free text changes nothing |
| EmailService.CollapseKeepsCollapsed | backend/src/services/emailService.js:153 | collapsing already collapsed text changes nothing |
| EmailService.StripHtmlIdempotent | backend/src/services/emailService.js:152-154 | stripping the plain text again gives the same text |
| EmailService.Subject | backend/src/services/emailService.js:40 | the subject is `RFP: ` followed by the title, which can be read back from index 5 |
| EmailService.NatText | backend/src/services/emailService.js:57 | a quantity is written as a non-empty run of decimal digits |
| EmailService.NatTextDenotes | backend/src/services/emailService.js:57 | the digits written for a quantity denote that quantity, with no leading zero |
| EmailService.NatTextInjective | backend/src/services/emailService.js:57 | different quantities are written differently |
| EmailService.RequirementsList | backend/src/services/emailService.js:56-58 | (no contract of its own) the `map(...).join('')` of the requirement items; `EmailService.RequirementsListAppend` and `EmailService.RequirementsListInOrder` state its shape |
| EmailService.RequirementItem | backend/src/services/emailService.js:57 | each requirement is one `<li>…</li>` element |
| EmailService.RequirementsListAppend | backend/src/services/emailService.js:56-58 | `map(...).join('')` distributes over concatenation of the requirement lists |
| EmailService.RequirementsListInOrder | backend/src/services/emailService.js:56-58 | requirement `i` appears in the list after the items before it and before the items after it |
| EmailService.OptionalSection | backend/src/services/emailService.js:116-128 | an optional section is present exactly when its field is truthy, and it then holds the field in a paragraph |
| EmailService.Sections | backend/src/services/emailService.js:84-128 | (no contract of its own) the six fixed sections, then the warranty and additional-terms sections; `EmailService.ConditionalSections` states when each optional one is present and what it holds |
| EmailService.ConditionalSections | backend/src/services/emailService.js:84-128 | the warranty section appears exactly when the warranty is truthy, and likewise for additional terms; each sits after the six fixed sections with its field as body |
| EmailService.FormatRfpEmail | backend/src/services/emailService.js:55-149 | (no contract of its own) the template: the stylesheet, the greeting, the sections of `EmailService.Sections` in order and the footer, with each run of layout whitespace written as one space |
| EmailService.MailOf | backend/src/services/emailService.js:38-42 | the mail options hold the given recipient, subject and html, and a text part that is the stripped html and so has no tag and no surrounding whitespace |
| EmailService.MailFor | backend/src/services/emailService.js:33-43 | the mail goes to the vendor with the RFP subject; the text part is the stripped HTML and so has no tag and no surrounding whitespace |
| EmailFetch.Init | backend/src/services/emailService.js:158-161 | a fetch starts open, pending and with no emails |
| EmailFetch.Settle | backend/src/services/emailService.js:169 | a promise settles at most once: a settled outcome is never replaced |
| EmailFetch.Step | backend/src/services/emailService.js:161-287 | (no contract of its own) one event handler as written; `EmailFetch.StepSettlesOnce`, `EmailFetch.StepKeepsSettledClosed`, `EmailFetch.FirstTerminalDecides` and `EmailFetch.MessagesCollected` state its effect |
| EmailFetch.StepFixed | backend/src/services/emailService.js:239-245 | (no contract of its own) `EmailFetch.Step` with the fetch `end` handler resolving inside its guard; `EmailFetch.FixedFetchEndSettles` states that it then resolves with the collected list |
| EmailFetch.StepSettlesOnce | backend/src/services/emailService.js:161-287 | under every handler, as written or corrected, a settled fetch keeps its outcome and a closed latch stays closed |
| EmailFetch.StepKeepsSettledClosed | backend/src/services/emailService.js:161-287 | settled implies closed, and every handler preserves that |
| EmailFetch.FirstTerminalDecides | backend/src/services/emailService.js:163-287 | on an open, pending fetch each error handler rejects with its error; ECONNRESET, IMAP end and the timeout resolve with the collected emails; an empty search resolves with `[]`; only messages, parse errors, `close` and a cleared timer leave the latch open |
| EmailFetch.MessagesCollected | backend/src/services/emailService.js:197-227 | a parsed message is appended to `emails` and handed to the callback if there is one; an unparsable one changes nothing |
| EmailFetch.Run | backend/src/services/emailService.js:157-291 | (no contract of its own) the handlers as written applied to a sequence of events in order; `EmailFetch.RunAppend`, `EmailFetch.RunSettlesOnce` and `EmailFetch.FetchNeverSettles` state what a run does |
| EmailFetch.RunFixed | backend/src/services/emailService.js:157-291 | (no contract of its own) the corrected handlers applied to a sequence of events; `EmailFetch.FixedFetchSettles` states that the same fetch then resolves |
| EmailFetch.RunAppend | backend/src/services/emailService.js:157-291 | running two event sequences one after the other is running their concatenation |
| EmailFetch.RunSettlesOnce | backend/src/services/emailService.js:157-291 | over any sequence of events a settled fetch keeps its outcome and a closed latch stays closed |
| EmailFetch.SettledPrefixDecides | backend/src/services/emailService.js:157-291 | the outcome reached by a prefix of the events is the final outcome |
| EmailFetch.RunKeepsSettledClosed | backend/src/services/emailService.js:157-291 | settled implies closed after any sequence of events |
| EmailFetch.PendingAfterFetchEnd | backend/src/services/emailService.js:239-283 | as written, once the latch is closed without settling, only an empty-search event can settle the promise |
| EmailFetch.FetchNeverSettles | backend/src/services/emailService.js:239-245 | as written, a fetch that parses one message and then ends normally is still pending after IMAP end, close and the timeout, with the message already handed to the callback |
| EmailFetch.DeliveredAfterClose | backend/src/services/emailService.js:219-225 | events other than parsed messages hand nothing to the callback |
| EmailFetch.FixedFetchEndSettles | backend/src/services/emailService.js:239-245 | with the corrected `end` handler, the end of the fetch resolves with the collected emails |
| EmailFetch.FixedFetchSettles | backend/src/services/emailService.js:239-245 | with the corrected handler, the same run resolves with the one message |
| EmailFetch.FetchSession.constructor | backend/src/services/emailService.js:158-161 | a new session is the initial state |
| EmailFetch.FetchSession.Shutdown | backend/src/services/emailService.js:166-170 | the guarded close used by every handler: latch, optional `imap.end()`, settle once |
| EmailFetch.FetchSession.OnOpenBoxError | backend/src/services/emailService.js:164-172 | the `openBox` error handler is the model's step |
| EmailFetch.FetchSession.OnSearchResult | backend/src/services/emailService.js:175-195 | a search error rejects, an empty result resolves with `[]`, otherwise nothing changes yet |
| EmailFetch.FetchSession.OnMessage | backend/src/services/emailService.js:197-227 | a parsed message is collected and delivered; a parse error is ignored |
| EmailFetch.FetchSession.OnFetchError | backend/src/services/emailService.js:230-237 | the fetch error handler is the model's step |
| EmailFetch.FetchSession.OnFetchEnd | backend/src/services/emailService.js:239-245 | the fetch `end` handler, corrected to resolve with the collected emails |
| EmailFetch.FetchSession.OnImapError | backend/src/services/emailService.js:250-265 | ECONNRESET resolves with the emails; any other error rejects |
| EmailFetch.FetchSession.OnImapEnd | backend/src/services/emailService.js:267-273 | the IMAP `end` handler is the model's step |
| EmailFetch.FetchSession.OnTimeout | backend/src/services/emailService.js:276-283 | the 30-second timer closes and resolves unless it was cleared |
| EmailFetch.FetchSession.OnClose | backend/src/services/emailService.js:285-287 | `close` clears the timer |
| SubjectMatch.SpaceRun | backend/src/controllers/proposalController.js:21 | `\s*` taken greedily: the longest run of whitespace at the position |
| SubjectMatch.TokenEnd | backend/src/controllers/proposalController.js:21 | the first whitespace at or after the position, or the end |
| SubjectMatch.Backtrack | backend/src/controllers/proposalController.js:21 | a captured group has at least one character and no whitespace after its first |
| SubjectMatch.MatchAt | backend/src/controllers/proposalController.js:21 | a match at an index starts with `RFP:` in any case there |
| SubjectMatch.SearchFrom | backend/src/controllers/proposalController.js:21 | a match found from an index has `RFP:` at or after it |
| SubjectMatch.TrimOfTailNoSpace | backend/src/controllers/proposalController.js:27 | trimming a group whose tail has no whitespace leaves no whitespace |
| SubjectMatch.FirstWordRead | backend/src/controllers/proposalController.js:21 | on `RFP: ` followed by a title starting with a non-space, the group captured is the title's first word |
| SubjectMatch.ExtractRfpTitle | backend/src/controllers/proposalController.js:21-27 | an extracted title has no whitespace, and it is found only when the subject contains `RFP:` in some case |
| SubjectMatch.NoMarkerNoTitle | backend/src/controllers/proposalController.js:21-25 | a subject without `RFP:` in any case yields no title |
| SubjectMatch.EmptyTitleRead | backend/src/controllers/proposalController.js:21-27 | the subject of an RFP with an empty title reads back as the empty token, which every title matches |
| SubjectMatch.SubjectRoundTrip | backend/src/controllers/proposalController.js:21-27 | the title read from an outgoing subject is the title exactly when the title has no whitespace |
| SubjectMatch.StoredTitleReadsFirstWord | backend/src/controllers/proposalController.js:21-28 | for a stored (trimmed, non-empty) title the subject reads back as its first word, which the title matches |
| SubjectMatch.TitleUpToFirstSpace | backend/src/controllers/proposalController.js:21-27 | the token read is the title up to its first whitespace |
| SubjectMatch.TokenEndIsFirstSpace | backend/src/controllers/proposalController.js:21 | the token ends at the first whitespace |
| SubjectMatch.SharedFirstWord | backend/src/controllers/proposalController.js:21-28 | two stored titles sharing their first word, such as "Office Chairs" and "Office Laptops", give the same token, so a reply can be filed under the wrong RFP |
| SubjectMatch.SearchShift | backend/src/controllers/proposalController.js:21 | searching a concatenation from inside its second part is searching that part |
| SubjectMatch.SkipUnmarked | backend/src/controllers/proposalController.js:21 | a prefix with no `RFP:` in it is skipped by the leftmost search |
| SubjectMatch.ReplyPrefixSkipped | backend/src/controllers/proposalController.js:21-27 | a prefix without `RFP:` does not change the title read |
| SubjectMatch.ReplyRead | backend/src/controllers/proposalController.js:21-27 | a reply subject `Re: RFP: <title>` reads like the original subject |
| AiService.StripJsonFences | backend/src/services/aiService.js:57 | `replace(/```json\n?/g, '')` leaves text without backticks unchanged |
| AiService.StripTicks | backend/src/services/aiService.js:57 | after `replace(/```\n?/g, '')` no triple backtick is left |
| AiService.StripFences | backend/src/services/aiService.js:54-57 | the text handed to `JSON.parse` has no fence and no surrounding whitespace; a reply without backticks is only trimmed |
| AiService.FencedBlockUnwrapped | backend/src/services/aiService.js:54-57 | a reply wrapped in a json code fence is unwrapped to its body |
| AiService.OpeningFenceRemoved | backend/src/services/aiService.js:57 | the json fence opening a reply is removed and nothing else |
| AiService.ClosingFenceRemoved | backend/src/services/aiService.js:57 | the closing fence is removed, leaving its preceding newline for `trim` |
| AiService.NoJsonFenceKept | backend/src/services/aiService.js:57 | the json-fence removal leaves a backtick-free prefix alone |
| AiService.NoTickKept | backend/src/services/aiService.js:57 | the fence removal leaves a backtick-free prefix alone |
| AiService.Decode | backend/src/services/aiService.js:54-64 | a reply parses exactly when the LLM answered and the stripped text decodes; every failure carries the function's own message |
| AiService.ParseRfp | backend/src/services/aiService.js:19-65 | `parseRFPFromNaturalLanguage` succeeds exactly when the reply decodes; it then returns the decoded cleaned-up reply; it fails with "Failed to parse RFP from natural language" |
| AiService.ParseVendorResponse | backend/src/services/aiService.js:68-120 | `parseVendorResponse` succeeds exactly when the reply decodes; it then returns the decoded cleaned-up reply; it fails with "Failed to parse vendor response" |
| AiService.ErrorMessagesDistinct | backend/src/services/aiService.js:63-182 | the three services fail with three different messages |
| AiService.ToData | backend/src/services/aiService.js:125-134 | each proposal is summarised with its vendor's name and company, its total, timeline, terms, compliance score and summary |
| AiService.ProposalsData | backend/src/services/aiService.js:125-134 | the summaries exist exactly when every proposal has its vendor (`p.vendorId.name` throws on null); they are one per proposal, in order |
| AiService.CompareProposalsAndRecommend | backend/src/services/aiService.js:123-184 | the comparison succeeds exactly when every vendor is present and the reply decodes, and then returns the decoded cleaned-up reply; it fails with "Failed to compare proposals" |
| ProposalController.RawContent | backend/src/controllers/proposalController.js:37 | `emailData.text || emailData.html` |
| ProposalController.UpdatedProposal | backend/src/controllers/proposalController.js:52-64 | the update is saved exactly when it validates; it sets the nine reply fields and keeps every other field |
| ProposalController.NewProposal | backend/src/controllers/proposalController.js:66-81 | a new proposal is saved exactly when it validates; it carries the pair, the cast pricing and timeline, the payment terms, warranty, additional terms, compliance score and summary of the parsed reply and the mail's content and date; it is `received`, unscored and stamped with now |
| ProposalController.BumpStatus | backend/src/controllers/proposalController.js:86-89 | `sent` becomes `in-review`; every other status is kept |
| ProposalController.BumpIdempotent | backend/src/controllers/proposalController.js:86-89 | bumping twice is bumping once, and a bumped status is never `sent` |
| ProposalController.CreateKeepsPairsUnique | backend/src/controllers/proposalController.js:47-81 | creating only when the pair has no proposal keeps at most one proposal per vendor and RFP |
| ProposalController.UpdateKeepsPairsUnique | backend/src/controllers/proposalController.js:52-64 | updating a proposal in place keeps at most one proposal per vendor and RFP |
| ProposalController.RouteReply | backend/src/controllers/proposalController.js:13-44 | a reply that gets through the guards names a known vendor and a known RFP |
| ProposalController.RouteStops | backend/src/controllers/proposalController.js:13-44 | the first four early returns happen exactly when their guard fails: unknown sender, no subject, no `RFP:` match, no matching title; a parse stop means the parser failed |
| ProposalController.ReplyReachesAnRfp | backend/src/controllers/proposalController.js:21-32 | the subject of any stored RFP reads back to a token that finds some RFP |
| ProposalController.Upsert | backend/src/controllers/proposalController.js:47-89 | the existing proposal of the pair is updated, or a new one created; a `sent` RFP moves to `in-review`; a rejected save writes nothing; one proposal per pair is kept |
| ProposalController.ProcessVendorResponse | backend/src/controllers/proposalController.js:8-94 | an email that stops at a guard writes nothing and answers with that guard's outcome; one that gets through creates the pair's proposal or updates the existing one with the parsed reply, moves a `sent` RFP to `in-review`, and writes nothing when the proposal fails validation |
| ProposalController.FirstNamed | backend/src/controllers/proposalController.js:178 | `find` by vendor name returns the first index with the name, or none when no entry has it |
| ProposalController.VendorNames | backend/src/controllers/proposalController.js:178 | the populated vendor names, one per proposal |
| ProposalController.RecommendationOf | backend/src/controllers/proposalController.js:181-187 | (no contract of its own) the five fields put into `aiRecommendation`, as a record rather than their JSON text; `ProposalController.Scored` and `ProposalController.LastScoreWins` state that they are stored |
| ProposalController.Scored | backend/src/controllers/proposalController.js:180-187 | a score sets `aiScore` and `aiRecommendation` and nothing else |
| ProposalController.ApplyScore | backend/src/controllers/proposalController.js:177-190 | one score keeps the number of proposals; what it changes is stated by `MergeScores` |
| ProposalController.MergeScores | backend/src/controllers/proposalController.js:177-190 | the scoring loop changes only scores, recommendations and save times, and keeps every proposal valid |
| ProposalController.MergeLeavesUnmatched | backend/src/controllers/proposalController.js:177-190 | a proposal no score selects is left exactly as it was |
| ProposalController.OnlyFirstNamesakeScored | backend/src/controllers/proposalController.js:178 | of two proposals whose vendors share a name, the later is never scored |
| ProposalController.MergeStep | backend/src/controllers/proposalController.js:177-190 | each iteration applies one score to the result of the previous ones |
| ProposalController.MergeStaysStopped | backend/src/controllers/proposalController.js:177-190 | once a save throws, the rest of the scores are not applied |
| ProposalController.LastScoreWins | backend/src/controllers/proposalController.js:177-190 | a proposal ends with the last score that selects it, saved at now |
| ProposalController.MergeCompletes | backend/src/controllers/proposalController.js:177-190 | the loop completes exactly when every matched `overallScore` passes the min/max validators: it is missing, or within 0..100 |
| ProposalController.SamePairsKeepUnique | backend/src/controllers/proposalController.js:177-190 | rewriting proposals without changing their vendor or RFP keeps one proposal per pair |
| ProposalController.MergeAdvance | backend/src/controllers/proposalController.js:176-188 | one turn of the loop: a score naming no loaded vendor changes nothing, a score that fails validation ends the loop with the documents as they were, and any other replaces the matched document by its scored and saved version |
| ProposalController.SaveScored | backend/src/controllers/proposalController.js:187 | `proposal.save()` changes the stored document under that one id and the in-memory document at that one position |
| ProposalController.ApplyScores | backend/src/controllers/proposalController.js:177-190 | the loop writes exactly the documents `MergeScores` computes and nothing else |
| ProposalController.CompareProposals | backend/src/controllers/proposalController.js:142-212 | 404 exactly for an unknown RFP or one without proposals; a failed comparison is the 500 and writes nothing; otherwise the proposals are scored as `MergeScores` says, and a 500 from a failed save leaves the saves before it stored; no vendor, RFP or other RFP's proposal is touched |
| ProposalController.ScoreProposals | backend/src/controllers/proposalController.js:177-193 | after a successful comparison the loaded proposals are scored and saved as `MergeScores` says; a failed save is the 500, and the store then holds the documents as `MergeScores` left them when it stopped; proposals of other RFPs are untouched and one proposal per pair is kept |
| ProposalController.ScoringKeepsPairs | backend/src/controllers/proposalController.js:177-190 | after the score loop every proposal keeps its vendor and RFP, so the pairs stay unique |
| ProposalController.Docs | backend/src/controllers/proposalController.js:154-155 | the documents of the listed ids, in order |
| RfpController.CreationInput | backend/src/controllers/rfpController.js:22-26 | `{ ...parsedRFP, rawInput, status: 'draft' }` overrides those two fields and keeps the rest |
| RfpController.CreatedIsDraft | backend/src/controllers/rfpController.js:22-26 | a created RFP is a draft holding the natural-language input, sent to nobody, whatever the parsed object said |
| RfpController.CreateRfp | backend/src/controllers/rfpController.js:7-41 | 400 exactly without input; created exactly when the reply decodes and the RFP validates, and then stored under a fresh id as a draft; otherwise nothing is written |
| RfpController.Attempt | backend/src/controllers/rfpController.js:125-148 | a send is recorded as sent, with the time, exactly when `sendRFPEmail` resolved; a failed one carries no time |
| RfpController.SentEntries | backend/src/controllers/rfpController.js:137-140 | at most one entry per result, and none when every send failed |
| RfpController.SentEntriesAreDeliveries | backend/src/controllers/rfpController.js:137-140 | there is one entry per delivered send, and each names a vendor whose send was delivered |
| RfpController.Attempts | backend/src/controllers/rfpController.js:124-150 | one result per found vendor |
| RfpController.AttemptAt | backend/src/controllers/rfpController.js:124-150 | result `i` is the `i`-th send, to the `i`-th vendor |
| RfpController.DispatchEmails | backend/src/controllers/rfpController.js:121-150 | the loop yields exactly the results `Attempts` describes and the entries of the delivered ones |
| RfpController.SendRfpToVendors | backend/src/controllers/rfpController.js:93-165 | 400 exactly when the RFP id or vendor ids are missing or empty, 404 for an unknown RFP or no known vendor; otherwise every found vendor is sent to and the RFP is saved as `sent` with the deliveries appended |
| RfpController.DispatchRecord | backend/src/controllers/rfpController.js:152-155 | after a dispatch the RFP is `sent`, the earlier entries are a prefix of the new ones, one entry is added per delivery, and nothing else changes |
| CompareView.ScoreColor | frontend/src/pages/CompareProposals.js:29-33 | green exactly from 80, amber from 60 to 79, red below 60 or when the score is missing |
| CompareView.ScoreLabel | frontend/src/pages/CompareProposals.js:35-40 | Excellent from 80, Good from 60, Fair from 40, Poor below or when missing |
| CompareView.Monotone | frontend/src/pages/CompareProposals.js:29-40 | a higher score never gets a worse label or a worse colour |
| CompareView.LabelAndColorAgree | frontend/src/pages/CompareProposals.js:29-40 | Excellent is shown green, Good amber, Fair and Poor red |
| CompareView.MissingScoreIsPoor | frontend/src/pages/CompareProposals.js:119-122 | a missing overall score is shown red and Poor |
| CompareView.PairedProposal | frontend/src/pages/CompareProposals.js:111 | a score card shows the first proposal whose vendor has the score's name, or none exactly when no vendor has it |
| CompareView.FirstNamesakeShown | frontend/src/pages/CompareProposals.js:111 | of vendors sharing a name, the first one's proposal is shown |
| CompareView.LineAsWritten | frontend/src/pages/CompareProposals.js:255-262 | as written: itemised when the unit price is a number and the quantity is above 1, the total alone when the guard fails; an absent unit price passes the guard and throws |
| CompareView.AbsentUnitPriceThrows | frontend/src/pages/CompareProposals.js:255-257 | a line with quantity 2, no unit price and a total fails to render |
| CompareView.Line | frontend/src/pages/CompareProposals.js:255-262 | corrected: itemised exactly when unit price and total are numbers and the quantity is above 1; otherwise the total alone |
| CompareView.LineRendersWithTotal | frontend/src/pages/CompareProposals.js:255-262 | the corrected line fails only without a total, and agrees with the line as written whenever the unit price is not absent |
| CompareView.BreakdownView | frontend/src/pages/CompareProposals.js:249-266 | as written: one line per breakdown item, in order, each under the `!== null` guard |
| CompareView.FixedBreakdownView | frontend/src/pages/CompareProposals.js:249-266 | corrected: one line per breakdown item, in order, each under the intended `!= null` guard |
| CompareView.BreakdownViewsAgree | frontend/src/pages/CompareProposals.js:249-266 | the as-written and corrected blocks are the same when no item lacks a unit price; a corrected line fails exactly where the item has no total |
| CompareView.AbsentUnitPriceBreaksBreakdown | frontend/src/pages/CompareProposals.js:255-257 | on an item with quantity 2, a total of 500 and no unit price, the block as written breaks, while the corrected one shows the total |
| RfpDetailsPage.Without | frontend/src/pages/RFPDetails.js:57 | `filter(id => id !== v)` removes every occurrence of `v` and keeps every other id |
| RfpDetailsPage.Toggle | frontend/src/pages/RFPDetails.js:54-59 | a selected id is filtered out, an unselected one appended at the end; membership flips |
| RfpDetailsPage.WithoutKeepsOrder | frontend/src/pages/RFPDetails.js:57 | filtering keeps the order of the rest: it distributes over concatenation |
| RfpDetailsPage.WithoutKeepsNoDup | frontend/src/pages/RFPDetails.js:57 | filtering a duplicate-free selection leaves it duplicate-free |
| RfpDetailsPage.ToggleKeepsNoDup | frontend/src/pages/RFPDetails.js:54-59 | a duplicate-free selection stays duplicate-free under toggle |
| RfpDetailsPage.WithoutSingle | frontend/src/pages/RFPDetails.js:57 | in a duplicate-free selection, filtering removes just the one position |
| RfpDetailsPage.ToggleTwiceUnselected | frontend/src/pages/RFPDetails.js:54-59 | toggling an unselected id twice restores the selection |
| RfpDetailsPage.ToggleTwiceSelected | frontend/src/pages/RFPDetails.js:54-59 | toggling a selected id twice moves it to the end, and restores the selection when it was last |
| RfpDetailsPage.SendDisabled | frontend/src/pages/RFPDetails.js:142 | the send button is disabled exactly for a completed RFP |
| RfpDetailsPage.RfpDetailsPage.constructor | frontend/src/pages/RFPDetails.js:12-16 | the page starts with no selection, the dialog closed and not sending |
| RfpDetailsPage.RfpDetailsPage.OpenVendorSelection | frontend/src/pages/RFPDetails.js:139-143 | clicking the send button opens the dialog unless it is disabled |
| RfpDetailsPage.RfpDetailsPage.HandleVendorToggle | frontend/src/pages/RFPDetails.js:54-59 | the selection becomes its toggle and nothing else changes |
| RfpDetailsPage.RfpDetailsPage.HandleSendRfp | frontend/src/pages/RFPDetails.js:62-86 | an empty selection makes no request; otherwise the request carries the selection, success clears it, closes the dialog and reloads, failure keeps it, and `sending` ends false |
| DashboardStats.StatsOf | frontend/src/pages/Dashboard.js:30-35 | (no contract of its own) the four counters; `DashboardStats.CountersBounded`, `DashboardStats.CountIsMultiplicity`, `DashboardStats.UncountedStatuses` and `DashboardStats.CountedStatus` state their values |
| DashboardStats.CountStatus | frontend/src/pages/Dashboard.js:32-34 | a status count never exceeds the number of RFPs |
| DashboardStats.NamesSnoc | frontend/src/pages/Dashboard.js:32-34 | the status names of a list are those of all but its last RFP, followed by the last one's |
| DashboardStats.CountIsMultiplicity | frontend/src/pages/Dashboard.js:32-34 | each counter is the multiplicity of its status among the RFPs |
| DashboardStats.StatusesPartition | frontend/src/pages/Dashboard.js:30-35 | the five statuses' counts add up to the number of RFPs |
| DashboardStats.CountersBounded | frontend/src/pages/Dashboard.js:30-35 | `totalRFPs` is the number of RFPs; sent + in review + completed is at most the total, and equal exactly when no RFP is a draft or cancelled |
| DashboardStats.UncountedStatuses | frontend/src/pages/Dashboard.js:30-35 | a draft or cancelled RFP adds to the total only |
| DashboardStats.CountedStatus | frontend/src/pages/Dashboard.js:30-35 | a sent, in-review or completed RFP adds one to its own counter and to the total |
| DashboardStats.BadgeClass | frontend/src/pages/Dashboard.js:67-80 | the four known statuses get their classes; exactly the other strings get the plain badge |
| DashboardStats.BadgeOfStored | frontend/src/pages/Dashboard.js:67-80 | among stored statuses only `cancelled` gets the plain badge, and the four classes differ |
| VendorForm.SetField | frontend/src/pages/VendorManagement.js:36-41 | the named field takes the value and the other five are unchanged |
| VendorForm.FieldsDetermineForm | frontend/src/pages/VendorManagement.js:11-18 | a form is determined by its six fields |
| VendorForm.SetFieldLaws | frontend/src/pages/VendorManagement.js:36-41 | writing back a field's value changes nothing; of two writes to a field the last wins |
| VendorForm.OrEmpty | frontend/src/pages/VendorManagement.js:73-76 | `x || ''` keeps a non-empty value and turns the rest into `''` |
| VendorForm.EditForm | frontend/src/pages/VendorManagement.js:68-79 | editing copies name and email, and turns missing phone, company, address and specialization into `''` |
| VendorForm.Submittable | frontend/src/pages/VendorManagement.js:46-49 | (no contract of its own) the guard `formData.name && formData.email`; `VendorForm.SubmittableForms` states which forms pass it, and `VendorForm.VendorPage.HandleSubmit` that a form failing it changes nothing but the toast |
| VendorForm.SubmittableForms | frontend/src/pages/VendorManagement.js:46-49 | an edit form can be submitted exactly when the vendor's name and email are non-empty; a cleared form cannot |
| VendorForm.VendorPage.constructor | frontend/src/pages/VendorManagement.js:9-18 | the page starts with an empty form, no vendor being edited and the form hidden |
| VendorForm.VendorPage.HandleInputChange | frontend/src/pages/VendorManagement.js:36-41 | only the form changes, by `SetField` |
| VendorForm.VendorPage.HandleEdit | frontend/src/pages/VendorManagement.js:68-79 | the form is filled from the vendor, which becomes the one being edited, and shown |
| VendorForm.VendorPage.ResetForm | frontend/src/pages/VendorManagement.js:96-107 | all six fields are cleared, no vendor is being edited and the form is hidden |
| VendorForm.VendorPage.HandleSubmit | frontend/src/pages/VendorManagement.js:43-66 | no request without name and email; otherwise an update when a vendor is being edited and a create otherwise; success resets the form and reloads, failure keeps it |

## Left out

- **Network and services.** IMAP and SMTP connections, the Gemini API and MongoDB are left out; their results are parameters. The prompt texts sent to the LLM are left out: only the replies matter to the code.
- **JSON.** `JSON.parse` is the parameter `decode`, and the shape of the object it produces is a datatype. Keys of the parsed object that the schema does not know are not modelled; Mongoose drops them.
- **Title lookup.** It models `new RegExp(token, 'i')` as a case-insensitive substring search. A token holding regex metacharacters, which the source would interpret, is not modelled.
- **Formatting and text.**
  - `toLocaleString` is modelled as plain decimal digits, without grouping.
  - In the template each run of layout whitespace (a line break and its indentation) is written as one space, so the html part differs from the source only inside these runs. The text part is the same as the source's: `stripHtml` turns every whitespace run into one space, and it keeps the stylesheet between `<style>` and `</style>`, which is not a tag.
  - Case folding covers ASCII letters only, and strings are sequences of code points rather than of UTF-16 units.
- **Numbers and time.** JavaScript numbers are modelled as unbounded integers. Dates are opaque times, and one time `now` stands for every clock reading of a request: the `sentAt` of every delivered send and the final save in `sendRFPToVendors`, every per-proposal save in `compareProposals`, and both saves in `processVendorResponse`.
- **Malformed ids.** Ids are natural numbers, so an id that is not stored is simply not found. A malformed ObjectId, for which Mongoose throws a CastError and the handler answers 500, is not modelled. This affects `RFP.findById` (backend/src/controllers/rfpController.js:104, backend/src/controllers/proposalController.js:145) and `Vendor.find` with `$in` (backend/src/controllers/rfpController.js:112): there one malformed entry fails the whole request, while the model skips the entry and sends to the rest.
- RfpController.CreateRfp: the decoded reply cannot carry the schema keys `_id`, `createdAt` and `sentToVendors` (backend/src/models/RFP.js:52-67), although the spread at backend/src/controllers/rfpController.js:22-26 would pass them to `RFP.create`. A reply with `sentToVendors` or `createdAt` would be stored with them, and a malformed `_id` would make the create fail with a 500. `RfpController.CreatedIsDraft` and `RfpModel.Create` therefore state "sent to nobody" and `createdAt == now` only for replies without these keys.
- **Fetch session.** In `fetchUnreadEmails` the asynchronous interleaving of the callback with later events is not modelled. A run is any sequence of events, so a repeated `end` or `close` is allowed; once the latch is closed, a repeated `end` has no further effect, since its `once` listener is gone and Node ignores an `end` without listeners. Attachments are not modelled.
- EmailFetch.Step: a second `error` event on the fetch or on the connection is modelled as a guarded handler that finds the latch closed and does nothing. In the source both listeners are registered with `once` (backend/src/services/emailService.js:230, 250), so the second `error` finds no listener and Node's EventEmitter throws it as an uncaught exception. `EmailFetch.Run` and the lemmas about runs therefore describe the source only for runs with at most one fetch `error` and at most one connection `error`.
- **Aliasing.** `ResolvedWithList` stands for the live `emails` array a resolution hands out. Messages that arrive after it are modelled as appended to the state, not to the caller's copy.
- **Null and optional fields.** The fields `item`, `quantity` and `specifications` of a requirement are optional in the schema but plain values in the model. A JSON `null` for `currency`, `paymentTerms` or the timeline `unit` is not modelled either: the model treats a missing field as `undefined`, which is the only case in which Mongoose applies a default.
- **Send errors.** A failed send's result carries no `error` text, because the transport parameter reports only whether the send succeeded; the `error.message` pushed at backend/src/controllers/rfpController.js:141-147 is not modelled.
- **Vendor schema.** backend/src/models/Vendor.js is not part of this model. Vendors are a plain record with the fields the controllers and pages read.
- **Other handlers.** `createProposal`, `getProposalsByRFP`, `getProposalById`, `updateProposalStatus`, `startEmailListener`, `checkNewEmails`, the remaining RFP CRUD handlers, the routes, and the data fetching and rendering of the pages are outside the core and left out.
- **Intermediate UI state.** The `setSending(true)` stage of `handleSendRFP` is left out: only the final state is observable after the handler ends. Toast texts are reduced to which toast is shown.
- RfpController.Attempts: its contract states only the number of results. What each result is is stated by `RfpController.AttemptAt`, which keeps the proof of the recursion small.
- ProposalController.ApplyScore: its contract states only the number of proposals. What one score does is stated by `ProposalController.MergeStep`, `ProposalController.MergeScores` and `ProposalController.LastScoreWins`.
- **RfpController.Attempt.** `emailService.sendRFPEmail(vendor.email, vendor.name, rfp)` is the parameter `transport`. The mail that call builds is `EmailService.MailFor`, but the connection between the two is not stated in a contract.

## Findings

| source | as written | input that shows it | evidently intended | confidence | as-written member | corrected member |
|---|---|---|---|---|---|---|
| backend/src/services/emailService.js:239-245 | the fetch `end` handler sets `connectionClosed = true` and calls `imap.end()` without settling the promise. The IMAP `end`, ECONNRESET and timeout handlers that would resolve it are all guarded by `!connectionClosed`, so a fetch that finishes normally never settles and `checkNewEmails` never responds | one unseen message: events message, fetch end, IMAP end, close, timeout | resolve with the collected emails when the fetch ends | high; not executed | EmailFetch.FetchNeverSettles | EmailFetch.FixedFetchSettles |
| frontend/src/pages/CompareProposals.js:255-257 | the guard `item.unitPrice !== null` lets an absent (`undefined`) unit price through. The itemised branch then calls `item.unitPrice.toLocaleString()`, which throws and breaks the comparison page | a breakdown item with quantity 2, a total of 500 and no unit price | show the itemised line only when the unit price is present (`!= null`) | medium; not executed | CompareView.AbsentUnitPriceThrows | CompareView.LineRendersWithTotal |
