# Verified model of the FLS audit reconciler, the reviewer bot and the guideline checks

The repository keeps the Safety-Critical Rust Coding Guidelines. Three of its programs carry most of its logic, and this
project models them and proves what they are for.

**The FLS audit issue reconciler** (`scripts/fls_audit_issue_lib`) mirrors the drift between the live FLS specification and
`spec.lock` into GitHub issues. It is a write-ahead log on top of GitHub: every change of the drift is first posted as a
numbered comment, linked by digest to the one before it, and only then written into the issue body. A run may stop at any
request, and a request that raised may have taken effect. `GitHub.dfy` holds the store and its failing requests;
`CampaignIssue.dfy`, `Campaigns.dfy` and `Reconciler.dfy` are the reconciler; `AuditParsing.dfy` is what bodies and comments
are accepted, `Utf8.dfy` how large they are, `AuditReports.dfy` which report a body shows; `AuditRuns.dfy` is every history
of runs and of people editing issues in between.

**The reviewer bot** (`scripts/reviewer_bot_core`, `scripts/reviewer_bot_lib/assignment_flow.py`) decides whose turn it is on
an issue or pull request. `ReviewChannels.dfy` accepts events, `LiveReviews.dfy` and `ReviewAuthority.dfy` judge live reviews,
`ReviewerResponse.dfy` is the decision cascade and `ReviewOutcomes.dfy` its answer in every situation, `Assignment.dfy` keeps
the tracked reviewer and the live assignees in agreement, `ReviewEntries.dfy` is the persisted form of an entry.

**The guideline checks** (`exts/coding_guidelines`) contribute the scan for the keyword `unsafe` (`RustText.dfy` has the
lexical rules, `RustEdits.dfy` the locality of lexing, `UnsafeScanner.dfy` the scan), the paragraph diff behind the audit
(`FlsParagraphs.dfy`, `AuditItems.dfy`, `AuditDrift.dfy`) and the repair of citation keys (`CitationKeys.dfy`).

## How the model reads

- The invariant of the audit is `AuditStore.StoreInv`: every issue of the bot parses; an issue with a state carries it in a
  well-formed managed region within the size limit; its comments hold the transitions 1 to m of its campaign, each once, each
  linked to the one before, starting from the origin; the sequence in the body is at most m and its digest is the digest at
  that point of the log; no batch id occurs twice; no two issues claim one campaign. Where a comment of the bot is too large
  to be read, this holds of the comments before it, and none behind it holds a marker (`AuditStore.Logged`).
  `Reconciler.Reconcile` and every method below it keep the invariant in every outcome; `Moved` adds that comments are only
  added, campaign and origin stay, and sequences never fall, and `Kept` that comments which can be read stay readable.
- `AuditTarget.Converged` is what a finished run owes: issues of other campaigns closed, the issue of this campaign with the
  right title, label, status and digests, its log complete, its managed region a fixed point of rendering, such an issue
  exists when there is drift, and no damaged issue is open.
- A request ends as `Done`, `Raised` or `Died`; `reliable` clients always do `Done`, and the reads of `steady` ones do. One
  writer runs at a time and reads return the current store.
- `Reconciler.Leaves` is what a finished run owes beyond convergence: no issue about other documents is open, the run names
  the one issue of its campaign, and that issue shows the report on every line that matters and records it.
- The report enters as the changes, a JSON value for the digested content, the commit, and the rendered texts, all arbitrary
  for each run. No rendered text holds one of the markers in full, and no string in the items of the report holds a boundary
  of the managed region; that printing the items as JSON then makes none is proved (`AuditMarks.PrintFree`).
- Between runs people and other programs, under any account, may open and edit issues and add comments, as long as they keep
  the managed regions and add nothing that the audit takes for its own or cannot read (`AuditRuns.Respects`, `IsForeign`).
- A digest is the hexadecimal form of the printed JSON behind the prefix `sha256:`, so that digests are injective
  (`Json.DigestInjective`) where SHA-256 is only assumed to be; the length of a digest is not checked.
- JSON follows RFC 8259: the printer escapes every control character (section 7), so that printed text holds no raw line feed.
- Timestamps are texts with an arbitrary function that reads them; `str`, `int` and `str.upper` of Python enter as functions
  with the laws that are stated where they are needed.

## What turned out not to hold

- `event_comment` is the only writer without a size check. An announcement that is too large is posted all the same, its
  issue is closed, and the comments of that issue cannot be read any more. A run that ends well keeps all comments readable if
  and only if every announcement it has to make fits or is on its issue already (`Reconciler.Reconcile`,
  `Reconciler.ReadableExactly`); `AuditRuns.BlockingRun` is a store and a run for which this fails. The histories of
  `AuditRuns.Live` include such runs.
- The scan for `unsafe` takes the closing mark of `'\''` for code: it can miss the keyword and it can invent it
  (`UnsafeScanner.ScanMisses`, `ScanInvents`). It sees exactly the code if and only if no character literal escapes a quote
  mark (`UnsafeScanner.ScansCodeExactly`). The raw identifier `r#unsafe` counts as the word `unsafe`, as the scan has it.
- What a string literal says can matter to the answer about `unsafe`: behind a quote mark that is code, a string that starts
  with a quote mark makes the character literal `'"'` (`UnsafeScanner.InsideMayMatter`). A token that is replaced by another
  one with the same delimiters still stands in the code if and only if it does not do this (`RustEdits.StaysCode`).
- With one approval that may write and another whose permission cannot be read, the decision about a pull request depends
  on the order in which the reviews are listed, and only then (`ReviewAuthority.OrderMattersExactly`, with the input
  `ReviewAuthority.ContestedExample`).
- The review that completes a round is the greatest by the *text* of its time, the preferred review the latest by time. A pull
  request can be done although the tracked reviewer's latest review requests changes
  (`ReviewerResponse.DoneDespiteLaterRequest`). The two are one review if and only if no later review of the reviewer is on
  this head (`ReviewerResponse.DoneByApprovalExactly`), as when all times are written alike (`DoneReviewApproves`).
- `validate_citation_key` hands back a valid key with a line feed behind it as valid, as `$` also matches there
  (`CitationKeys.LineFeedPasses`, `ValidatesKeysExactly`).
- `derive_reviewer_assignment_confirmation` can allow tracking a reviewer who does not resolve: on an issue one of several
  assignees before and after (`Assignment.SecondAssigneeDisagrees`), on a pull request with other reviewers one whose request
  was refused with status 422 (`RefusedRequestDisagrees`). It can also refuse one who resolves: a reviewer who joined others on
  a pull request (`JoiningReviewerIsMissed`). `Assignment.TrackingAgreesExactly` shows that these are all cases. With a fresh
  read of the assignees and real successes none arises; with a list that a caller hands in, `Assignment.Item.ConfirmAssignment`
  says exactly which lists mislead a reliable call.
- `make_state` does not check campaign and origin: what it makes reads back only under the condition of
  `AuditState.MadeStateReads`.

## Model

| member | source | states |
|---|---|---|
| Json.LoadsPrint | scripts/fls_audit_issue_lib/state.py:35-36 | reading printed JSON gives the value back, whatever follows the text |
| Json.PrintInjective | scripts/fls_audit_issue_lib/state.py:35-36 | two values with the same compact text are equal |
| Json.PrintPrintable | scripts/fls_audit_issue_lib/state.py:35-36 | compact text holds only printable ASCII, in particular no raw line feed |
| Json.EscapeIsShortest | scripts/fls_audit_issue_lib/state.py:35-36 | no printable spelling of a character is shorter than the one that is written |
| Json.DigestInjective | scripts/fls_audit_issue_lib/state.py:39-40 | two values with the same digest are equal |
| Json.DictOfSortedFields | scripts/fls_audit_issue_lib/state.py:35-36 | sorting the keys of a map loses nothing: the object reads back as the map |
| Utf8.SizeIsLength | scripts/fls_audit_issue_lib/state.py:43-46 | the size that is checked is the number of bytes of the encoding, all of them below 256 |
| AuditState.StateRoundTrip | scripts/fls_audit_issue_lib/state.py:162-197 | decoding the JSON of a valid state gives that state back |
| AuditState.DecodesStateExactly | scripts/fls_audit_issue_lib/state.py:179-197 | decoding accepts exactly the objects whose fields, in any order, say a valid state, and gives that state |
| AuditState.MarkerRoundTrip | scripts/fls_audit_issue_lib/state.py:254-301 | decoding gives back every valid marker, transitions and events alike |
| AuditState.DecodesMarkerExactly | scripts/fls_audit_issue_lib/state.py:270-301 | decoding accepts exactly the objects that say a valid marker, and gives that marker |
| AuditState.ReadStateBack | scripts/fls_audit_issue_lib/state.py:214-235 | the text of a state marker reads back as the state |
| AuditState.ReadMarkerBack | scripts/fls_audit_issue_lib/state.py:254-301 | the text of a batch marker reads back as the marker |
| AuditState.ItemsDigestInjective | scripts/fls_audit_issue_lib/state.py:132-138 | equal semantic digests mean equal item maps |
| AuditState.BatchIdInjective | scripts/fls_audit_issue_lib/state.py:248-251 | a batch id determines campaign, sequence, previous and target digest |
| AuditState.SupersededIdInjective | scripts/fls_audit_issue_lib/reconcile.py:363 | the id of an announcement determines the old and the new campaign |
| AuditState.BatchIdIsNotSuperseded | scripts/fls_audit_issue_lib/reconcile.py:288 | no transition has the id of an announcement |
| AuditState.MadeStateReads | scripts/fls_audit_issue_lib/state.py:162-197 | a made state reads back if and only if campaign and origin are digests and a state at sequence 0 has its own digest as origin |
| AuditState.CampaignIdInjective | scripts/fls_audit_issue_lib/state.py:49-53 | the campaign is about all documents of spec.lock: other documents make another campaign |
| AuditParsing.ParseStateExactly | scripts/fls_audit_issue_lib/state.py:200-231 | a body is too large, or without state exactly when it names none of the marks, or has the state of its only state marker in its only managed region; anything else raises |
| AuditParsing.ParseMarkerExactly | scripts/fls_audit_issue_lib/state.py:270-301 | a comment is too large, or without marker exactly when it names none, or has the marker of its only one; anything else raises |
| AuditParsing.ClosedMattersExactly | scripts/fls_audit_issue_lib/reconcile.py:76-83 | that closed issues without a mark are not parsed matters exactly for those that are too large |
| AuditMarks.PrintFree | scripts/fls_audit_issue_lib/state.py:35-36 | printing a value makes no boundary of a managed region that none of its strings holds |
| AuditRender.MarkersOnce | scripts/fls_audit_issue_lib/render.py:96-113 | around texts that hold none of the full markers, a rendered body holds each of its three markers exactly once, where it was written |
| AuditRender.ParseCarried | scripts/fls_audit_issue_lib/state.py:214-231 | the parser reads back the state that a body was rendered for |
| AuditRender.ReplaceRendered | scripts/fls_audit_issue_lib/render.py:18-22 | rendering replaces the managed region and keeps all text around it |
| AuditRender.ManagedBodyCarries | scripts/fls_audit_issue_lib/render.py:96-113 | whichever of the two reports is used, the new body carries the new state |
| AuditRender.ManagedBodyFails | scripts/fls_audit_issue_lib/render.py:104-113 | rendering onto a body of the bot fails only for size |
| AuditRender.ManagedBodyFixedPoint | scripts/fls_audit_issue_lib/render.py:18-37 | rendering a rendered body again gives the same body |
| AuditRender.ParseComment | scripts/fls_audit_issue_lib/render.py:194-219 | the marker of a comment reads back exactly when the comment fits; otherwise parsing raises |
| AuditReports.ManagedBodyChooses | scripts/fls_audit_issue_lib/render.py:104-113 | the full report is written if and only if it fits, the compact one if and only if only that fits, between the text that was there |
| AuditReports.TransitionCommentChooses | scripts/fls_audit_issue_lib/render.py:194-211 | a transition is announced with text changes if and only if that fits, without them if only that fits |
| AuditReports.ComparesExactly | scripts/fls_audit_issue_lib/render.py:25-37 | two rendered bodies compare equal exactly when their reports agree on the lines that matter, whatever state and text around |
| AuditReports.LineMatters | scripts/fls_audit_issue_lib/render.py:29-37 | changing one line goes unnoticed exactly when it is volatile before and after |
| AuditReports.VolatileExactly | scripts/fls_audit_issue_lib/render.py:30-36 | the volatile lines are those of five beginnings |
| AuditReports.LineEnds | scripts/fls_audit_issue_lib/render.py:37 | lines end at each of Python's line ends, and a carriage return with a line feed is one |
| AuditReports.StableShows | scripts/fls_audit_issue_lib/reconcile.py:312-317 | a body that rendering would not change shows the full report if it fits and the compact one otherwise |
| AuditReports.RegionIsAppended | scripts/fls_audit_issue_lib/render.py:18-22 | onto a text without a region one is appended, and but for spaces at its end the text is kept |
| AuditReports.LineEndsAreSpaces | scripts/fls_audit_issue_lib/render.py:18-37 | every character that ends a line is one that is stripped before a region is appended |
| FlsParagraphs.ExtractParagraphs | exts/coding_guidelines/fls_diff.py:10-30 | the three loops file every paragraph of every section of every document in order |
| FlsParagraphs.FiledMeaning | exts/coding_guidelines/fls_diff.py:18-28 | the extracted ids are the FLS ids among the paragraphs, each with what the last paragraph of that id says |
| FlsParagraphs.ExtractionsAreAccepted | scripts/fls_audit_issue_lib/state.py:65-80 | the report of any two extractions is accepted |
| AuditItems.DiffParagraphs | exts/coding_guidelines/fls_diff.py:33-72 | the loop computes the diff of the two paragraph maps |
| AuditItems.FileEntries | scripts/fls_audit_issue_lib/state.py:71-88 | filing entry by entry, with the two error conditions |
| AuditItems.CanonicalItems | scripts/fls_audit_issue_lib/state.py:65-107 | the nested loops file all lists in order |
| AuditItems.FileMeaning | scripts/fls_audit_issue_lib/state.py:65-107 | filing succeeds exactly when every entry has an identity of its own, and the map then holds the entries' items and no others |
| AuditDrift.CanonicalAccepts | scripts/fls_audit_issue_lib/state.py:76-80 | the items of a diff are never rejected as duplicates |
| AuditDrift.CanonicalOfDiff | scripts/fls_audit_issue_lib/state.py:65-107 | there is exactly one item for each drifted paragraph, and it is that paragraph's item |
| AuditDrift.PatchUndoesDiff | scripts/fls_audit_issue_lib/state.py:56-107 | applying the items to the locked checksums and sections gives the live ones, and undoing them on the live ones the locked ones |
| AuditDrift.ChangedItemSays | scripts/fls_audit_issue_lib/state.py:86-87 | the item of a changed paragraph says whether its checksum and whether its section changed |
| AuditDrift.StructuralsAreFiled | scripts/fls_audit_issue_lib/state.py:90-105 | header changes and section reorders are filed under their section, whole |
| AuditDrift.HasItemsExactly | exts/coding_guidelines/fls_diff.py:75-76 | a diff has differences exactly when it leads to items |
| AuditDrift.NoItemsWhenEqual | exts/coding_guidelines/fls_diff.py:33-76 | there are no items exactly when ids, checksums and sections agree |
| AuditDrift.DiffItemsMeaning | scripts/fls_audit_issue_lib/state.py:238-245 | new, updated and resolved are disjoint, turn the previous map into the current one, account for its size, and are empty together exactly when nothing changed |
| AuditLog.CommentMarkers | scripts/fls_audit_issue_lib/reconcile.py:118-138 | the bot's markers in order, unless a batch id occurs twice |
| AuditLog.RepeatedIds | scripts/fls_audit_issue_lib/reconcile.py:128-135 | the loop finds repeated ids exactly when there are some |
| AuditLog.GroupBySequence | scripts/fls_audit_issue_lib/reconcile.py:191-206 | grouping succeeds exactly when no two different transitions share a sequence |
| AuditLog.Replay | scripts/fls_audit_issue_lib/reconcile.py:208-237 | the loop accepts exactly when some run of transitions replays onto the state, and returns its end |
| AuditLog.RecoverFromComments | scripts/fls_audit_issue_lib/reconcile.py:186-237 | recovery succeeds exactly when the comments hold a replay of the state, and returns the replayed state |
| AuditLog.ReplayUnique | scripts/fls_audit_issue_lib/reconcile.py:212-231 | there is at most one replay |
| AuditLog.LogReplays | scripts/fls_audit_issue_lib/reconcile.py:186-237 | on a state that lags behind its log the replay is the rest of the log |
| AuditLog.LogUnique | scripts/fls_audit_issue_lib/reconcile.py:146-183 | markers determine the log they hold |
| AuditLog.GroupStrictly | scripts/fls_audit_issue_lib/reconcile.py:146-156 | grouping for the check raises exactly on a repeated sequence |
| AuditLog.VerifyChain | scripts/fls_audit_issue_lib/reconcile.py:158-183 | the check of digests and links accepts exactly a complete linked history |
| AuditLog.VerifyCommentHistory | scripts/fls_audit_issue_lib/reconcile.py:141-183 | the check accepts exactly when the comments are the log of the state |
| AuditLog.CommentOrderDoesNotMatter | scripts/fls_audit_issue_lib/reconcile.py:118-237 | recovery and check give the same answers for every order of the comments |
| GitHub.Client.PatchIssue | scripts/fls_audit_issue_lib/reconcile.py:45 | a patch takes effect on its issue or not at all, whether or not it raises |
| GitHub.Client.CreateIssue | scripts/fls_audit_issue_lib/reconcile.py:47 | a creation appends one issue or nothing, whether or not it raises |
| GitHub.Client.PostComment | scripts/fls_audit_issue_lib/reconcile.py:49 | a comment is appended once or not at all, whether or not the request raises |
| AuditStore.BodyStep | scripts/fls_audit_issue_lib/reconcile.py:312-317 | writing a body for a later point of the log keeps the invariant |
| AuditStore.CommentStep | scripts/fls_audit_issue_lib/reconcile.py:240-251 | posting a comment that extends the history keeps the invariant |
| AuditStore.CreateStep | scripts/fls_audit_issue_lib/reconcile.py:511-517 | opening an issue for a campaign nobody claims keeps the invariant |
| AuditStore.IdentityStep | scripts/fls_audit_issue_lib/reconcile.py:103-115 | title, labels and status do not matter to the invariant |
| AuditStore.TransitionExtendsHistory | scripts/fls_audit_issue_lib/reconcile.py:286-302 | a posted transition is the next entry of the log |
| AuditStore.OversizedIsLogged | scripts/fls_audit_issue_lib/reconcile.py:118-138 | a comment too large to be read behind a history leaves the log as it is, and the comments unreadable |
| AuditStore.EventKeepsHistory | scripts/fls_audit_issue_lib/reconcile.py:363-373 | an announcement leaves the log as it is |
| AuditTarget.TitleNames | scripts/fls_audit_issue_lib/reconcile.py:99-100 | the title starts with the prefix that issues are listed by, and is shared exactly by campaigns with the same first twelve digits |
| AuditTarget.RecoveryIsReplay | scripts/fls_audit_issue_lib/reconcile.py:278-280 | on every issue that satisfies the invariant recovery never raises and returns the end of the log |
| AuditTarget.ReplayedHistory | scripts/fls_audit_issue_lib/reconcile.py:232-237 | the recovered state has sequence m, and is the unchanged state when the body is up to date |
| AuditTarget.NewBatchIsFresh | scripts/fls_audit_issue_lib/reconcile.py:286-288 | the next transition has an id that no comment has |
| AuditTarget.TargetHistory | scripts/fls_audit_issue_lib/reconcile.py:281-302 | what a run writes stands at the end of its log and has the digests of the report |
| CampaignIssue.RefreshIdentity | scripts/fls_audit_issue_lib/reconcile.py:103-115 | title and label are brought up to date, and nothing is patched when they are |
| CampaignIssue.PostCommentOnce | scripts/fls_audit_issue_lib/reconcile.py:240-264 | a comment is posted at most once, success means that its batch id is there, and if reads succeed failure means that it was not posted |
| CampaignIssue.TransitionParses | scripts/fls_audit_issue_lib/reconcile.py:286-298 | the comment of a new transition parses back to the next marker of the log |
| CampaignIssue.TransitionStep | scripts/fls_audit_issue_lib/reconcile.py:286-302 | posting the comment of a new transition keeps the invariant and extends the log by it |
| CampaignIssue.AdvanceLog | scripts/fls_audit_issue_lib/reconcile.py:278-302 | after recovery the log ends in the report, a transition is posted only when the report differs, and a size abort leaves the store untouched |
| CampaignIssue.WriteBody | scripts/fls_audit_issue_lib/reconcile.py:303-317 | the body is patched to the target, unless only volatile lines would change |
| CampaignIssue.ReconcileCampaign | scripts/fls_audit_issue_lib/reconcile.py:267-317 | in every outcome the invariant holds and only this issue changed; success reaches the target and has posted the one comment of a transition or none; on an issue at its target nothing is written; a size abort leaves the issue untouched |
| Campaigns.AuditIssues | scripts/fls_audit_issue_lib/reconcile.py:69-85 | the loop lists what the function lists |
| Campaigns.ListingLists | scripts/fls_audit_issue_lib/reconcile.py:69-85 | on a store that satisfies the invariant listing never raises and lists exactly the audit issues with their states |
| Campaigns.FindsCampaign | scripts/fls_audit_issue_lib/reconcile.py:88-96 | at most one issue claims a campaign; it is found exactly when there is one |
| Campaigns.CreateIssueSafely | scripts/fls_audit_issue_lib/reconcile.py:320-341 | at most one issue is created, success returns it, and if reads succeed failure means that there is none |
| Campaigns.EventStep | scripts/fls_audit_issue_lib/reconcile.py:363-373 | posting an announcement keeps the invariant, whatever its size, and the comments stay readable exactly when it fits |
| Campaigns.Supersede | scripts/fls_audit_issue_lib/reconcile.py:362-374 | on success the issue is closed and shows its announcement once, or cannot be read any more when that does not fit and was not there; on an issue that cannot be read nothing is done |
| Campaigns.CloseOldCampaigns | scripts/fls_audit_issue_lib/reconcile.py:344-376 | every issue of another campaign ends announced and closed, others are left alone, nothing is done when none was open, and comments become unreadable only where an announcement does not fit |
| Reconciler.PassesMeaning | scripts/fls_audit_issue_lib/reconcile.py:390-419 | the checks on the listing hold exactly when the store is as expected |
| Reconciler.VerifyReconciliation | scripts/fls_audit_issue_lib/reconcile.py:422-471 | success means that the store and the comment history are as expected; a reliable client accepts when they are |
| Reconciler.CreateCampaign | scripts/fls_audit_issue_lib/reconcile.py:511-517 | opening the issue of a campaign keeps the invariant and gives sequence 0 with the report as origin |
| Reconciler.UpdateCampaign | scripts/fls_audit_issue_lib/reconcile.py:519-526 | success settles the issue, open exactly when there is drift; a settled issue is not written to |
| Reconciler.Finished | scripts/fls_audit_issue_lib/reconcile.py:528-548 | with its own issue settled and the others closed a run has converged and the final checks pass |
| Reconciler.OthersAreOtherDocuments | scripts/fls_audit_issue_lib/reconcile.py:344-376 | on a converged store no issue is open whose campaign is about other documents |
| Reconciler.SettledShowsReport | scripts/fls_audit_issue_lib/reconcile.py:303-317 | a settled issue shows the full report if that fits and the compact one otherwise, on all lines that matter |
| Reconciler.ConvergedMeaning | scripts/fls_audit_issue_lib/reconcile.py:474-552 | on a converged store everything fits and there is nothing to do |
| Reconciler.CarryOut | scripts/fls_audit_issue_lib/reconcile.py:504-548 | writing and checking: converged on success, untouched when it was converged |
| Reconciler.ReadableExactly | scripts/fls_audit_issue_lib/reconcile.py:344-376 | once all announcements are made, all comments have stayed readable if and only if every announcement fits or was there before |
| Reconciler.Reconcile | scripts/fls_audit_issue_lib/reconcile.py:474-552 | crash safety in every outcome, on success convergence and what `Leaves` says of documents, issue and report, idempotence on a converged store, comments kept readable exactly when every announcement fits or was there, and with a reliable client failure only for a bad report, a damaged issue or a size that does not fit |
| AuditRuns.BlockingRun | scripts/fls_audit_issue_lib/render.py:214-219 | a store and a run that can end well and whose announcement does not fit |
| AuditRuns.StartsSound | scripts/fls_audit_issue_lib/reconcile.py:69-85 | the invariant holds as long as no issue belongs to a campaign |
| AuditRuns.LogGrows | scripts/fls_audit_issue_lib/reconcile.py:186-317 | later comments of a campaign tell the same log and perhaps more |
| AuditRuns.LogAddsUp | scripts/fls_audit_issue_lib/reconcile.py:286-302 | at every point of the log of an issue there are as many items as at the origin plus all reported new minus all reported resolved, and the body carries the items of its point |
| AuditRuns.SettledAddsUp | scripts/fls_audit_issue_lib/render.py:163-189 | a finished run leaves the items of its report, and their number is accounted for by the changes reported in the log |
| AuditRuns.EditStep | scripts/fls_audit_issue_lib/reconcile.py:303-312 | edits outside the managed region and comments without a marker, by any account, keep the invariant |
| AuditRuns.Live | scripts/fls_audit_issue_lib/reconcile.py:474-552 | over every history of runs that may stop anywhere, with edits and comments of others in between, the invariant holds, origins stay, sequences never fall and logs are only extended |
| AuditRuns.AtMostOnce | scripts/fls_audit_issue_lib/reconcile.py:118-138 | no two comments of the bot on an issue have one batch id, and no two issues claim one campaign |
| RustText.TokenLexes | exts/coding_guidelines/rust_examples.py:283-352 | a comment or literal that does not close itself early ends where it was written to end, in any surroundings |
| RustText.BlockCloses | exts/coding_guidelines/rust_examples.py:290-303 | block comments end at the closing of their own depth |
| RustText.RawCloses | exts/coding_guidelines/rust_examples.py:305-325 | raw strings end at the first quote mark with the same number of hashes |
| RustText.WholeWord | exts/coding_guidelines/rust_examples.py:358-369 | the keyword is a whole word: it starts there and all of the word that starts there is `unsafe` |
| RustEdits.LexShift | exts/coding_guidelines/rust_examples.py:279-369 | where a token ends does not depend on the text before it |
| RustEdits.LexLocal | exts/coding_guidelines/rust_examples.py:279-369 | where a token ends does not depend on the text behind the next token's start |
| RustEdits.StaysCode | exts/coding_guidelines/rust_examples.py:340-352 | where a token stands another one with the same delimiters stands as well if and only if it does not complete a character literal |
| RustEdits.ReplaceInside | exts/coding_guidelines/rust_examples.py:260-371 | replacing what a closed comment or literal says does not change whether code mentions `unsafe`, as long as it stands in the code in both texts |
| UnsafeScanner.ScansCode | exts/coding_guidelines/rust_examples.py:279-369 | without an escaped quote mark the scan passes exactly the positions of code |
| UnsafeScanner.ScansCodeExactly | exts/coding_guidelines/rust_examples.py:338-352 | the scan passes exactly the positions of code if and only if no character literal escapes a quote mark |
| UnsafeScanner.ScanAnswers | exts/coding_guidelines/rust_examples.py:354-369 | without one, the answer is whether code mentions `unsafe` |
| UnsafeScanner.SkipBlock | exts/coding_guidelines/rust_examples.py:290-303 | the depth loop stops where the nesting says |
| UnsafeScanner.SkipRaw | exts/coding_guidelines/rust_examples.py:305-325 | the search loop stops behind the first matching closer |
| UnsafeScanner.SkipString | exts/coding_guidelines/rust_examples.py:327-338 | the escape loop stops behind the first quote mark that is not escaped |
| UnsafeScanner.SkipEscapedChar | exts/coding_guidelines/rust_examples.py:346-352 | the loop stops behind the first mark after the backslash, escaped or not |
| UnsafeScanner.ContainsUnsafeKeyword | exts/coding_guidelines/rust_examples.py:260-371 | the scan answers whether the whole word stands at a position it passes, which without an escaped quote mark is whether code mentions it |
| UnsafeScanner.ScanIgnoresInside | exts/coding_guidelines/rust_examples.py:260-371 | without one, what comments and literals in the code say does not change the answer of the scan |
| UnsafeScanner.InsideMayMatter | exts/coding_guidelines/rust_examples.py:340-352 | two strings behind a quote mark of which one hides the keyword and the other does not |
| UnsafeScanner.ScanMisses | exts/coding_guidelines/rust_examples.py:343-351 | a text whose keyword the scan misses |
| UnsafeScanner.ScanInvents | exts/coding_guidelines/rust_examples.py:343-351 | a text in whose string the scan finds the keyword |
| ReviewRecords.BeforeTotal | scripts/reviewer_bot_core/reviewer_review_helpers.py:31-53 | records are strictly ordered by time, precedence and key up to equal keys |
| ReviewRecords.BeforeTransitive | scripts/reviewer_bot_core/reviewer_review_helpers.py:31-53 | that order is transitive |
| ReviewRecords.WhatComesLater | scripts/reviewer_bot_core/reviewer_review_helpers.py:31-53 | a later time wins, among equal times the higher precedence, then the greater key, and a time that cannot be read is the earliest |
| Strings.LexMeaning | scripts/reviewer_bot_core/reviewer_review_helpers.py:31-53 | texts compare by the first character in which they differ, and a beginning comes before the whole |
| ReviewChannels.ReviewData.AcceptChannelEvent | scripts/reviewer_bot_core/review_state_machine.py:117-152 | the method changes the cycle as `Accept` says, and nothing else of the entry |
| ReviewChannels.ReviewData.ClearHandoff | scripts/reviewer_bot_core/review_state_machine.py:100-109 | the handoff is cleared exactly by a readable and strictly newer time |
| ReviewChannels.WhatClearsHandoff | scripts/reviewer_bot_core/review_state_machine.py:100-152 | a stored command is outdated by comments and revisions of the contributor alone, and exactly when both times can be read and theirs is strictly later |
| ReviewChannels.ReviewData.RecordActivity | scripts/reviewer_bot_core/review_state_machine.py:64-73 | the activity moves exactly to a readable later time, and then ends the transition |
| ReviewChannels.ReviewData.SetCurrentReviewer | scripts/reviewer_bot_core/review_state_machine.py:189-215 | a new reviewer starts a cycle with empty channels, no handoff and no completion |
| ReviewChannels.AfterMeaning | scripts/reviewer_bot_core/review_state_machine.py:117-152 | after any events each channel holds the greatest of its record and the news, and the handoff is cleared exactly when some contributor event is strictly newer |
| ReviewChannels.OrderDoesNotMatter | scripts/reviewer_bot_core/review_state_machine.py:80-152 | order and redelivery of events change neither records nor handoff nor the set of keys seen |
| ReviewChannels.DismissalsKeepFirst | scripts/reviewer_bot_core/review_state_machine.py:130-138 | of dismissals alone a channel keeps the first, and none touches the handoff |
| LiveReviews.CollectValidReviews | scripts/reviewer_bot_core/reviewer_review_helpers.py:68-102 | the loop keeps exactly the valid reviews of the tracked reviewer |
| LiveReviews.Counts | scripts/reviewer_bot_core/reviewer_review_helpers.py:86-101 | check by check, a review counts exactly if it is by the tracked reviewer, in one of three states, in time and on a commit |
| LiveReviews.CollectVisible | scripts/reviewer_bot_core/live_review_support.py:293-341 | the loop classifies the reviews and keeps those visible on the current head |
| LiveReviews.Freshness | scripts/reviewer_bot_core/live_review_support.py:186-242 | the checks in their order give the scope of the review |
| LiveReviews.LatestReview | scripts/reviewer_bot_core/reviewer_review_helpers.py:105-133 | the maximum by time and id is a review that no other is later than |
| LiveReviews.Assigned | scripts/reviewer_bot_core/approval_policy.py:368-377 | the maximum by text of the time and id among the tracked reviewer's classifications, if there is one |
| LiveReviews.AskPermissions | scripts/reviewer_bot_core/approval_policy.py:404-408 | one permission is asked for each account that approved |
| LiveReviews.DecideWriteApproval | scripts/reviewer_bot_core/approval_policy.py:157-277 | the searching loop decides as `WriteDecision` says |
| LiveReviews.ComputeApproval | scripts/reviewer_bot_core/approval_policy.py:327-452 | the loops together give the approval of the live reviews |
| ReviewAuthority.WriteApprovalIsSound | scripts/reviewer_bot_core/approval_policy.py:157-277 | a write approval means that the greatest review of the tracked reviewer approves and somebody who may push approved |
| ReviewAuthority.CompletionSame | scripts/reviewer_bot_core/approval_policy.py:363-386 | which review completes the round does not depend on the order of the list |
| ReviewAuthority.DecisionMeaning | scripts/reviewer_bot_core/approval_policy.py:206-277 | what an approved round amounts to in terms of the permissions of those who approved |
| ReviewAuthority.OrderMattersExactly | scripts/reviewer_bot_core/approval_policy.py:211-260 | the order matters if and only if one approval may write and the permission of another cannot be read |
| ReviewAuthority.ContestedExample | scripts/reviewer_bot_core/approval_policy.py:211-260 | two approvals whose decision depends on which is listed first |
| ReviewAuthority.RoundExactly | scripts/reviewer_bot_core/approval_policy.py:363-403 | a round is complete exactly when the greatest review of the tracked reviewer has a time, approved exactly when that review approves, and otherwise awaits the contributor |
| ReviewOutcomes.IssueOutcome | scripts/reviewer_bot_core/reviewer_response_policy.py:618-737 | the answer about an issue with reason and anchor in every situation; a completed issue is done unless a command stands |
| ReviewOutcomes.CommandCounts | scripts/reviewer_bot_core/reviewer_response_policy.py:496-537 | exactly which stored feedback commands speak for the reviewer |
| ReviewOutcomes.ContributorSaid | scripts/reviewer_bot_core/reviewer_response_policy.py:540-770 | the contributor's last word is a revision of this head that was not reviewed if strictly later, or else the comment |
| ReviewOutcomes.CycleStart | scripts/reviewer_bot_core/reviewer_response_policy.py:235-248 | which of three times starts the cycle, and which bounds it |
| ReviewOutcomes.ReviewRecordIs | scripts/reviewer_bot_core/reviewer_review_helpers.py:136-150 | which live reviews make a record, and what it says |
| ReviewOutcomes.NothingSaid | scripts/reviewer_bot_core/reviewer_response_policy.py:776-788 | without review and command the reviewer is waited for |
| ReviewOutcomes.ContributorBeats | scripts/reviewer_bot_core/reviewer_response_policy.py:806-826 | a contributor who beats review and command passes the turn to the reviewer, with the reason for a revision or a comment |
| ReviewOutcomes.CommandHandsOver | scripts/reviewer_bot_core/reviewer_response_policy.py:827-838 | a command that stands and is later than the review passes the turn to the contributor |
| ReviewOutcomes.StaleReview | scripts/reviewer_bot_core/reviewer_response_policy.py:839-885 | the answer when the answered review is not on this head |
| ReviewOutcomes.StaleHeadAwaitsReviewer | scripts/reviewer_bot_core/reviewer_response_policy.py:859-885 | a preferred review on another head, without a command, leaves the reviewer waited for |
| ReviewOutcomes.ReviewedOutcome | scripts/reviewer_bot_core/reviewer_response_policy.py:887-968 | on a reviewed head: awaiting the contributor without a submitted approval of the tracked reviewer, done, awaiting write approval or failed by the permissions of those who approved |
| ReviewOutcomes.UnreadPullRequest | scripts/reviewer_bot_core/reviewer_response_policy.py:971-1030 | a pull request, head or reviews that could not be read are not judged |
| ReviewerResponse.IssueTurn | scripts/reviewer_bot_core/reviewer_response_policy.py:618-737 | an issue waits for the reviewer while nothing was said or the contributor spoke last, does not once the reviewer spoke last, and is done only when it was completed |
| ReviewerResponse.NewCycleAwaitsReviewer | scripts/reviewer_bot_core/review_state_machine.py:189-215 | after a new reviewer was set the issue waits for that reviewer, from the start of the cycle |
| ReviewerResponse.CommentPassesTurn | scripts/reviewer_bot_core/review_state_machine.py:139-152 | accepting a comment of the contributor that is newer than all that was said passes the turn to the reviewer |
| ReviewerResponse.AnswerPassesTurn | scripts/reviewer_bot_core/review_state_machine.py:139-152 | accepting a newer comment of the tracked reviewer takes the turn from the reviewer |
| ReviewerResponse.PullRequestTurn | scripts/reviewer_bot_core/reviewer_response_policy.py:749-968 | a pull request waits for the reviewer while no review or command stands or the contributor is newer; every other turn needs a review or command that is not older |
| ReviewerResponse.DerivedDone | scripts/reviewer_bot_core/reviewer_response_policy.py:739-968 | what the cascade has checked when it says done |
| ReviewerResponse.DoneIsSound | scripts/reviewer_bot_core/reviewer_response_policy.py:971-1107 | a pull request that is done has the tracked reviewer's greatest review approving, an approval by somebody who may push, a preferred review on this very head, and no contributor comment that beats it |
| ReviewerResponse.DoneIsComplete | scripts/reviewer_bot_core/reviewer_response_policy.py:971-1107 | an unanswered review on this head, an approved round and an approval by somebody who may push make a pull request done when no permission is unknown and neither a command nor the stored records object |
| ReviewerResponse.AwaitsWriteApproval | scripts/reviewer_bot_core/reviewer_response_policy.py:942-955 | a pull request waits for write approval only when the round is approved and nobody who approved it may push |
| ReviewerResponse.DoneByApprovalExactly | scripts/reviewer_bot_core/reviewer_response_policy.py:1056-1080 | the review that answers the contributor is the approval that completed the round if and only if no later review of the reviewer is on this head |
| ReviewerResponse.DoneDespiteLaterRequest | scripts/reviewer_bot_core/reviewer_response_policy.py:1056-1080 | a pull request that is done although the latest review requests changes |
| ReviewerResponse.DoneReviewApproves | scripts/reviewer_bot_core/reviewer_response_policy.py:1056-1080 | a special case: when all times are written alike the two are one review |
| ReviewerResponse.PreferredMeaning | scripts/reviewer_bot_core/reviewer_review_helpers.py:105-133 | the preferred review is valid, on the current head if any is, and later than the others |
| ReviewerResponse.ListOrderDoesNotMatter | scripts/reviewer_bot_core/reviewer_response_policy.py:971-1107 | unless the decision is contested the answer does not depend on the order of the reviews |
| ReviewerResponse.DeliveryOrderDoesNotMatter | scripts/reviewer_bot_core/reviewer_response_policy.py:587-968 | the answers about issues and pull requests do not depend on order and redelivery of events |
| Assignment.Item.RemoveOthers | scripts/reviewer_bot_lib/assignment_flow.py:713-745 | success leaves exactly the live assignees that are the reviewer or were not listed |
| Assignment.Item.ConfirmAssignment | scripts/reviewer_bot_lib/assignment_flow.py:631-854 | with a fresh or correct list a confirmed assignment resolves and with a reliable item everybody but the author is confirmed; a final mismatch clears the tracked reviewer of an issue and never of a pull request, and any other failure leaves it; and exactly the handed-in lists that mislead confirm a reviewer who does not resolve |
| Assignment.Item.ConfirmRelease | scripts/reviewer_bot_lib/assignment_flow.py:857-960 | a confirmed release leaves both sides empty; a final mismatch clears the tracked reviewer exactly when somebody else or several are left, and any other failure leaves it |
| Assignment.Item.Live | scripts/reviewer_bot_lib/assignment_flow.py:631-960 | over any sequence of calls the author is never made the tracked reviewer |
| Assignment.TrackingAgreesExactly | scripts/reviewer_bot_lib/assignment_flow.py:288-357 | whatever was listed before and after, tracking implies resolving and resolving implies tracking except in exactly the named cases |
| Assignment.ResolvesWhenRead | scripts/reviewer_bot_lib/assignment_flow.py:185-252 | without a read nothing is known, without a tracked reviewer nobody resolves, and the case of logins does not matter |
| Assignment.SecondAssigneeDisagrees | scripts/reviewer_bot_lib/assignment_flow.py:308-312 | one of two assignees of an issue is tracked and does not resolve |
| Assignment.RefusedRequestDisagrees | scripts/reviewer_bot_lib/assignment_flow.py:323-328 | a reviewer refused with status 422 is tracked beside another reviewer and does not resolve |
| Assignment.JoiningReviewerIsMissed | scripts/reviewer_bot_lib/assignment_flow.py:334-338 | a reviewer who joined another one resolves and is not tracked |
| Assignment.OnlyReviewerCommands | scripts/reviewer_bot_lib/assignment_flow.py:571-581 | once the reviewer is confirmed nobody else may give reviewer commands |
| ReviewEntries.ChannelRoundTrip | scripts/reviewer_bot_core/state_adapters.py:160-216 | a channel reads back exactly when its payload is stored as it is |
| ReviewEntries.HandoffRoundTrip | scripts/reviewer_bot_core/state_adapters.py:219-255 | a handoff reads back exactly when it is valid |
| ReviewEntries.ReadsHandoffExactly | scripts/reviewer_bot_core/state_adapters.py:219-255 | a stored value is read as a handoff exactly when it is what storing that valid handoff gives |
| ReviewEntries.PersistedRoundTrip | scripts/reviewer_bot_core/state_adapters.py:258-379 | reading undoes storing exactly on entries with a valid handoff |
| ReviewEntries.ReadIsStorable | scripts/reviewer_bot_core/state_adapters.py:258-345 | what was read has a valid handoff and can be stored |
| ReviewEntries.ReadsLeniently | scripts/reviewer_bot_core/state_adapters.py:160-216 | what each odd value of a persisted channel is read as, and that only a precedence that is no number raises |
| ReviewEntries.ReadsFields | scripts/reviewer_bot_core/state_adapters.py:258-345 | how each field of a stored entry is read, whatever its type |
| ReviewEntries.ListIsSkipped | scripts/reviewer_bot_core/review_state_machine.py:35-56 | an old entry that is a list is normalised and then read with that list as its skipped reviewers |
| ReviewEntries.EventsSettle | scripts/reviewer_bot_core/state_adapters.py:73-96 | migrating reconciled events twice is migrating them once |
| ReviewEntries.SidecarsSettle | scripts/reviewer_bot_core/state_adapters.py:99-157 | bringing sidecars in order twice is doing it once |
| ReviewEntries.NormalIsFixed | scripts/reviewer_bot_core/review_state_machine.py:35-56 | normalising an entry, in list form, sparse or with legacy fields, is a projection |
| ReviewEntries.NormalKeeps | scripts/reviewer_bot_core/state_adapters.py:382-386 | normalising changes nothing that is read of an entry and no unknown field |
| ReviewEntries.NormalMoves | scripts/reviewer_bot_core/state_adapters.py:47-157 | what stood in sidecars or legacy fields stands in the sidecars of the normal form: commands, watermarks, gaps, reconciled events with name and time, and markers with all eight fields; the legacy fields are gone |
| ReviewEntries.MarkersAreKept | scripts/reviewer_bot_core/state_adapters.py:47-56 | under every canonical name stands a copy of the legacy marker if that belongs there, or else of the marker that stood there |
| ReviewEntries.EventsAreKept | scripts/reviewer_bot_core/state_adapters.py:73-96 | every reconciled event keeps its name and its time |
| ReviewEntries.StepwiseMeaning | scripts/reviewer_bot_core/state_adapters.py:99-157 | setting the five sidecars one after the other gives each what the entry said at first: no step gets into the way of another |
| ReviewEntries.CanonicalMarkers | scripts/reviewer_bot_core/state_adapters.py:132-148 | the loop over the canonical markers, and the legacy marker put where it belongs |
| ReviewEntries.StoredEntry.EnsureSidecars | scripts/reviewer_bot_core/state_adapters.py:99-157 | setting the sidecars and the markers in place, and removing the legacy fields in a loop, gives the form that `SidecarsSettle` shows to be a fixed point |
| ReviewEntries.ReviewState.EnsureReviewEntry | scripts/reviewer_bot_core/review_state_machine.py:35-56 | the entry under its number becomes its normal form, and no other entry changes |
| CitationKeys.SuggestsKeys | exts/coding_guidelines/bibliography_validator.py:59-103 | every suggestion is a key, without two hyphens in a row |
| CitationKeys.SuggestFixes | exts/coding_guidelines/bibliography_validator.py:59-103 | a key is suggested for itself exactly when it has no two hyphens in a row |
| CitationKeys.SuggestTwice | exts/coding_guidelines/bibliography_validator.py:59-103 | repairing a suggestion changes nothing |
| CitationKeys.RepairKeepsLetters | exts/coding_guidelines/bibliography_validator.py:75-103 | the repair consists of the letters and digits of the key in order, with `REF` before them if they do not start with a letter; it is the default key if there are none or a single letter |
| CitationKeys.WordsStayApart | exts/coding_guidelines/bibliography_validator.py:75-85 | words that spaces or underscores keep apart are kept apart by one hyphen |
| CitationKeys.ValidatesKeysExactly | exts/coding_guidelines/citation_roles.py:67-95 | the suggestion is a key if and only if the given text is not a key with a line feed behind it |
| CitationKeys.LineFeedPasses | exts/coding_guidelines/citation_roles.py:43 | a key with a line feed behind it passes for valid |
| CitationKeys.RepairsAgree | exts/coding_guidelines/citation_roles.py:85-95 | the two repairs agree on every key that needs one and has two letters or digits; on others the second gives its own default |

## Left out

- Reconciler.Reconcile: runs are those whose texts and reports hold no marker; concurrent runs, which the code only detects, are not modelled.
- ReviewAuthority.OrderMattersExactly: which of several approvers is named in the output is not part of the compared decision.
- ReviewerResponse.DoneIsSound: the approval authors are an arbitrary list, as the filter that computes them always yields none; scope keys and the payloads of the output are left out.
- Assignment.Item.ConfirmAssignment: repair markers, the comments for people and the queue are left out.
- ReviewChannels.OrderDoesNotMatter: events that only mark a dismissal and records that are overwritten depend on the order by design.
- UnsafeScanner.ContainsUnsafeKeyword: `str.isalnum` is an arbitrary predicate on characters.
- HTTP, retries, pagination, sleeping between confirmations, and the parsing of API payloads into issues and comments: the store and its failing requests replace them.
- SHA-256 itself, and any layout of JSON but the compact one that the bot prints; floats and lone surrogates in JSON.
- The wording of reports, comments and guidance: the rendered texts are arbitrary.
- Letters outside ASCII in logins and review states, where Python would change their case.
- A review whose user is null, on which the code raises.
- Values of `int(...)` for floats in persisted entries.
- Label colours, badges, CSS and other presentation; Sphinx, Pandoc, git, cargo and Miri runs; the extraction and migration scripts.
