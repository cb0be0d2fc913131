# progress-reporter, modelled in Dafny

progress-reporter collects one user's pull requests from the code-hosting
platform and posts reports to a chat channel. Its command line has three
commands. `open-prs` posts the open pull requests that are waiting for
reviews. `merged-prs` posts the pull requests merged in the last few weeks.
`all` runs those two checks in sequence. The library also exports
`generateAndSendExecutiveSummary`, which no command calls. It posts an
executive summary that a language model writes, with a locally built
fallback when the model call or its post fails.

This project models the deterministic part of that pipeline:

- `Aggregation`: the two passes over the list-call outcomes, `getOpenPRs` and
  `getMergedPRs`. They filter by author, derive reviewers, isolate failures per
  repository, filter by time window and sort by merge time.
- `MergeOrder`: the final sort by merge time, newest first. A stable
  insertion sort is its reference definition.
- `SlackMessages`: the two list formatters, `createOpenPRsMessage` and
  `createMergedPRsMessage`, as loop methods proved against message functions.
- `ExecutiveSummary`: the prompt builder, the outcome of the model call and
  `createExecutiveSummaryMessage`.
- `Pipeline`: `sendSlackMessage`, `checkOpenPRs`, `checkMergedPRs`,
  `createFallbackExecutiveSummaryMessage` and the outcome logic of
  `generateAndSendExecutiveSummary`.
- `PullRequests`, `Text`, `Outcomes`: the records, string helpers and the
  `Option`/`Result` wrappers.

Remote data are inputs. The repository list is `Err` when
`getUserRepositories` throws. Each repository carries the outcome of its list
call. Each listed open pull request carries the outcome of its review fetch.
Merge times are `Timestamp(instant, iso)`. The instant is what the filter and
the sort compare. The ISO text is what the prompt shows. The cutoff instant
is a parameter. So is the date formatter of the merged list, a function from
instant to text. The model call is a function from prompt to `AiReply`. The
chat post is a function from message to `SendAck`.

The fallback summary lists the open pull requests with their reviewer
lines. It shows merged pull requests only as a count.

## Model

| member | source | states |
|---|---|---|
| PullRequests.Description | src/github-slack-integration.js:75 | a null or empty body becomes "No description provided"; any other body is kept |
| PullRequests.RequestedLogins | src/github-slack-integration.js:80-81 | null requested reviewers give the empty list; otherwise their logins |
| PullRequests.QualifyingReviewers | src/github-slack-integration.js:65-71 | the reviewer logins are drawn from the reviews: never more of them than reviews |
| PullRequests.QualifyingReviewersMembers | src/github-slack-integration.js:65-71 | a login is a reviewer exactly when some review by it is APPROVED or CHANGES_REQUESTED |
| PullRequests.QualifyingReviewersAppend | src/github-slack-integration.js:65-71 | the reviewer list is in review order with repetitions kept: it distributes over concatenation of reviews |
| PullRequests.ToOpenPR | src/github-slack-integration.js:73-83 | the open record names its repository and keeps the pull request's number and link; its description is never empty; it has at most one reviewer per review |
| PullRequests.ToMergedPR | src/github-slack-integration.js:131-138 | the merged record names its repository, keeps the number, the link and the merge time; its description is never empty |
| Aggregation.AuthoredBy | src/github-slack-integration.js:54 | every kept pull request was opened by the user; never more than were listed |
| Aggregation.AuthoredByMembers | src/github-slack-integration.js:54 | the filter keeps exactly the listed pull requests opened by the user |
| Aggregation.AuthoredByAppend | src/github-slack-integration.js:54 | the author filter keeps list order and repetitions: it distributes over concatenation of listings |
| Aggregation.Reviewed | src/github-slack-integration.js:56-84 | the review loop yields at most one record per pull request, each naming the repository |
| Aggregation.RepoOpenPRs | src/github-slack-integration.js:45-89 | a repository whose list call throws contributes nothing; otherwise at most one record per listed pull request, each naming that repository |
| Aggregation.OpenPRs | src/github-slack-integration.js:38-98 | the open pass succeeds exactly when the repository list was fetched; a failure of that list is rethrown unchanged |
| Aggregation.ReviewFailureKeepsEarlier | src/github-slack-integration.js:56-89 | a review fetch that throws on the user's k-th pull request of a repository keeps exactly the records of the k before it |
| Aggregation.ReviewsAllFetched | src/github-slack-integration.js:56-84 | when every review fetch succeeds, each of the user's pull requests yields its record, in list order |
| Aggregation.CollectOpenAppend | src/github-slack-integration.js:44-90 | output order is repository order: the result for a + b is the result for a, then for b |
| Aggregation.FailedRepoSkipped | src/github-slack-integration.js:85-89 | a repository whose list call throws contributes nothing, and later repositories are still processed |
| Aggregation.OpenPRsOnlyOwn | src/github-slack-integration.js:54-84 | every reported open pull request was built from a listed pull request of the user whose reviews were fetched |
| Aggregation.GetOpenPRs | src/github-slack-integration.js:38-98 | the loop returns the per-repository contributions in order; a failure of the repository list is rethrown unchanged |
| Aggregation.MergedInWindow | src/github-slack-integration.js:123-128 | every kept pull request is the user's, has a merge time, and was merged strictly after the cutoff |
| Aggregation.MergedInWindowMembers | src/github-slack-integration.js:123-128 | the filter keeps exactly the listed pull requests in that window |
| Aggregation.MergedInWindowAppend | src/github-slack-integration.js:123-128 | the window filter keeps list order and repetitions: it distributes over concatenation of listings |
| Aggregation.RepoMergedPRs | src/github-slack-integration.js:113-145 | a repository whose list call throws contributes nothing; otherwise at most one record per listed pull request, each naming that repository and merged after the cutoff |
| Aggregation.MergedPRs | src/github-slack-integration.js:104-155 | the merged pass succeeds exactly when the repository list was fetched; a failure of that list is rethrown unchanged |
| Aggregation.CollectMergedAppend | src/github-slack-integration.js:112-146 | collection follows repository order: the result for a + b is the result for a, then for b |
| Aggregation.FailedClosedRepoSkipped | src/github-slack-integration.js:140-145 | a repository whose list call throws contributes nothing to the merged pass, and later ones are still processed |
| Aggregation.MergedPRsProperties | src/github-slack-integration.js:123-150 | the result is newest first, a permutation of the collected records, keeps records merged at the same instant in collection order, and holds only the user's pull requests merged after the cutoff |
| Aggregation.GetMergedPRs | src/github-slack-integration.js:104-155 | the loop and the final sort return the sorted collected records; a failure of the repository list is rethrown unchanged |
| MergeOrder.SortNewestFirst | src/github-slack-integration.js:148-150 | the sort keeps the number of records |
| MergeOrder.SortSortedPermutation | src/github-slack-integration.js:148-150 | the sort orders by merge time, newest first, and is a permutation of its input |
| MergeOrder.SortStable | src/github-slack-integration.js:148-150 | for every instant, the records merged then keep their input order |
| Text.Truncate | src/github-slack-integration.js:212-215 | a text of at most n characters is kept; a longer one becomes its first n characters and "...", n + 3 in all |
| Text.JoinAppend | src/github-slack-integration.js:195 | joining two non-empty lists puts one separator between the two joined parts |
| SlackMessages.NamesLine | src/github-slack-integration.js:193-202 | a reviewer line is present exactly when its list is not empty |
| SlackMessages.SeparatedLayout | src/github-slack-integration.js:219-223 | n items give 2n - 1 blocks, the i-th item at position 2i, a divider at every odd position, and the last item last |
| SlackMessages.OpenPRsMessage | src/github-slack-integration.js:161-230 | the message has at least one block, and it opens with a header exactly when there are open pull requests |
| SlackMessages.OpenPRsMessageEmpty | src/github-slack-integration.js:162-175 | no open pull requests exactly when the only block is the celebratory section; the text is then that sentence |
| SlackMessages.OpenPRsMessageLayout | src/github-slack-integration.js:177-229 | n > 0 gives header with the count, divider, then the n items separated by dividers: 2n + 1 blocks, no divider after the last; the text states the count |
| SlackMessages.OpenItemDescription | src/github-slack-integration.js:204-217 | an item shows a description of at most 200 characters whole, a longer one cut to 200 with "..." |
| SlackMessages.CreateOpenPRsMessage | src/github-slack-integration.js:161-230 | the push loop builds exactly the open-PR message |
| SlackMessages.MergedPRsMessage | src/github-slack-integration.js:236-301 | the message has at least one block, and it opens with a header exactly when there are merged pull requests |
| SlackMessages.MergedPRsMessageEmpty | src/github-slack-integration.js:237-251 | no merged pull requests exactly when there is one block; its section and the text name the period |
| SlackMessages.MergedPRsMessageLayout | src/github-slack-integration.js:253-300 | n > 0 gives header with the period, count section, divider, then the n items separated by dividers: 2n + 2 blocks, the last item last |
| SlackMessages.MergedItemDescription | src/github-slack-integration.js:276-288 | a merged item shows its description truncated to 200 characters with "..." exactly when cut |
| SlackMessages.CreateMergedPRsMessage | src/github-slack-integration.js:236-301 | the push loop builds exactly the merged-PR message |
| ExecutiveSummary.OpenPromptEntry | src/claude-integration.js:47-56 | an open entry starts with the title, the repository and the number |
| ExecutiveSummary.MergedPromptEntry | src/claude-integration.js:63-66 | a merged entry starts with the title, the repository and the number |
| ExecutiveSummary.Prompt | src/claude-integration.js:34-76 | the prompt starts with its fixed opening sentence |
| ExecutiveSummary.PromptDetails | src/claude-integration.js:44-76 | the details part ends with the instructions |
| ExecutiveSummary.PromptNames | src/claude-integration.js:48-53 | a reviewer part of a prompt entry is empty exactly when its list is empty |
| ExecutiveSummary.OpenPromptEntriesInOrder | src/claude-integration.js:45-58 | open entries follow input order and are joined by single newlines |
| ExecutiveSummary.MergedPromptEntriesInOrder | src/claude-integration.js:61-68 | merged entries follow input order and are joined by single newlines |
| ExecutiveSummary.PromptSingleEntry | src/claude-integration.js:45-68 | one pull request gives exactly its own entry |
| ExecutiveSummary.PromptDescription | src/claude-integration.js:47-66 | prompt entries show descriptions cut to 150 characters, with "..." exactly when cut |
| ExecutiveSummary.PromptDeterminesCounts | src/claude-integration.js:39-42 | the prompt determines the open count, the merged count and the period it embeds |
| ExecutiveSummary.SummaryOutcome | src/claude-integration.js:89-93 | success exactly when the reply has a first text block, which is returned verbatim; every failure is rethrown with "Failed to generate executive summary: " before its message |
| ExecutiveSummary.GenerateExecutiveSummary | src/claude-integration.js:11-94 | the model is asked with the prompt of the two lists; success exactly when its reply has a first text block, which is returned; a failed call is rethrown with the prefix |
| ExecutiveSummary.ExecutiveSummaryMessage | src/claude-integration.js:99-132 | the last block is the summary verbatim |
| ExecutiveSummary.ExecutiveSummaryLayout | src/claude-integration.js:100-126 | exactly four blocks: the header, the status section with the period and both counts, a divider, and the summary verbatim |
| ExecutiveSummary.SummaryLineInjective | src/claude-integration.js:129 | the text line determines both counts and the period |
| ExecutiveSummary.ExecutiveSummaryDependsOnCounts | src/claude-integration.js:99-131 | two summary messages are equal exactly when their summaries, open counts, merged counts and periods are |
| Pipeline.IndentedNames | src/github-slack-integration.js:360-370 | a fallback reviewer line is present exactly when its list is not empty |
| Pipeline.FallbackEntryLines | src/github-slack-integration.js:367-371 | a bullet with at most one reviewer list is the link line, the line of that list if any, and a blank line |
| Pipeline.FallbackEntryBothLines | src/github-slack-integration.js:367-371 | with both lists present, the reviewers' line comes before the requested reviewers' line, then the blank line |
| Pipeline.FallbackBody | src/github-slack-integration.js:352-373 | no open pull requests give the celebratory sentence; otherwise the body starts with the introduction |
| Pipeline.FallbackBodyEmpty | src/github-slack-integration.js:354-373 | the fallback body is the celebratory sentence exactly when there are no open pull requests |
| Pipeline.FallbackBodyAppend | src/github-slack-integration.js:359-373 | the body has one bullet per open pull request, in order |
| Pipeline.AppendBullets | src/github-slack-integration.js:359-373 | the append loop adds exactly the bullets of the open pull requests, in order |
| Pipeline.CreateFallbackExecutiveSummaryMessage | src/github-slack-integration.js:350-407 | the fallback writes its own header, status and text line; the message equals the executive-summary message with the local body in place of the model's text |
| Pipeline.SendSlackMessage | src/github-slack-integration.js:307-324 | success exactly when the post is accepted; a rejection becomes "Slack API error: " and the error code or "undefined"; a raised error is rethrown |
| Pipeline.CheckOpenPRs | src/github-slack-integration.js:330-334 | a fetch failure propagates with nothing posted; otherwise the open-PR message is posted once and the post's outcome returned |
| Pipeline.CheckMergedPRs | src/github-slack-integration.js:340-344 | the same for the merged-PR message |
| Pipeline.GenerateAndSendExecutiveSummary | src/github-slack-integration.js:414-458 | a fetch failure propagates with nothing posted; a model failure or a failed post of its message leads to exactly one post of the fallback, whose outcome is returned |

## Left out

- Network clients for the platform, the chat service and the language model: their results are inputs (`Result` outcomes, `AiReply`, `SendAck`).
- `getUserRepositories`: its call is not modelled; its outcome is the repository-list input, and a failure is rethrown unchanged.
- The wall clock and `subtract(weeksBack, 'weeks')`: the cutoff instant is a parameter.
- Date formatting for the merged list (`MMM DD, YYYY`, locale and time zone): a parameter function from instant to text.
- Console logging: no behavioural content.
- setup.js, index.js and test.js: the setup wizard, the command-line wiring with its weeks-back check, and the manual smoke test.
- UTF-16 code units: `substring` counts characters as abstract units, so an emoji split in half is not modelled.
- A null `user` on a pull request or review, and the engine-dependent error it would raise: authors and review logins are plain strings.
- Content blocks of the model's reply other than text blocks: a reply is the list of its text blocks.
- The chat service's answer is a function of the message, so two posts of equal messages get equal answers.
- MergeOrder.SortNewestFirst: the engine's sort algorithm is not modelled; it is specified by a stable insertion sort, which yields the same result as any stable sort under this comparator.
- SlackMessages.CreateOpenPRsMessage: the divider test compares the item's first index with the last position; it is modelled as its position, because every item is a distinct object.
- SlackMessages.CreateMergedPRsMessage: the same divider test, modelled the same way.
- The default `weeksBack = 1` of `checkMergedPRs` and `generateAndSendExecutiveSummary`: the period is always an explicit parameter.
