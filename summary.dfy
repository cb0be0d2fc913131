/** The executive summary of src/claude-integration.js: the prompt sent to the
    language model, the outcome of the call, and the four-block message that
    carries the summary. */
module ExecutiveSummary {
  import opened Outcomes
  import opened Text
  import opened PullRequests
  import opened SlackMessages

  const PromptDescriptionLimit: nat := 150

  const PromptOpening: string :=
    "You are an AI assistant helping to create executive summaries of GitHub Pull Request status updates.\n\n"
    + "Please analyze the following GitHub data and create a concise, professional executive summary that would be suitable for a business context.\n\n"
    + "**Data to analyze:**\n- Open PRs waiting for review: "

  const PromptInstructions: string :=
    "\n\n**Instructions:**\n1. Create a casual executive summary (1 paragraph)\n"
    + "2. List the data you got in bullet points. \n3. Use bullet points for easy scannability\n"
    + "4. Leave links to the PRs for easy access (don't pollute)\n\n"
    + "**Format the response as a clean executive summary suitable for Slack.**"

  const MergedDetailsHeading: string := "\n\n**Merged PRs Details:**\n"

  /** The text between the open count and the merged details. */
  function EntryTitle(title: string, repo: string, number: nat): string {
    "- " + title + " (" + repo + " #" + NatToString(number) + ")"
  }

  /** An optional reviewer line of a prompt entry: empty when nobody is listed. */
  function PromptNames(heading: string, names: seq<string>): (s: string)
    requires heading != []
    ensures s == [] <==> names == []
  {
    if |names| > 0 then heading + Join(names, ", ") else ""
  }

  /** The entry of one open pull request; the two reviewer lines are always
      present, and blank (two spaces) when their list is empty. */
  function OpenPromptEntry(pr: OpenPR): (e: string)
    ensures EntryTitle(pr.title, pr.repo, pr.number) <= e
  {
    EntryTitle(pr.title, pr.repo, pr.number)
    + "\n  " + PromptNames("Reviewers: ", pr.reviewers)
    + "\n  " + PromptNames("Requested: ", pr.requestedReviewers)
    + "\n  Description: " + Truncate(pr.description, PromptDescriptionLimit)
  }

  /** The entry of one merged pull request, with the merge time as the platform sent it. */
  function MergedPromptEntry(pr: MergedPR): (e: string)
    ensures EntryTitle(pr.title, pr.repo, pr.number) <= e
  {
    EntryTitle(pr.title, pr.repo, pr.number) + " - Merged: " + pr.mergedAt.iso
    + "\n  Description: " + Truncate(pr.description, PromptDescriptionLimit)
  }

  function OpenEntries(prs: seq<OpenPR>): (entries: seq<string>)
    ensures |entries| == |prs|
  {
    seq(|prs|, i requires 0 <= i < |prs| => OpenPromptEntry(prs[i]))
  }

  function MergedEntries(prs: seq<MergedPR>): (entries: seq<string>)
    ensures |entries| == |prs|
  {
    seq(|prs|, i requires 0 <= i < |prs| => MergedPromptEntry(prs[i]))
  }

  /** The prompt: the counts and the period, then the open and the merged
      entries each joined by newlines, then the instructions. */
  function Prompt(openPRs: seq<OpenPR>, mergedPRs: seq<MergedPR>, weeksBack: int): (p: string)
    ensures PromptOpening <= p
  {
    PromptOpening + (NatToString(|openPRs|) + ("\n- Merged PRs in the last " + (IntToString(weeksBack)
    + (" weeks: " + (NatToString(|mergedPRs|) + PromptDetails(openPRs, mergedPRs))))))
  }

  /** The details sections and the instructions. */
  function PromptDetails(openPRs: seq<OpenPR>, mergedPRs: seq<MergedPR>): (d: string)
    ensures |d| >= |PromptInstructions| && d[|d| - |PromptInstructions|..] == PromptInstructions
  {
    "\n\n**Open PRs Details:**\n" + Join(OpenEntries(openPRs), "\n")
    + MergedDetailsHeading + Join(MergedEntries(mergedPRs), "\n") + PromptInstructions
  }

  /** Open entries follow the input order: the entries of a concatenation are
      the entries of each part, joined by one newline. */
  lemma OpenPromptEntriesInOrder(a: seq<OpenPR>, b: seq<OpenPR>)
    requires a != [] && b != []
    ensures Join(OpenEntries(a + b), "\n") == Join(OpenEntries(a), "\n") + "\n" + Join(OpenEntries(b), "\n")
  {
    assert OpenEntries(a + b) == OpenEntries(a) + OpenEntries(b);
    JoinAppend(OpenEntries(a), OpenEntries(b), "\n");
  }

  /** Merged entries follow the input order in the same way. */
  lemma MergedPromptEntriesInOrder(c: seq<MergedPR>, d: seq<MergedPR>)
    requires c != [] && d != []
    ensures Join(MergedEntries(c + d), "\n") == Join(MergedEntries(c), "\n") + "\n" + Join(MergedEntries(d), "\n")
  {
    assert MergedEntries(c + d) == MergedEntries(c) + MergedEntries(d);
    JoinAppend(MergedEntries(c), MergedEntries(d), "\n");
  }

  /** A single pull request yields exactly its own entry. */
  lemma PromptSingleEntry(o: OpenPR, m: MergedPR)
    ensures Join(OpenEntries([o]), "\n") == OpenPromptEntry(o)
    ensures Join(MergedEntries([m]), "\n") == MergedPromptEntry(m)
  {
  }

  /** Descriptions in the prompt keep their first 150 characters, with an
      ellipsis exactly when something was cut. */
  lemma PromptDescription(pr: OpenPR, m: MergedPR)
    ensures var d := pr.description;
            OpenPromptEntry(pr) ==
              EntryTitle(pr.title, pr.repo, pr.number)
              + "\n  " + PromptNames("Reviewers: ", pr.reviewers)
              + "\n  " + PromptNames("Requested: ", pr.requestedReviewers)
              + "\n  Description: " + (if |d| <= 150 then d else d[..150] + "...")
    ensures var d := m.description;
            MergedPromptEntry(m) ==
              EntryTitle(m.title, m.repo, m.number) + " - Merged: " + m.mergedAt.iso
              + "\n  Description: " + (if |d| <= 150 then d else d[..150] + "...")
  {
  }

  /** The prompt determines the two counts and the period it reports. */
  lemma PromptDeterminesCounts(o1: seq<OpenPR>, m1: seq<MergedPR>, w1: int,
                               o2: seq<OpenPR>, m2: seq<MergedPR>, w2: int)
    ensures Prompt(o1, m1, w1) == Prompt(o2, m2, w2) ==> |o1| == |o2| && |m1| == |m2| && w1 == w2
  {
    if Prompt(o1, m1, w1) == Prompt(o2, m2, w2) {
      var q, u := "\n- Merged PRs in the last ", " weeks: ";
      var t1, t2 := PromptDetails(o1, m1), PromptDetails(o2, m2);
      var s1, s2 := u + (NatToString(|m1|) + t1), u + (NatToString(|m2|) + t2);
      var r1, r2 := q + (IntToString(w1) + s1), q + (IntToString(w2) + s2);
      CancelPrefix(PromptOpening, NatToString(|o1|) + r1, NatToString(|o2|) + r2);
      NatThenText(|o1|, r1, |o2|, r2);
      CancelPrefix(q, IntToString(w1) + s1, IntToString(w2) + s2);
      IntThenText(w1, s1, w2, s2);
      CancelPrefix(u, NatToString(|m1|) + t1, NatToString(|m2|) + t2);
      NatThenText(|m1|, t1, |m2|, t2);
    }
  }

  /** What the model's reply to a prompt came back as: the texts of its content
      blocks, or the message of the error the call raised. */
  datatype AiReply = Completed(texts: seq<string>) | Failed(message: string)

  const FailurePrefix: string := "Failed to generate executive summary: "

  /** The message the engine gives when the reply has no first content block. */
  const MissingContentMessage: string := "Cannot read properties of undefined (reading 'text')"

  /** The outcome of `generateExecutiveSummary` for a reply: the first content
      block's text, or the failure rethrown with its prefix. */
  function SummaryOutcome(reply: AiReply): (r: Result<string>)
    ensures r.Ok? <==> reply.Completed? && reply.texts != []
    ensures r.Ok? ==> r.value == reply.texts[0]
    ensures reply.Failed? ==> r == Err(FailurePrefix + reply.message)
    ensures reply.Completed? && reply.texts == [] ==> r == Err(FailurePrefix + MissingContentMessage)
  {
    match reply
    case Completed(texts) =>
      if |texts| > 0 then Ok(texts[0]) else Err(FailurePrefix + MissingContentMessage)
    case Failed(message) => Err(FailurePrefix + message)
  }

  /** `generateExecutiveSummary`: the model is asked with the prompt of the two lists. */
  function GenerateExecutiveSummary(openPRs: seq<OpenPR>, mergedPRs: seq<MergedPR>, weeksBack: int,
                                    complete: string -> AiReply): (r: Result<string>)
    ensures var reply := complete(Prompt(openPRs, mergedPRs, weeksBack));
            && (r.Ok? <==> reply.Completed? && reply.texts != [])
            && (r.Ok? ==> r.value == reply.texts[0])
            && (reply.Failed? ==> r == Err(FailurePrefix + reply.message))
  {
    SummaryOutcome(complete(Prompt(openPRs, mergedPRs, weeksBack)))
  }

  const SummaryHeaderText: string := "\U{1F4CA} Executive Summary"

  /** The status section: the period and the two counts. */
  function StatusOverview(weeksBack: int, openCount: nat, mergedCount: nat): string {
    "*Status Overview - Last " + IntToString(weeksBack) + " Week(s)*\n• Open PRs: "
    + NatToString(openCount) + "\n• Merged PRs: " + NatToString(mergedCount)
  }

  /** The plain-text line of the summary message. */
  function SummaryLine(openCount: nat, mergedCount: nat, weeksBack: int): string {
    "Executive Summary: " + (NatToString(openCount) + (" open PRs, " + (NatToString(mergedCount)
    + (" merged PRs in last " + (IntToString(weeksBack) + " weeks")))))
  }

  /** `createExecutiveSummaryMessage`. */
  function ExecutiveSummaryMessage(summary: string, openPRs: seq<OpenPR>, mergedPRs: seq<MergedPR>,
                                   weeksBack: int): (m: Message)
    ensures m.blocks != [] && m.blocks[|m.blocks| - 1] == Section(summary)
  {
    Message(SummaryLine(|openPRs|, |mergedPRs|, weeksBack),
            [Header(SummaryHeaderText), Section(StatusOverview(weeksBack, |openPRs|, |mergedPRs|)),
             Divider, Section(summary)])
  }

  /** Exactly four blocks: the header, the status section, a divider, and the
      summary verbatim. */
  lemma ExecutiveSummaryLayout(summary: string, o: seq<OpenPR>, m: seq<MergedPR>, w: int)
    ensures var msg := ExecutiveSummaryMessage(summary, o, m, w);
            && |msg.blocks| == 4
            && msg.blocks[0] == Header("\U{1F4CA} Executive Summary")
            && msg.blocks[1] == Section(StatusOverview(w, |o|, |m|))
            && msg.blocks[2] == Divider
            && msg.blocks[3] == Section(summary)
  {
  }

  /** The text line determines the two counts and the period. */
  lemma SummaryLineInjective(a1: nat, b1: nat, w1: int, a2: nat, b2: nat, w2: int)
    requires SummaryLine(a1, b1, w1) == SummaryLine(a2, b2, w2)
    ensures a1 == a2 && b1 == b2 && w1 == w2
  {
    var q, u, v := " open PRs, ", " merged PRs in last ", " weeks";
    var s1, s2 := u + (IntToString(w1) + v), u + (IntToString(w2) + v);
    var r1, r2 := q + (NatToString(b1) + s1), q + (NatToString(b2) + s2);
    CancelPrefix("Executive Summary: ", NatToString(a1) + r1, NatToString(a2) + r2);
    NatThenText(a1, r1, a2, r2);
    CancelPrefix(q, NatToString(b1) + s1, NatToString(b2) + s2);
    NatThenText(b1, s1, b2, s2);
    CancelPrefix(u, IntToString(w1) + v, IntToString(w2) + v);
    IntThenText(w1, v, w2, v);
  }

  /** The message depends on the pull-request lists only through their lengths:
      two messages are equal exactly when the summaries, the counts and the
      periods are. */
  lemma ExecutiveSummaryDependsOnCounts(s1: string, o1: seq<OpenPR>, m1: seq<MergedPR>, w1: int,
                                        s2: string, o2: seq<OpenPR>, m2: seq<MergedPR>, w2: int)
    ensures ExecutiveSummaryMessage(s1, o1, m1, w1) == ExecutiveSummaryMessage(s2, o2, m2, w2)
            <==> s1 == s2 && |o1| == |o2| && |m1| == |m2| && w1 == w2
  {
    var x, y := ExecutiveSummaryMessage(s1, o1, m1, w1), ExecutiveSummaryMessage(s2, o2, m2, w2);
    if x == y {
      assert x.text == y.text && x.blocks[3] == y.blocks[3];
      SummaryLineInjective(|o1|, |m1|, w1, |o2|, |m2|, w2);
    }
  }
}
