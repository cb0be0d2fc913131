/** The commands of src/github-slack-integration.js that fetch, format and post:
    `sendSlackMessage`, `checkOpenPRs`, `checkMergedPRs`, the fallback summary
    and `generateAndSendExecutiveSummary`. */
module Pipeline {
  import opened Outcomes
  import opened Text
  import opened PullRequests
  import opened Aggregation
  import opened SlackMessages
  import opened ExecutiveSummary

  // ---------------------------------------------------------------------------
  // The fallback summary body
  // ---------------------------------------------------------------------------

  const NoOpenSummary: string := "\U{1F389} Great news! " + "You have no open PRs waiting for reviews."

  const FallbackIntro: string := "Here are open PR's last week. " + "It's waiting on following reviews:\n\n"

  /** An indented reviewer line, present only when the list is not empty. */
  function IndentedNames(heading: string, names: seq<string>): (line: string)
    ensures line == [] <==> names == []
  {
    if |names| > 0 then "  " + (heading + Join(names, ", ")) + "\n" else ""
  }

  /** The first line of a bullet: the link and the repository with the number. */
  function BulletLine(pr: OpenPR): string {
    "• <" + pr.url + "|" + pr.title + "> (" + pr.repo + " #" + NatToString(pr.number) + ")\n"
  }

  /** The bullet of one open pull request, closed by a blank line. */
  function FallbackEntry(pr: OpenPR): string {
    BulletLine(pr)
    + IndentedNames("Reviewers: ", pr.reviewers)
    + IndentedNames("Requested: ", pr.requestedReviewers)
    + "\n"
  }

  function FallbackEntries(prs: seq<OpenPR>): (entries: seq<string>)
    ensures |entries| == |prs|
  {
    seq(|prs|, i requires 0 <= i < |prs| => FallbackEntry(prs[i]))
  }

  /** The text the fallback puts where the model's summary would go. It depends
      on the open pull requests only. */
  function FallbackBody(openPRs: seq<OpenPR>): (b: string)
    ensures openPRs == [] ==> b == NoOpenSummary
    ensures openPRs != [] ==> FallbackIntro <= b
  {
    if openPRs == [] then NoOpenSummary else FallbackIntro + Concat(FallbackEntries(openPRs))
  }

  /** The body is the celebratory sentence exactly when there are no open pull requests. */
  lemma FallbackBodyEmpty(openPRs: seq<OpenPR>)
    ensures FallbackBody(openPRs) == NoOpenSummary <==> openPRs == []
  {
    if openPRs != [] {
      var x := Concat(FallbackEntries(openPRs));
      assert (FallbackIntro + x)[0] == FallbackIntro[0] == 'H';
      assert NoOpenSummary[0] != 'H';
    }
  }

  /** One bullet per open pull request, in order: the body of a concatenation is
      the body of the first part followed by the bullets of the second. */
  lemma FallbackBodyAppend(a: seq<OpenPR>, b: seq<OpenPR>)
    requires a != []
    ensures FallbackBody(a + b) == FallbackBody(a) + Concat(FallbackEntries(b))
  {
    var ea, eb := FallbackEntries(a), FallbackEntries(b);
    assert FallbackEntries(a + b) == ea + eb;
    ConcatAppend(ea, eb);
    AppendAssoc(FallbackIntro, Concat(ea), Concat(eb));
  }

  /** A bullet names the pull request and shows each reviewer line only when its
      list is not empty. */
  lemma FallbackEntryLines(pr: OpenPR)
    ensures var head := BulletLine(pr);
            && (pr.reviewers == [] && pr.requestedReviewers == [] ==> FallbackEntry(pr) == head + "\n")
            && (pr.reviewers != [] && pr.requestedReviewers == [] ==>
                  FallbackEntry(pr) == head + "  Reviewers: " + Join(pr.reviewers, ", ") + "\n" + "\n")
            && (pr.reviewers == [] && pr.requestedReviewers != [] ==>
                  FallbackEntry(pr) == head + "  Requested: " + Join(pr.requestedReviewers, ", ") + "\n" + "\n")
  {
  }

  /** With both lists non-empty, the reviewers' line comes before the
      requested reviewers' line. */
  lemma FallbackEntryBothLines(pr: OpenPR)
    requires pr.reviewers != [] && pr.requestedReviewers != []
    ensures FallbackEntry(pr) == BulletLine(pr) + "  Reviewers: " + Join(pr.reviewers, ", ") + "\n"
                                 + "  Requested: " + Join(pr.requestedReviewers, ", ") + "\n" + "\n"
  {
  }

  /** The four appends that build one bullet add exactly its entry. */
  lemma EntrySteps(before: string, bullet: string, reviewed: string, requested: string, after: string, pr: OpenPR)
    requires bullet == before + BulletLine(pr)
    requires reviewed == bullet + IndentedNames("Reviewers: ", pr.reviewers)
    requires requested == reviewed + IndentedNames("Requested: ", pr.requestedReviewers)
    requires after == requested + "\n"
    ensures after == before + FallbackEntry(pr)
  {
    var b, x, y := BulletLine(pr), IndentedNames("Reviewers: ", pr.reviewers),
                   IndentedNames("Requested: ", pr.requestedReviewers);
    calc {
      after;
      ((before + b) + x) + y + "\n";
      { AppendAssoc(before, b, x); }
      (before + (b + x)) + y + "\n";
      { AppendAssoc(before, b + x, y); }
      (before + (b + x + y)) + "\n";
      { AppendAssoc(before, b + x + y, "\n"); }
      before + (b + x + y + "\n");
    }
  }

  /** The loop of `createFallbackExecutiveSummaryMessage`: appends the bullet
      of each open pull request, in order, to `summaryText`. */
  method AppendBullets(start: string, openPRs: seq<OpenPR>) returns (summaryText: string)
    ensures summaryText == start + Concat(FallbackEntries(openPRs))
  {
    summaryText := start;
    ghost var entries := FallbackEntries(openPRs);
    assert entries[..0] == [];
    for i := 0 to |openPRs|
      invariant summaryText == start + Concat(entries[..i])
    {
      var pr := openPRs[i];
      var reviewersText := if |pr.reviewers| > 0 then "Reviewers: " + Join(pr.reviewers, ", ") else "";
      var requestedReviewersText :=
        if |pr.requestedReviewers| > 0 then "Requested: " + Join(pr.requestedReviewers, ", ") else "";
      ghost var before := summaryText;
      summaryText := summaryText + ("• <" + pr.url + "|" + pr.title + "> (" + pr.repo + " #"
                     + NatToString(pr.number) + ")\n");
      ghost var bullet := summaryText;
      if reviewersText != "" {
        summaryText := summaryText + ("  " + reviewersText + "\n");
      }
      ghost var reviewed := summaryText;
      if requestedReviewersText != "" {
        summaryText := summaryText + ("  " + requestedReviewersText + "\n");
      }
      ghost var requested := summaryText;
      summaryText := summaryText + "\n";
      EntrySteps(before, bullet, reviewed, requested, summaryText, pr);
      assert entries[i] == FallbackEntry(pr);
      assert entries[..i + 1] == entries[..i] + [entries[i]];
      ConcatSnoc(entries[..i], entries[i]);
      AppendAssoc(start, Concat(entries[..i]), entries[i]);
    }
    assert entries[..|openPRs|] == entries;
  }

  /** `createFallbackExecutiveSummaryMessage`: it writes its own header, status
      and text line, which come out as those of the summary message, with the
      locally built body in place of the model's text. */
  method CreateFallbackExecutiveSummaryMessage(openPRs: seq<OpenPR>, mergedPRs: seq<MergedPR>, weeksBack: int)
    returns (message: Message)
    ensures message == ExecutiveSummaryMessage(FallbackBody(openPRs), openPRs, mergedPRs, weeksBack)
  {
    var summaryText := "";
    if |openPRs| == 0 {
      summaryText := NoOpenSummary;
    } else {
      summaryText := AppendBullets(FallbackIntro, openPRs);
    }
    var status := "*Status Overview - Last " + IntToString(weeksBack) + " Week(s)*\n• Open PRs: "
                  + NatToString(|openPRs|) + "\n• Merged PRs: " + NatToString(|mergedPRs|);
    var text := "Executive Summary: " + (NatToString(|openPRs|) + (" open PRs, " + (NatToString(|mergedPRs|)
                + (" merged PRs in last " + (IntToString(weeksBack) + " weeks")))));
    message := Message(text, [Header("\U{1F4CA} Executive Summary"), Section(status), Divider, Section(summaryText)]);
  }

  // ---------------------------------------------------------------------------
  // Posting
  // ---------------------------------------------------------------------------

  /** How the chat platform answered one post: accepted it, answered with
      `ok: false` and perhaps an error code, or the client raised an error. */
  datatype SendAck = Delivered | Rejected(error: Option<string>) | Threw(message: string)

  const SlackErrorPrefix: string := "Slack API error: "

  /** `sendSlackMessage`: a rejection becomes an error naming the platform's
      error code (`undefined` when there is none); a raised error is rethrown. */
  function SendSlackMessage(ack: SendAck): (r: Result<()>)
    ensures r.Ok? <==> ack.Delivered?
    ensures ack.Rejected? && ack.error.Some? ==> r == Err(SlackErrorPrefix + ack.error.value)
    ensures ack.Rejected? && ack.error.None? ==> r == Err(SlackErrorPrefix + "undefined")
    ensures ack.Threw? ==> r == Err(ack.message)
  {
    match ack
    case Delivered => Ok(())
    case Rejected(error) =>
      Err(SlackErrorPrefix + (match error case Some(code) => code case None => "undefined"))
    case Threw(message) => Err(message)
  }

  /** `checkOpenPRs`: fetch, format, post. `deliver` is the platform's answer to
      a post of a given message; `sent` lists the messages whose posting was
      attempted. */
  method CheckOpenPRs(username: string, repos: Result<seq<OpenRepo>>, deliver: Message -> SendAck)
    returns (sent: seq<Message>, r: Result<()>)
    ensures repos.Err? ==> sent == [] && r == Err(repos.error)
    ensures repos.Ok? ==> && sent == [OpenPRsMessage(OpenPRs(username, repos).value)]
                          && r == SendSlackMessage(deliver(sent[0]))
  {
    var openPRs := GetOpenPRs(username, repos);
    if openPRs.Err? {
      return [], Err(openPRs.error);
    }
    var message := CreateOpenPRsMessage(openPRs.value);
    sent := [message];
    r := SendSlackMessage(deliver(message));
  }

  /** `checkMergedPRs`: fetch the pull requests merged after `cutoff`, format,
      post. */
  method CheckMergedPRs(username: string, cutoff: int, weeksBack: int, repos: Result<seq<ClosedRepo>>,
                        formatDate: int -> string, deliver: Message -> SendAck)
    returns (sent: seq<Message>, r: Result<()>)
    ensures repos.Err? ==> sent == [] && r == Err(repos.error)
    ensures repos.Ok? ==>
              && sent == [MergedPRsMessage(MergedPRs(username, cutoff, repos).value, weeksBack, formatDate)]
              && r == SendSlackMessage(deliver(sent[0]))
  {
    var mergedPRs := GetMergedPRs(username, cutoff, repos);
    if mergedPRs.Err? {
      return [], Err(mergedPRs.error);
    }
    var message := CreateMergedPRsMessage(mergedPRs.value, weeksBack, formatDate);
    sent := [message];
    r := SendSlackMessage(deliver(message));
  }

  /** `generateAndSendExecutiveSummary`. A fetch failure is rethrown before any
      post. Otherwise the model's summary is posted; if generating it or posting
      it fails, the fallback message is posted once, and the outcome of that
      post is the outcome of the command. */
  method GenerateAndSendExecutiveSummary(username: string, cutoff: int, weeksBack: int,
                                         openRepos: Result<seq<OpenRepo>>, closedRepos: Result<seq<ClosedRepo>>,
                                         complete: string -> AiReply, deliver: Message -> SendAck)
    returns (sent: seq<Message>, r: Result<()>)
    ensures openRepos.Err? ==> sent == [] && r == Err(openRepos.error)
    ensures openRepos.Ok? && closedRepos.Err? ==> sent == [] && r == Err(closedRepos.error)
    ensures openRepos.Ok? && closedRepos.Ok? ==>
              var o := OpenPRs(username, openRepos).value;
              var m := MergedPRs(username, cutoff, closedRepos).value;
              var summary := GenerateExecutiveSummary(o, m, weeksBack, complete);
              var fallback := ExecutiveSummaryMessage(FallbackBody(o), o, m, weeksBack);
              if summary.Ok? && deliver(ExecutiveSummaryMessage(summary.value, o, m, weeksBack)).Delivered? then
                sent == [ExecutiveSummaryMessage(summary.value, o, m, weeksBack)] && r == Ok(())
              else
                && sent == (if summary.Ok? then [ExecutiveSummaryMessage(summary.value, o, m, weeksBack)] else [])
                           + [fallback]
                && r == SendSlackMessage(deliver(fallback))
  {
    var openPRs := GetOpenPRs(username, openRepos);
    if openPRs.Err? {
      return [], Err(openPRs.error);
    }
    var mergedPRs := GetMergedPRs(username, cutoff, closedRepos);
    if mergedPRs.Err? {
      return [], Err(mergedPRs.error);
    }
    sent := [];
    var summary := GenerateExecutiveSummary(openPRs.value, mergedPRs.value, weeksBack, complete);
    if summary.Ok? {
      var message := ExecutiveSummaryMessage(summary.value, openPRs.value, mergedPRs.value, weeksBack);
      sent := [message];
      r := SendSlackMessage(deliver(message));
      if r.Ok? {
        return;
      }
    }
    var fallbackMessage := CreateFallbackExecutiveSummaryMessage(openPRs.value, mergedPRs.value, weeksBack);
    sent := sent + [fallbackMessage];
    r := SendSlackMessage(deliver(fallbackMessage));
  }
}
