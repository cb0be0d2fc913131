/** Slack messages and the two list formatters of src/github-slack-integration.js,
    `createOpenPRsMessage` and `createMergedPRsMessage`. */
module SlackMessages {
  import opened Text
  import opened PullRequests

  /** The three Block Kit elements the pipeline uses: a `plain_text` header with
      emoji, a `mrkdwn` section, and a divider. */
  datatype Block = Header(text: string) | Section(text: string) | Divider

  /** A posted message: the plain-text fallback and the rich blocks. */
  datatype Message = Message(text: string, blocks: seq<Block>)

  /** Item sections with a divider between consecutive ones and none after the last. */
  function Separated(items: seq<string>): seq<Block>
    decreases |items|
  {
    if items == [] then []
    else if |items| == 1 then [Section(items[0])]
    else [Section(items[0]), Divider] + Separated(items[1..])
  }

  /** Block `k` of a run laid out from `start` on: items at even offsets, dividers at odd ones. */
  predicate LaidOutFrom(blocks: seq<Block>, start: nat, items: seq<string>) {
    forall k :: start <= k < |blocks| ==>
      (k - start) / 2 < |items| &&
      blocks[k] == if (k - start) % 2 == 0 then Section(items[(k - start) / 2]) else Divider
  }

  /** The layout of `Separated`: 2n-1 blocks, item i at position 2i, a divider
      at every odd position, and the last block the last item. */
  lemma {:induction false} SeparatedLayout(items: seq<string>)
    ensures |Separated(items)| == if items == [] then 0 else 2 * |items| - 1
    ensures LaidOutFrom(Separated(items), 0, items)
    ensures items != [] ==> Separated(items)[|Separated(items)| - 1] == Section(items[|items| - 1])
    decreases |items|
  {
    if |items| > 1 {
      SeparatedLayout(items[1..]);
      var s, t := Separated(items), Separated(items[1..]);
      assert s == [Section(items[0]), Divider] + t;
      forall k | 0 <= k < |s|
        ensures k / 2 < |items|
        ensures s[k] == if k % 2 == 0 then Section(items[k / 2]) else Divider
      {
        if k >= 2 {
          assert s[k] == t[k - 2];
          assert (k - 2) / 2 == k / 2 - 1 && (k - 2) % 2 == k % 2;
          assert items[1..][k / 2 - 1] == items[k / 2];
        }
      }
    }
  }

  /** A fixed head followed by a separated run: the items sit from position
      |head| on, and the last block is the last item. */
  lemma ListingLayout(head: seq<Block>, items: seq<string>)
    requires items != []
    ensures |head + Separated(items)| == |head| + 2 * |items| - 1
    ensures LaidOutFrom(head + Separated(items), |head|, items)
    ensures (head + Separated(items))[|head| + 2 * |items| - 2] == Section(items[|items| - 1])
  {
    SeparatedLayout(items);
    var b := head + Separated(items);
    forall k | |head| <= k < |b|
      ensures (k - |head|) / 2 < |items|
      ensures b[k] == if (k - |head|) % 2 == 0 then Section(items[(k - |head|) / 2]) else Divider
    {
      assert b[k] == Separated(items)[k - |head|];
    }
  }

  /** Appending an item to a non-empty run adds one divider and its section. */
  lemma {:induction false} SeparatedSnoc(items: seq<string>, x: string)
    requires items != []
    ensures Separated(items + [x]) == Separated(items) + [Divider, Section(x)]
    decreases |items|
  {
    if |items| == 1 {
      assert (items + [x])[1..] == [x];
    } else {
      assert (items + [x])[1..] == items[1..] + [x];
      SeparatedSnoc(items[1..], x);
    }
  }

  /** One step of building a run item by item: the divider owed to the previous
      item, then the next section. */
  lemma SeparatedExtend(items: seq<string>, i: nat)
    requires i < |items|
    ensures Separated(items[..i]) + (if 0 < i then [Divider] else []) + [Section(items[i])]
            == Separated(items[..i + 1])
  {
    assert items[..i + 1] == items[..i] + [items[i]];
    if i > 0 {
      SeparatedSnoc(items[..i], items[i]);
    }
  }

  /** The label line for a list of logins, present only when the list is not empty. */
  function NamesLine(heading: string, names: seq<string>): (line: string)
    ensures line == [] <==> names == []
  {
    if |names| > 0 then heading + Join(names, ", ") + "\n" else ""
  }

  /** The link to a pull request on the platform's web site. */
  function PullLink(repo: string, number: nat): string {
    "<https://github.com/" + repo + "/pull/" + NatToString(number) + "|" + repo + ">"
  }

  const DescriptionLimit: nat := 200

  // ---------------------------------------------------------------------------
  // Open pull requests
  // ---------------------------------------------------------------------------

  const NoOpenPRsText: string := "\U{1F389} *Great news!* You have no open PRs waiting for reviews."

  function OpenHeaderText(count: nat): string {
    "\U{1F50D} Open PRs Waiting for Reviews (" + NatToString(count) + ")"
  }

  function OpenSummaryText(count: nat): string {
    "You have " + NatToString(count) + " open PR(s) waiting for reviews"
  }

  /** The head of an open item's section: title link, repository link, and the
      reviewer lines; the description follows it. */
  function OpenItemHead(pr: OpenPR): string {
    "*<" + pr.url + "|" + pr.title + ">*\n*Repo:* " + PullLink(pr.repo, pr.number)
    + " (#" + NatToString(pr.number) + ")\n"
    + NamesLine("*Reviewers:* ", pr.reviewers)
    + NamesLine("*Requested Reviewers:* ", pr.requestedReviewers)
    + "\n"
  }

  function OpenItemText(pr: OpenPR): string {
    OpenItemHead(pr) + Truncate(pr.description, DescriptionLimit)
  }

  function OpenItems(prs: seq<OpenPR>): (items: seq<string>)
    ensures |items| == |prs|
  {
    seq(|prs|, i requires 0 <= i < |prs| => OpenItemText(prs[i]))
  }

  /** The message `createOpenPRsMessage` returns. */
  function OpenPRsMessage(prs: seq<OpenPR>): (m: Message)
    ensures m.blocks != []
    ensures m.blocks[0].Header? <==> prs != []
  {
    if prs == [] then Message(NoOpenPRsText, [Section(NoOpenPRsText)])
    else Message(OpenSummaryText(|prs|),
                 [Header(OpenHeaderText(|prs|)), Divider] + Separated(OpenItems(prs)))
  }

  /** No open pull requests: the celebratory line, as text and as the only block. */
  lemma OpenPRsMessageEmpty(prs: seq<OpenPR>)
    ensures prs == [] <==> OpenPRsMessage(prs).blocks == [Section(NoOpenPRsText)]
    ensures prs == [] ==> OpenPRsMessage(prs).text == NoOpenPRsText
  {
    if prs != [] {
      assert OpenPRsMessage(prs).blocks[0].Header?;
    }
  }

  /** n > 0 open pull requests: a header with the count, a divider, then the n
      item sections with a divider between consecutive ones; 2n + 1 blocks, the
      last of them the last item. */
  lemma OpenPRsMessageLayout(prs: seq<OpenPR>)
    requires prs != []
    ensures var m := OpenPRsMessage(prs);
            && m.text == OpenSummaryText(|prs|)
            && |m.blocks| == 2 * |prs| + 1
            && m.blocks[0] == Header(OpenHeaderText(|prs|)) && m.blocks[1] == Divider
            && LaidOutFrom(m.blocks, 2, OpenItems(prs))
            && m.blocks[2 * |prs|] == Section(OpenItems(prs)[|prs| - 1])
  {
    var head, items := [Header(OpenHeaderText(|prs|)), Divider], OpenItems(prs);
    ListingLayout(head, items);
  }

  /** An item shows a description of at most 200 characters as it is, and a
      longer one as its first 200 characters followed by an ellipsis. */
  lemma OpenItemDescription(pr: OpenPR)
    ensures |pr.description| <= 200 ==> OpenItemText(pr) == OpenItemHead(pr) + pr.description
    ensures |pr.description| > 200 ==>
              OpenItemText(pr) == OpenItemHead(pr) + pr.description[..200] + "..."
  {
  }

  /** `createOpenPRsMessage`: a header and a divider, then for each pull request
      its section, followed by a divider unless it is the last. */
  method CreateOpenPRsMessage(openPRs: seq<OpenPR>) returns (message: Message)
    ensures message == OpenPRsMessage(openPRs)
  {
    if |openPRs| == 0 {
      return Message(NoOpenPRsText, [Section(NoOpenPRsText)]);
    }
    var n := |openPRs|;
    ghost var head := [Header(OpenHeaderText(n)), Divider];
    ghost var items := OpenItems(openPRs);
    var blocks := [Header(OpenHeaderText(n)), Divider];
    for i := 0 to n
      invariant blocks == head + Separated(items[..i]) + (if 0 < i < n then [Divider] else [])
    {
      var reviewersText := NamesLine("*Reviewers:* ", openPRs[i].reviewers);
      var requestedReviewersText := NamesLine("*Requested Reviewers:* ", openPRs[i].requestedReviewers);
      var pr := openPRs[i];
      var text := "*<" + pr.url + "|" + pr.title + ">*\n*Repo:* " + PullLink(pr.repo, pr.number)
                  + " (#" + NatToString(pr.number) + ")\n" + reviewersText + requestedReviewersText
                  + "\n" + Truncate(pr.description, DescriptionLimit);
      assert text == OpenItemText(pr);
      assert items[i] == OpenItemText(openPRs[i]);
      SeparatedExtend(items, i);
      blocks := blocks + [Section(text)];
      assert blocks == head + Separated(items[..i + 1]);
      if i < n - 1 {
        blocks := blocks + [Divider];
      }
    }
    assert items[..n] == items;
    return Message(OpenSummaryText(n), blocks);
  }

  // ---------------------------------------------------------------------------
  // Merged pull requests
  // ---------------------------------------------------------------------------

  function NoMergedText(weeksBack: int): string {
    "No PRs were merged in the last " + IntToString(weeksBack) + " week(s)."
  }

  function NoMergedSectionText(weeksBack: int): string {
    "\U{1F4CA} *Weekly Summary*\n" + NoMergedText(weeksBack)
  }

  function MergedHeaderText(weeksBack: int): string {
    "\U{1F4CA} Weekly Summary - Last " + IntToString(weeksBack) + " Week(s)"
  }

  function MergedCountText(count: nat): string {
    "*" + NatToString(count) + " PR(s) merged*"
  }

  function MergedSummaryText(count: nat, weeksBack: int): string {
    NatToString(count) + " PR(s) were merged in the last " + IntToString(weeksBack) + " week(s)"
  }

  /** The head of a merged item's section: title link, repository link and the
      merge date as `formatDate` renders the merge instant. */
  function MergedItemHead(pr: MergedPR, formatDate: int -> string): string {
    "*<" + pr.url + "|" + pr.title + ">*\n*Repo:* " + PullLink(pr.repo, pr.number)
    + " (#" + NatToString(pr.number) + ") • *Merged:* " + formatDate(pr.mergedAt.instant) + "\n\n"
  }

  function MergedItemText(pr: MergedPR, formatDate: int -> string): string {
    MergedItemHead(pr, formatDate) + Truncate(pr.description, DescriptionLimit)
  }

  function MergedItems(prs: seq<MergedPR>, formatDate: int -> string): (items: seq<string>)
    ensures |items| == |prs|
  {
    seq(|prs|, i requires 0 <= i < |prs| => MergedItemText(prs[i], formatDate))
  }

  /** The message `createMergedPRsMessage` returns. */
  function MergedPRsMessage(prs: seq<MergedPR>, weeksBack: int, formatDate: int -> string): (m: Message)
    ensures m.blocks != []
    ensures m.blocks[0].Header? <==> prs != []
  {
    if prs == [] then Message(NoMergedText(weeksBack), [Section(NoMergedSectionText(weeksBack))])
    else Message(MergedSummaryText(|prs|, weeksBack),
                 [Header(MergedHeaderText(weeksBack)), Section(MergedCountText(|prs|)), Divider]
                 + Separated(MergedItems(prs, formatDate)))
  }

  /** No merged pull requests: one section, and both it and the text name the
      look-back period. */
  lemma MergedPRsMessageEmpty(prs: seq<MergedPR>, weeksBack: int, formatDate: int -> string)
    ensures prs == [] <==> |MergedPRsMessage(prs, weeksBack, formatDate).blocks| == 1
    ensures prs == [] ==>
              MergedPRsMessage(prs, weeksBack, formatDate)
              == Message(NoMergedText(weeksBack), [Section("\U{1F4CA} *Weekly Summary*\n" + NoMergedText(weeksBack))])
  {
  }

  /** n > 0 merged pull requests: a header naming the period, a section with the
      count, a divider, then the n item sections separated by dividers; 2n + 2
      blocks, the last of them the last item. */
  lemma MergedPRsMessageLayout(prs: seq<MergedPR>, weeksBack: int, formatDate: int -> string)
    requires prs != []
    ensures var m := MergedPRsMessage(prs, weeksBack, formatDate);
            && m.text == MergedSummaryText(|prs|, weeksBack)
            && |m.blocks| == 2 * |prs| + 2
            && m.blocks[0] == Header(MergedHeaderText(weeksBack))
            && m.blocks[1] == Section(MergedCountText(|prs|))
            && m.blocks[2] == Divider
            && LaidOutFrom(m.blocks, 3, MergedItems(prs, formatDate))
            && m.blocks[2 * |prs| + 1] == Section(MergedItems(prs, formatDate)[|prs| - 1])
  {
    ListingLayout([Header(MergedHeaderText(weeksBack)), Section(MergedCountText(|prs|)), Divider],
                  MergedItems(prs, formatDate));
  }

  /** The same truncation law for merged items. */
  lemma MergedItemDescription(pr: MergedPR, formatDate: int -> string)
    ensures |pr.description| <= 200 ==>
              MergedItemText(pr, formatDate) == MergedItemHead(pr, formatDate) + pr.description
    ensures |pr.description| > 200 ==>
              MergedItemText(pr, formatDate) == MergedItemHead(pr, formatDate) + pr.description[..200] + "..."
  {
  }

  /** `createMergedPRsMessage`: header, count and divider, then for each pull
      request its section, followed by a divider unless it is the last. */
  method CreateMergedPRsMessage(mergedPRs: seq<MergedPR>, weeksBack: int, formatDate: int -> string)
    returns (message: Message)
    ensures message == MergedPRsMessage(mergedPRs, weeksBack, formatDate)
  {
    if |mergedPRs| == 0 {
      return Message(NoMergedText(weeksBack), [Section(NoMergedSectionText(weeksBack))]);
    }
    var n := |mergedPRs|;
    ghost var head := [Header(MergedHeaderText(weeksBack)), Section(MergedCountText(n)), Divider];
    ghost var items := MergedItems(mergedPRs, formatDate);
    var blocks := [Header(MergedHeaderText(weeksBack)), Section(MergedCountText(n)), Divider];
    for i := 0 to n
      invariant blocks == head + Separated(items[..i]) + (if 0 < i < n then [Divider] else [])
    {
      var pr := mergedPRs[i];
      var mergedDate := formatDate(pr.mergedAt.instant);
      var text := "*<" + pr.url + "|" + pr.title + ">*\n*Repo:* " + PullLink(pr.repo, pr.number)
                  + " (#" + NatToString(pr.number) + ") • *Merged:* " + mergedDate + "\n\n"
                  + Truncate(pr.description, DescriptionLimit);
      assert text == MergedItemText(pr, formatDate);
      assert items[i] == MergedItemText(mergedPRs[i], formatDate);
      SeparatedExtend(items, i);
      blocks := blocks + [Section(text)];
      assert blocks == head + Separated(items[..i + 1]);
      if i < n - 1 {
        blocks := blocks + [Divider];
      }
    }
    assert items[..n] == items;
    return Message(MergedSummaryText(n, weeksBack), blocks);
  }
}
