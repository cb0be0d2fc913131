/** The pull-request records: the fields of the platform's payloads that the
    pipeline reads, the per-repository outcomes of its list calls, and the two
    summaries the pipeline builds from them. */
module PullRequests {
  import opened Outcomes

  /** A merge time: its instant (milliseconds, as `moment(...).valueOf()` gives
      it) and the ISO text the platform sent. */
  datatype Timestamp = Timestamp(instant: int, iso: string)

  /** A submitted review: its state as the platform spells it and its author. */
  datatype Review = Review(state: string, login: string)

  /** A pull request as listed: `body` and `requested_reviewers` may be null. */
  datatype Pull = Pull(
    title: string,
    body: Option<string>,
    htmlUrl: string,
    number: nat,
    author: string,
    requestedReviewers: Option<seq<string>>,
    createdAt: string,
    mergedAt: Option<Timestamp>)

  /** A listed open pull request with the outcome of fetching its reviews
      (only fetched, and only consulted, for the user's own pull requests). */
  datatype OpenListing = OpenListing(pull: Pull, reviews: Result<seq<Review>>)

  /** One repository as seen by the open-PR pass: its full name and the outcome of
      listing its open pull requests. */
  datatype OpenRepo = OpenRepo(fullName: string, listing: Result<seq<OpenListing>>)

  /** One repository as seen by the merged-PR pass: the outcome of listing its
      closed pull requests. */
  datatype ClosedRepo = ClosedRepo(fullName: string, listing: Result<seq<Pull>>)

  /** The summary of an open pull request. */
  datatype OpenPR = OpenPR(
    title: string,
    description: string,
    url: string,
    repo: string,
    number: nat,
    reviewers: seq<string>,
    requestedReviewers: seq<string>,
    createdAt: string)

  /** The summary of a merged pull request. */
  datatype MergedPR = MergedPR(
    title: string,
    description: string,
    url: string,
    repo: string,
    number: nat,
    mergedAt: Timestamp)

  const NoDescription: string := "No description provided"

  /** A missing or empty body is shown as the placeholder text. */
  function Description(body: Option<string>): (d: string)
    ensures body.Some? && body.value != [] ==> d == body.value
    ensures body.None? || body.value == [] ==> d == NoDescription
  {
    match body
    case Some(b) => if b != [] then b else NoDescription
    case None => NoDescription
  }

  /** The logins of the requested reviewers; none when the field is null. */
  function RequestedLogins(requested: Option<seq<string>>): (r: seq<string>)
    ensures requested.None? ==> r == []
    ensures requested.Some? ==> r == requested.value
  {
    match requested
    case Some(logins) => logins
    case None => []
  }

  /** Review states that count a reviewer as having reviewed. */
  predicate Qualifies(review: Review) {
    review.state == "APPROVED" || review.state == "CHANGES_REQUESTED"
  }

  /** The logins of the qualifying reviews, in review order, duplicates kept. */
  function QualifyingReviewers(reviews: seq<Review>): (logins: seq<string>)
    ensures |logins| <= |reviews|
    decreases |reviews|
  {
    if reviews == [] then []
    else (if Qualifies(reviews[0]) then [reviews[0].login] else []) + QualifyingReviewers(reviews[1..])
  }

  /** The reviewer list is the filter-then-map over the reviews: it distributes
      over concatenation, keeping order and repetitions. */
  lemma {:induction false} QualifyingReviewersAppend(a: seq<Review>, b: seq<Review>)
    ensures QualifyingReviewers(a + b) == QualifyingReviewers(a) + QualifyingReviewers(b)
    decreases |a|
  {
    if a != [] {
      assert (a + b)[1..] == a[1..] + b;
      QualifyingReviewersAppend(a[1..], b);
    } else {
      assert a + b == b;
    }
  }

  /** Every reviewer comes from a qualifying review, and every qualifying review
      contributes its login. */
  lemma {:induction false} QualifyingReviewersMembers(reviews: seq<Review>, login: string)
    ensures login in QualifyingReviewers(reviews) <==>
            exists i :: 0 <= i < |reviews| && Qualifies(reviews[i]) && reviews[i].login == login
    decreases |reviews|
  {
    if reviews != [] {
      QualifyingReviewersMembers(reviews[1..], login);
      if login in QualifyingReviewers(reviews[1..]) {
        var i :| 0 <= i < |reviews[1..]| && Qualifies(reviews[1..][i]) && reviews[1..][i].login == login;
        assert reviews[i + 1] == reviews[1..][i];
      }
      if exists i :: 0 <= i < |reviews| && Qualifies(reviews[i]) && reviews[i].login == login {
        var i :| 0 <= i < |reviews| && Qualifies(reviews[i]) && reviews[i].login == login;
        if i > 0 {
          assert reviews[1..][i - 1] == reviews[i];
        }
      }
    }
  }

  /** The record pushed for one of the user's open pull requests. */
  function ToOpenPR(repo: string, pull: Pull, reviews: seq<Review>): (r: OpenPR)
    ensures r.repo == repo && r.number == pull.number && r.url == pull.htmlUrl
    ensures r.description != []
    ensures |r.reviewers| <= |reviews|
  {
    OpenPR(pull.title, Description(pull.body), pull.htmlUrl, repo, pull.number,
           QualifyingReviewers(reviews), RequestedLogins(pull.requestedReviewers), pull.createdAt)
  }

  /** The record pushed for one of the user's merged pull requests. */
  function ToMergedPR(repo: string, pull: Pull): (r: MergedPR)
    requires pull.mergedAt.Some?
    ensures r.repo == repo && r.number == pull.number && r.url == pull.htmlUrl
    ensures r.description != []
    ensures r.mergedAt == pull.mergedAt.value
  {
    MergedPR(pull.title, Description(pull.body), pull.htmlUrl, repo, pull.number, pull.mergedAt.value)
  }
}
