/** The two aggregation passes of src/github-slack-integration.js, `getOpenPRs`
    and `getMergedPRs`, over the outcomes of the platform's list calls. The
    outcome of listing the user's repositories is `Err` when that call threw
    (rethrown unchanged); each repository carries the outcome of its own calls. */
module Aggregation {
  import opened Outcomes
  import opened PullRequests
  import opened MergeOrder
  import opened Text

  // ---------------------------------------------------------------------------
  // Open pull requests
  // ---------------------------------------------------------------------------

  /** The listed pull requests opened by `username`, in list order. */
  function AuthoredBy(listings: seq<OpenListing>, username: string): (own: seq<OpenListing>)
    ensures |own| <= |listings|
    ensures forall k :: 0 <= k < |own| ==> own[k].pull.author == username
    decreases |listings|
  {
    if listings == [] then []
    else (if listings[0].pull.author == username then [listings[0]] else [])
         + AuthoredBy(listings[1..], username)
  }

  /** The filter keeps exactly the user's pull requests. */
  lemma {:induction false} AuthoredByMembers(listings: seq<OpenListing>, username: string, l: OpenListing)
    ensures l in AuthoredBy(listings, username) <==> l in listings && l.pull.author == username
    decreases |listings|
  {
    if listings != [] {
      AuthoredByMembers(listings[1..], username, l);
      assert listings == [listings[0]] + listings[1..];
    }
  }

  /** The filter keeps list order and repetitions: it distributes over
      concatenation of listings. */
  lemma {:induction false} AuthoredByAppend(a: seq<OpenListing>, b: seq<OpenListing>, username: string)
    ensures AuthoredBy(a + b, username) == AuthoredBy(a, username) + AuthoredBy(b, username)
    decreases |a|
  {
    if a != [] {
      assert (a + b)[1..] == a[1..] + b;
      AuthoredByAppend(a[1..], b, username);
    } else {
      assert a + b == b;
    }
  }

  /** What the review loop pushes for the user's pull requests of one repository:
      one record per pull request up to the first review fetch that throws. */
  function Reviewed(repo: string, own: seq<OpenListing>): (r: seq<OpenPR>)
    ensures |r| <= |own|
    ensures forall k :: 0 <= k < |r| ==> r[k].repo == repo
    decreases |own|
  {
    if own == [] then []
    else match own[0].reviews
      case Err(_) => []
      case Ok(reviews) => [ToOpenPR(repo, own[0].pull, reviews)] + Reviewed(repo, own[1..])
  }

  /** A repository's contribution: nothing when its list call throws. */
  function RepoOpenPRs(username: string, repo: OpenRepo): (r: seq<OpenPR>)
    ensures repo.listing.Err? ==> r == []
    ensures repo.listing.Ok? ==> |r| <= |repo.listing.value|
    ensures forall k :: 0 <= k < |r| ==> r[k].repo == repo.fullName
  {
    match repo.listing
    case Err(_) => []
    case Ok(listings) => Reviewed(repo.fullName, AuthoredBy(listings, username))
  }

  function OpenContributions(username: string, repos: seq<OpenRepo>): seq<seq<OpenPR>> {
    seq(|repos|, i requires 0 <= i < |repos| => RepoOpenPRs(username, repos[i]))
  }

  /** The contributions of the repositories, in enumeration order. */
  function CollectOpen(username: string, repos: seq<OpenRepo>): seq<OpenPR> {
    Concat(OpenContributions(username, repos))
  }

  /** The value `getOpenPRs` resolves to, or the error it rejects with. */
  function OpenPRs(username: string, repos: Result<seq<OpenRepo>>): (r: Result<seq<OpenPR>>)
    ensures r.Ok? <==> repos.Ok?
    ensures repos.Err? ==> r == Err(repos.error)
  {
    match repos
    case Err(e) => Err(e)
    case Ok(rs) => Ok(CollectOpen(username, rs))
  }

  /** Once every review fetch of `a` has succeeded, what follows is independent. */
  lemma {:induction false} ReviewedAppend(repo: string, a: seq<OpenListing>, b: seq<OpenListing>)
    requires forall k :: 0 <= k < |a| ==> a[k].reviews.Ok?
    ensures Reviewed(repo, a + b) == Reviewed(repo, a) + Reviewed(repo, b)
    decreases |a|
  {
    if a == [] {
      assert a + b == b;
    } else {
      assert (a + b)[0] == a[0];
      assert (a + b)[1..] == a[1..] + b;
      ReviewedAppend(repo, a[1..], b);
    }
  }

  /** The first `k` pull requests whose reviews were fetched give the first `k`
      records, in order. */
  lemma {:induction false} ReviewedPrefix(repo: string, own: seq<OpenListing>, k: nat)
    requires k <= |own|
    requires forall i :: 0 <= i < k ==> own[i].reviews.Ok?
    ensures |Reviewed(repo, own)| >= k
    ensures forall i :: 0 <= i < k ==>
              Reviewed(repo, own)[i] == ToOpenPR(repo, own[i].pull, own[i].reviews.value)
    decreases k
  {
    if k > 0 {
      ReviewedPrefix(repo, own[1..], k - 1);
      forall i | 0 < i < k
        ensures Reviewed(repo, own)[i] == ToOpenPR(repo, own[i].pull, own[i].reviews.value)
      {
        assert own[1..][i - 1] == own[i];
      }
    }
  }

  /** A review fetch that throws on the user's k-th pull request (counting from 0)
      keeps exactly the records of the k before it. */
  lemma ReviewFailureKeepsEarlier(repo: string, own: seq<OpenListing>, k: nat)
    requires k < |own| && own[k].reviews.Err?
    requires forall i :: 0 <= i < k ==> own[i].reviews.Ok?
    ensures |Reviewed(repo, own)| == k
    ensures forall i :: 0 <= i < k ==>
              Reviewed(repo, own)[i] == ToOpenPR(repo, own[i].pull, own[i].reviews.value)
  {
    ReviewedPrefix(repo, own, k);
    ReviewedAppend(repo, own[..k], own[k..]);
    assert own == own[..k] + own[k..];
    assert Reviewed(repo, own[k..]) == [];
    ReviewedPrefix(repo, own[..k], k);
    ReviewedLength(repo, own[..k]);
  }

  /** When every review fetch succeeds, each of the user's pull requests gives
      one record, in list order. */
  lemma ReviewsAllFetched(repo: string, own: seq<OpenListing>)
    requires forall i :: 0 <= i < |own| ==> own[i].reviews.Ok?
    ensures |Reviewed(repo, own)| == |own|
    ensures forall i :: 0 <= i < |own| ==>
              Reviewed(repo, own)[i] == ToOpenPR(repo, own[i].pull, own[i].reviews.value)
  {
    ReviewedPrefix(repo, own, |own|);
    ReviewedLength(repo, own);
  }

  lemma {:induction false} ReviewedLength(repo: string, own: seq<OpenListing>)
    ensures |Reviewed(repo, own)| <= |own|
    decreases |own|
  {
    if own != [] {
      ReviewedLength(repo, own[1..]);
    }
  }

  /** Order: the result for `a + b` is the result for `a` followed by that for `b`. */
  lemma CollectOpenAppend(username: string, a: seq<OpenRepo>, b: seq<OpenRepo>)
    ensures CollectOpen(username, a + b) == CollectOpen(username, a) + CollectOpen(username, b)
  {
    assert OpenContributions(username, a + b)
           == OpenContributions(username, a) + OpenContributions(username, b);
    ConcatAppend(OpenContributions(username, a), OpenContributions(username, b));
  }

  /** A repository whose list call throws contributes nothing, and the
      repositories after it are still processed. */
  lemma FailedRepoSkipped(username: string, before: seq<OpenRepo>, repo: OpenRepo, after: seq<OpenRepo>)
    requires repo.listing.Err?
    ensures CollectOpen(username, before + [repo] + after)
            == CollectOpen(username, before) + CollectOpen(username, after)
  {
    CollectOpenAppend(username, before + [repo], after);
    CollectOpenAppend(username, before, [repo]);
    assert OpenContributions(username, [repo]) == [[]];
    ConcatSnoc<OpenPR>([], []);
  }

  /** `o` was built from a pull request authored by `username` that was listed
      in one of the repositories and whose reviews were fetched. */
  ghost predicate FromOwnOpenPull(o: OpenPR, username: string, repos: seq<OpenRepo>) {
    exists i, j :: 0 <= i < |repos| && repos[i].listing.Ok? && 0 <= j < |repos[i].listing.value|
      && repos[i].listing.value[j].pull.author == username
      && repos[i].listing.value[j].reviews.Ok?
      && o == ToOpenPR(repos[i].fullName, repos[i].listing.value[j].pull,
                       repos[i].listing.value[j].reviews.value)
  }

  lemma {:induction false} ReviewedFrom(repo: string, own: seq<OpenListing>, o: OpenPR)
    requires o in Reviewed(repo, own)
    ensures exists l :: l in own && l.reviews.Ok? && o == ToOpenPR(repo, l.pull, l.reviews.value)
    decreases |own|
  {
    if own[0].reviews.Ok? && o != ToOpenPR(repo, own[0].pull, own[0].reviews.value) {
      ReviewedFrom(repo, own[1..], o);
    }
  }

  /** Only the user's own pull requests are reported. */
  lemma OpenPRsOnlyOwn(username: string, repos: seq<OpenRepo>, o: OpenPR)
    requires o in CollectOpen(username, repos)
    ensures FromOwnOpenPull(o, username, repos)
  {
    ConcatMember(OpenContributions(username, repos), o);
    var i :| 0 <= i < |repos| && o in RepoOpenPRs(username, repos[i]);
    var listings := repos[i].listing.value;
    ReviewedFrom(repos[i].fullName, AuthoredBy(listings, username), o);
    var l :| l in AuthoredBy(listings, username) && l.reviews.Ok?
             && o == ToOpenPR(repos[i].fullName, l.pull, l.reviews.value);
    AuthoredByMembers(listings, username, l);
    var j :| 0 <= j < |listings| && listings[j] == l;
  }

  lemma ReviewedStep(repo: string, own: seq<OpenListing>, j: nat)
    requires j < |own| && own[j].reviews.Ok?
    requires forall k :: 0 <= k < j ==> own[k].reviews.Ok?
    ensures Reviewed(repo, own[..j + 1])
            == Reviewed(repo, own[..j]) + [ToOpenPR(repo, own[j].pull, own[j].reviews.value)]
  {
    ReviewedAppend(repo, own[..j], [own[j]]);
    assert own[..j + 1] == own[..j] + [own[j]];
  }

  lemma ReviewedStop(repo: string, own: seq<OpenListing>, j: nat)
    requires j < |own| && own[j].reviews.Err?
    requires forall k :: 0 <= k < j ==> own[k].reviews.Ok?
    ensures Reviewed(repo, own) == Reviewed(repo, own[..j])
  {
    ReviewedAppend(repo, own[..j], own[j..]);
    assert own == own[..j] + own[j..];
  }

  lemma CollectOpenSnoc(username: string, repos: seq<OpenRepo>, i: nat)
    requires i < |repos|
    ensures CollectOpen(username, repos[..i + 1])
            == CollectOpen(username, repos[..i]) + RepoOpenPRs(username, repos[i])
  {
    assert OpenContributions(username, repos[..i + 1])
           == OpenContributions(username, repos[..i]) + [RepoOpenPRs(username, repos[i])];
    ConcatSnoc(OpenContributions(username, repos[..i]), RepoOpenPRs(username, repos[i]));
  }

  /** `getOpenPRs`: for each repository, list its open pull requests, keep the
      user's, fetch each one's reviews and push its record; a throw anywhere in a
      repository abandons the rest of that repository and keeps what was pushed. */
  method GetOpenPRs(username: string, repos: Result<seq<OpenRepo>>) returns (r: Result<seq<OpenPR>>)
    ensures repos.Err? ==> r == Err(repos.error)
    ensures r == OpenPRs(username, repos)
  {
    if repos.Err? {
      return Err(repos.error);
    }
    var all := repos.value;
    var openPRs: seq<OpenPR> := [];
    for i := 0 to |all|
      invariant openPRs == CollectOpen(username, all[..i])
    {
      var repo := all[i];
      ghost var before := openPRs;
      match repo.listing {
        case Err(_) =>
          assert RepoOpenPRs(username, repo) == [];
        case Ok(listings) =>
          var userPRs := AuthoredBy(listings, username);
          assert RepoOpenPRs(username, repo) == Reviewed(repo.fullName, userPRs);
          var j := 0;
          while j < |userPRs|
            invariant 0 <= j <= |userPRs|
            invariant forall k :: 0 <= k < j ==> userPRs[k].reviews.Ok?
            invariant openPRs == before + Reviewed(repo.fullName, userPRs[..j])
          {
            if userPRs[j].reviews.Err? {
              ReviewedStop(repo.fullName, userPRs, j);
              break;
            }
            ReviewedStep(repo.fullName, userPRs, j);
            openPRs := openPRs + [ToOpenPR(repo.fullName, userPRs[j].pull, userPRs[j].reviews.value)];
            j := j + 1;
          }
          assert userPRs[..|userPRs|] == userPRs;
          assert openPRs == before + Reviewed(repo.fullName, userPRs);
      }
      assert openPRs == before + RepoOpenPRs(username, repo);
      CollectOpenSnoc(username, all, i);
    }
    assert all[..|all|] == all;
    return Ok(openPRs);
  }

  // ---------------------------------------------------------------------------
  // Merged pull requests
  // ---------------------------------------------------------------------------

  /** The filter of the merged pass: the user's, merged, and merged strictly
      after the cutoff. */
  predicate InWindow(pull: Pull, username: string, cutoff: int) {
    pull.author == username && pull.mergedAt.Some? && pull.mergedAt.value.instant > cutoff
  }

  function MergedInWindow(pulls: seq<Pull>, username: string, cutoff: int): (r: seq<Pull>)
    ensures |r| <= |pulls|
    ensures forall k :: 0 <= k < |r| ==> InWindow(r[k], username, cutoff)
    decreases |pulls|
  {
    if pulls == [] then []
    else (if InWindow(pulls[0], username, cutoff) then [pulls[0]] else [])
         + MergedInWindow(pulls[1..], username, cutoff)
  }

  /** The filter keeps exactly the pull requests in the window. */
  lemma {:induction false} MergedInWindowMembers(pulls: seq<Pull>, username: string, cutoff: int, p: Pull)
    ensures p in MergedInWindow(pulls, username, cutoff) <==> p in pulls && InWindow(p, username, cutoff)
    decreases |pulls|
  {
    if pulls != [] {
      MergedInWindowMembers(pulls[1..], username, cutoff, p);
      assert pulls == [pulls[0]] + pulls[1..];
    }
  }

  /** The window filter keeps list order and repetitions: it distributes over
      concatenation of listings. */
  lemma {:induction false} MergedInWindowAppend(a: seq<Pull>, b: seq<Pull>, username: string, cutoff: int)
    ensures MergedInWindow(a + b, username, cutoff)
         == MergedInWindow(a, username, cutoff) + MergedInWindow(b, username, cutoff)
    decreases |a|
  {
    if a != [] {
      assert (a + b)[1..] == a[1..] + b;
      MergedInWindowAppend(a[1..], b, username, cutoff);
    } else {
      assert a + b == b;
    }
  }

  /** A repository's contribution to the merged pass, in list order. */
  function RepoMergedPRs(username: string, cutoff: int, repo: ClosedRepo): (r: seq<MergedPR>)
    ensures repo.listing.Err? ==> r == []
    ensures repo.listing.Ok? ==> |r| <= |repo.listing.value|
    ensures forall k :: 0 <= k < |r| ==> r[k].repo == repo.fullName && r[k].mergedAt.instant > cutoff
  {
    match repo.listing
    case Err(_) => []
    case Ok(pulls) =>
      var kept := MergedInWindow(pulls, username, cutoff);
      seq(|kept|, k requires 0 <= k < |kept| => ToMergedPR(repo.fullName, kept[k]))
  }

  function MergedContributions(username: string, cutoff: int, repos: seq<ClosedRepo>): seq<seq<MergedPR>> {
    seq(|repos|, i requires 0 <= i < |repos| => RepoMergedPRs(username, cutoff, repos[i]))
  }

  /** The contributions of the repositories, in enumeration order, before sorting. */
  function CollectMerged(username: string, cutoff: int, repos: seq<ClosedRepo>): seq<MergedPR> {
    Concat(MergedContributions(username, cutoff, repos))
  }

  /** The value `getMergedPRs` resolves to: the collected records sorted newest first. */
  function MergedPRs(username: string, cutoff: int, repos: Result<seq<ClosedRepo>>): (r: Result<seq<MergedPR>>)
    ensures r.Ok? <==> repos.Ok?
    ensures repos.Err? ==> r == Err(repos.error)
  {
    match repos
    case Err(e) => Err(e)
    case Ok(rs) => Ok(SortNewestFirst(CollectMerged(username, cutoff, rs)))
  }

  lemma CollectMergedAppend(username: string, cutoff: int, a: seq<ClosedRepo>, b: seq<ClosedRepo>)
    ensures CollectMerged(username, cutoff, a + b)
            == CollectMerged(username, cutoff, a) + CollectMerged(username, cutoff, b)
  {
    assert MergedContributions(username, cutoff, a + b)
           == MergedContributions(username, cutoff, a) + MergedContributions(username, cutoff, b);
    ConcatAppend(MergedContributions(username, cutoff, a), MergedContributions(username, cutoff, b));
  }

  /** A repository whose list call throws contributes nothing to the merged pass,
      and the repositories after it are still processed. */
  lemma FailedClosedRepoSkipped(username: string, cutoff: int, before: seq<ClosedRepo>,
                                repo: ClosedRepo, after: seq<ClosedRepo>)
    requires repo.listing.Err?
    ensures CollectMerged(username, cutoff, before + [repo] + after)
            == CollectMerged(username, cutoff, before) + CollectMerged(username, cutoff, after)
  {
    CollectMergedAppend(username, cutoff, before + [repo], after);
    CollectMergedAppend(username, cutoff, before, [repo]);
    assert MergedContributions(username, cutoff, [repo]) == [[]];
    ConcatSnoc<MergedPR>([], []);
  }

  /** `m` was built from a pull request of one of the repositories that is in
      the window. */
  ghost predicate FromPullInWindow(m: MergedPR, username: string, cutoff: int, repos: seq<ClosedRepo>) {
    exists i, j :: 0 <= i < |repos| && repos[i].listing.Ok? && 0 <= j < |repos[i].listing.value|
      && InWindow(repos[i].listing.value[j], username, cutoff)
      && m == ToMergedPR(repos[i].fullName, repos[i].listing.value[j])
  }

  lemma CollectedMergedInWindow(username: string, cutoff: int, repos: seq<ClosedRepo>, m: MergedPR)
    requires m in CollectMerged(username, cutoff, repos)
    ensures FromPullInWindow(m, username, cutoff, repos)
  {
    ConcatMember(MergedContributions(username, cutoff, repos), m);
    var i :| 0 <= i < |repos| && m in RepoMergedPRs(username, cutoff, repos[i]);
    var pulls := repos[i].listing.value;
    var kept := MergedInWindow(pulls, username, cutoff);
    var k :| 0 <= k < |kept| && m == ToMergedPR(repos[i].fullName, kept[k]);
    assert kept[k] in kept;
    MergedInWindowMembers(pulls, username, cutoff, kept[k]);
    var j :| 0 <= j < |pulls| && pulls[j] == kept[k];
  }

  /** What `getMergedPRs` promises: only the user's pull requests merged after
      the cutoff, newest first, every collected record exactly once, and
      records merged at the same instant in collection order. */
  lemma MergedPRsProperties(username: string, cutoff: int, repos: seq<ClosedRepo>)
    ensures var r := MergedPRs(username, cutoff, Ok(repos)).value;
            && SortedNewestFirst(r)
            && multiset(r) == multiset(CollectMerged(username, cutoff, repos))
            && (forall t :: MergedAt(r, t) == MergedAt(CollectMerged(username, cutoff, repos), t))
            && (forall m :: m in r ==> m.mergedAt.instant > cutoff && FromPullInWindow(m, username, cutoff, repos))
  {
    var c := CollectMerged(username, cutoff, repos);
    var r := SortNewestFirst(c);
    SortSortedPermutation(c);
    forall t ensures MergedAt(r, t) == MergedAt(c, t) {
      SortStable(c, t);
    }
    forall m | m in r ensures m.mergedAt.instant > cutoff && FromPullInWindow(m, username, cutoff, repos) {
      assert m in multiset(r);
      assert m in c;
      CollectedMergedInWindow(username, cutoff, repos, m);
    }
  }

  lemma CollectMergedSnoc(username: string, cutoff: int, repos: seq<ClosedRepo>, i: nat)
    requires i < |repos|
    ensures CollectMerged(username, cutoff, repos[..i + 1])
            == CollectMerged(username, cutoff, repos[..i]) + RepoMergedPRs(username, cutoff, repos[i])
  {
    assert MergedContributions(username, cutoff, repos[..i + 1])
           == MergedContributions(username, cutoff, repos[..i]) + [RepoMergedPRs(username, cutoff, repos[i])];
    ConcatSnoc(MergedContributions(username, cutoff, repos[..i]), RepoMergedPRs(username, cutoff, repos[i]));
  }

  /** `getMergedPRs`: for each repository, list its closed pull requests and push
      a record for each of the user's merged after the cutoff; then sort. */
  method GetMergedPRs(username: string, cutoff: int, repos: Result<seq<ClosedRepo>>)
    returns (r: Result<seq<MergedPR>>)
    ensures repos.Err? ==> r == Err(repos.error)
    ensures r == MergedPRs(username, cutoff, repos)
  {
    if repos.Err? {
      return Err(repos.error);
    }
    var all := repos.value;
    var mergedPRs: seq<MergedPR> := [];
    for i := 0 to |all|
      invariant mergedPRs == CollectMerged(username, cutoff, all[..i])
    {
      var repo := all[i];
      ghost var before := mergedPRs;
      match repo.listing {
        case Err(_) =>
        case Ok(pulls) =>
          var userMergedPRs := MergedInWindow(pulls, username, cutoff);
          for j := 0 to |userMergedPRs|
            invariant |mergedPRs| == |before| + j
            invariant mergedPRs[..|before|] == before
            invariant forall k :: 0 <= k < j ==>
                        mergedPRs[|before| + k] == ToMergedPR(repo.fullName, userMergedPRs[k])
          {
            mergedPRs := mergedPRs + [ToMergedPR(repo.fullName, userMergedPRs[j])];
          }
          assert mergedPRs == before + RepoMergedPRs(username, cutoff, repo);
      }
      CollectMergedSnoc(username, cutoff, all, i);
    }
    assert all[..|all|] == all;
    return Ok(SortNewestFirst(mergedPRs));
  }
}
