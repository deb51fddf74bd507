/**
 * The extraction loop of `api.py`: one count request, then one request per results
 * page, a one-minute pause before every 25th page, failed pages skipped and counted,
 * and the accumulated raw ads handed to `model_adzuna_ad_data`.
 *
 * The Adzuna server is a parameter: a function from the call's ordinal (0 for the
 * count request, p for the request of page p) and the request to the response, so
 * a server whose answers change between calls is covered. Waiting and fetching are
 * recorded as events in a trace.
 */
module Api {
  import opened Wrappers
  import opened PyText
  import opened Json
  import opened DataModels

  // ---------------------------------------------------------------------------
  // Requests: get_adzuna_ads_page
  // ---------------------------------------------------------------------------

  /** The part of the configuration the requests read. */
  datatype Config = Config(apiId: string, apiKey: string, apiUrl: string)

  /** The search arguments of `get_adzuna_ads`. */
  datatype Query = Query(what: string, where: string, distance: int, catTag: Option<string>)

  /** The query parameters of one request; the category is `None` for an empty tag. */
  datatype Params = Params(
    appId: string,
    appKey: string,
    what: string,
    where: string,
    distance: int,
    resultsPerPage: int,
    category: Option<string>)

  /** A GET request: the search endpoint, the page number its URL ends with, and the
      query parameters. */
  datatype Request = Request(endpoint: string, page: int, params: Params)

  const ResultsPerPage: int := 50

  const SearchPath: string := "/jobs/fr/search/"

  /** Everything in a page URL before the page number. */
  function Endpoint(conf: Config): string
  {
    conf.apiUrl + SearchPath
  }

  /** `cat_tag if cat_tag else None`: both `None` and the empty tag are falsy. */
  function Category(catTag: Option<string>): Option<string>
  {
    if catTag.Some? && catTag.value != "" then catTag else None
  }

  /** The text of a request's URL, `f"{conf['api_url']}/jobs/fr/search/{page}"`. */
  function Url(r: Request): string
  {
    r.endpoint + IntToText(r.page)
  }

  /** The request `get_adzuna_ads_page` sends for one page. */
  function PageRequest(conf: Config, q: Query, page: int): Request
  {
    Request(Endpoint(conf), page,
            Params(conf.apiId, conf.apiKey, q.what, q.where, q.distance, ResultsPerPage, Category(q.catTag)))
  }

  /** A page URL is the search endpoint followed by the page number, which it gives back. */
  lemma PageUrlNumber(conf: Config, q: Query, page: int)
    ensures var url := Url(PageRequest(conf, q, page));
      |Endpoint(conf)| < |url| && url[..|Endpoint(conf)|] == Endpoint(conf) &&
      TextToInt(url[|Endpoint(conf)|..]) == page
  {
    var url := Url(PageRequest(conf, q, page));
    assert url[|Endpoint(conf)|..] == IntToText(page);
    IntTextRoundTrip(page);
  }

  /** Different pages are requested at different URLs ... */
  lemma PageRequestInjective(conf: Config, q: Query, p1: int, p2: int)
    requires Url(PageRequest(conf, q, p1)) == Url(PageRequest(conf, q, p2))
    ensures p1 == p2
  {
    PageUrlNumber(conf, q, p1);
    PageUrlNumber(conf, q, p2);
  }

  /** ... with the same query parameters: 50 results per page and the category only
      when the tag is not empty. */
  lemma SameParamsOnEveryPage(conf: Config, q: Query, p1: int, p2: int)
    ensures PageRequest(conf, q, p1).params == PageRequest(conf, q, p2).params
    ensures var ps := PageRequest(conf, q, p1).params;
      && ps.appId == conf.apiId && ps.appKey == conf.apiKey
      && ps.what == q.what && ps.where == q.where && ps.distance == q.distance
      && ps.resultsPerPage == 50
      && (ps.category.None? <==> q.catTag.None? || q.catTag == Some(""))
      && (ps.category.Some? ==> ps.category == q.catTag)
  {
  }

  lemma PageUrlExample(q: Query)
    ensures Url(PageRequest(Config("id", "key", "https://api.adzuna.com/v1/api"), q, 3))
         == "https://api.adzuna.com/v1/api/jobs/fr/search/3"
  {
    assert IntToText(3) == "3" by {
      assert NatToText(3) == [DigitChar(3)];
    }
    var e := Endpoint(Config("id", "key", "https://api.adzuna.com/v1/api"));
    assert e == "https://api.adzuna.com/v1/api/jobs/fr/search/";
  }

  // ---------------------------------------------------------------------------
  // Responses
  // ---------------------------------------------------------------------------

  /** A response: `Failed` when `raise_for_status` or `json()` raises, else the body. */
  datatype Response = Failed | Ok(body: Json)

  /** What the loop passes the server: the call's ordinal and the request. */
  type Server = (nat, Request) -> Response

  /** `resp.json()["count"]`, when it is an integer that `// 50` and `range` accept. */
  function CountOf(resp: Response): Option<int>
  {
    if resp.Ok? && resp.body.Obj? && "count" in resp.body.fields && resp.body.fields["count"].Int?
    then Some(resp.body.fields["count"].i)
    else None
  }

  /** How one page request ends. */
  datatype PageOutcome =
    | Fetched(items: seq<Json>)  // the `results` list, appended to the accumulated ads
    | PageFailed                 // an exception inside the `try`: counted, then skipped
    | NotAList                   // `results` is not a list: `extend` raises outside the `try`

  function OutcomeOf(resp: Response): PageOutcome
  {
    if resp.Failed? || !resp.body.Obj? || "results" !in resp.body.fields then PageFailed
    else
      match resp.body.fields["results"]
      case List(items) => Fetched(items)
      case _ => NotAList
  }

  // ---------------------------------------------------------------------------
  // Page count and rate limiting
  // ---------------------------------------------------------------------------

  /** `n_ads // 50 + 1`. Python's floor division and Dafny's Euclidean `/` agree for
      the positive divisor 50. */
  function PageCount(nAds: int): (r: int)
    ensures 50 * (r - 1) <= nAds < 50 * r
  {
    nAds / 50 + 1
  }

  lemma PageCountExamples()
    ensures PageCount(2500) == 51 && PageCount(2450) == 50
    ensures PageCount(0) == 1 && PageCount(49) == 1 && PageCount(50) == 2
  {
  }

  /** A non-negative count always gives at least one page, and when the count is a
      multiple of 50 the last page lies past the last ad. */
  lemma PageCountBounds(nAds: int)
    requires nAds >= 0
    ensures PageCount(nAds) >= 1
    ensures nAds % 50 == 0 ==> 50 * (PageCount(nAds) - 1) == nAds
    ensures nAds % 50 != 0 ==> 50 * (PageCount(nAds) - 1) < nAds
  {
  }

  /** `page != 1 and page % 25 == 1`: the pages preceded by a one-minute pause. */
  predicate IsCooldownPage(page: int)
  {
    page != 1 && page % 25 == 1
  }

  /** The page after the m-th block of 25 pages. */
  function BlockStart(m: int): int
  {
    25 * m + 1
  }

  /** The pause comes before pages 26, 51, 76, ..., that is when `(page - 1) % 25 == 0`
      for a page past the first. */
  lemma CooldownPages(page: int)
    requires page >= 1
    ensures IsCooldownPage(page) <==> page > 1 && (page - 1) % 25 == 0
    ensures IsCooldownPage(page) <==> exists m :: m >= 1 && BlockStart(m) == page
  {
    if IsCooldownPage(page) {
      assert BlockStart((page - 1) / 25) == page;
    }
  }

  lemma CooldownExamples()
    ensures !IsCooldownPage(1) && !IsCooldownPage(25) && IsCooldownPage(26)
    ensures !IsCooldownPage(50) && IsCooldownPage(51) && IsCooldownPage(76)
  {
  }

  // ---------------------------------------------------------------------------
  // The page loop, page by page
  // ---------------------------------------------------------------------------

  /** What `get_adzuna_ads` observably does. */
  datatype Event =
    | CountQuery(req: Request)      // the count request
    | Cooldown(page: int)           // the one-minute pause before a page
    | Fetch(page: int)              // the request of one page, PageRequest of that page

  /** How the request of page `page` ends. */
  function Outcome(conf: Config, q: Query, server: Server, page: nat): PageOutcome
  {
    OutcomeOf(server(page, PageRequest(conf, q, page)))
  }

  /** The events of one loop iteration. */
  function PageEvents(page: int): seq<Event>
  {
    (if IsCooldownPage(page) then [Cooldown(page)] else []) + [Fetch(page)]
  }

  /** The events of pages 1 to k. */
  function Trace(k: int): (t: seq<Event>)
    ensures k >= 1 ==> |t| > 0 && t[|t| - 1] == Fetch(k)
    ensures k <= 0 <==> t == []
    decreases k
  {
    if k <= 0 then [] else Trace(k - 1) + PageEvents(k)
  }

  /** The ads accumulated over pages 1 to k. */
  function Gathered(conf: Config, q: Query, server: Server, k: int): seq<Json>
    decreases k
  {
    if k <= 0 then []
    else
      Gathered(conf, q, server, k - 1) +
      match Outcome(conf, q, server, k)
      case Fetched(items) => items
      case _ => []
  }

  /** The errors counted over pages 1 to k. */
  function Failures(conf: Config, q: Query, server: Server, k: int): nat
    decreases k
  {
    if k <= 0 then 0
    else Failures(conf, q, server, k - 1) + if Outcome(conf, q, server, k).PageFailed? then 1 else 0
  }

  /** The first page among 1 to k whose `results` is not a list. */
  function FirstNotAList(conf: Config, q: Query, server: Server, k: int): Option<nat>
    decreases k
  {
    if k <= 0 then None
    else
      var earlier := FirstNotAList(conf, q, server, k - 1);
      if earlier.Some? then earlier
      else if Outcome(conf, q, server, k).NotAList? then Some(k)
      else None
  }

  // ---------------------------------------------------------------------------
  // get_adzuna_ads
  // ---------------------------------------------------------------------------

  /** Why `get_adzuna_ads` raises. */
  datatype Raise =
    | CountUnavailable                       // the count request failed or gave no integer
    | ResultsNotAList(page: int)             // `extend` on a `results` that is not a list
    | InvalidAds(error: BatchError<AdError>) // `model_adzuna_ad_data` raised

  /** `model_adzuna_ad_data` on the accumulated ads, its exception passed on. */
  function Modelled(ads: seq<Json>): Result<seq<AdzunaAd>, Raise>
  {
    match ModelAdzunaAdData(ads)
    case Success(v) => Success(v)
    case Failure(e) => Failure(InvalidAds(e))
  }

  /** `get_adzuna_ads`: the ads it returns or the exception it raises, the events it
      produces, the number of pages and the number of errors (the summary it logs is
      `nPages - errors`). */
  method GetAdzunaAds(conf: Config, q: Query, server: Server)
    returns (ads: Result<seq<AdzunaAd>, Raise>, trace: seq<Event>, nPages: int, errors: nat)
    ensures var first := PageRequest(conf, q, 1);
      CountOf(server(0, first)).None? ==>
        ads == Failure(CountUnavailable) && trace == [CountQuery(first)] && nPages == 0 && errors == 0
    ensures var first := PageRequest(conf, q, 1);
      CountOf(server(0, first)).Some? ==>
        && nPages == PageCount(CountOf(server(0, first)).value)
        && match FirstNotAList(conf, q, server, nPages)
           case Some(p) =>
             && ads == Failure(ResultsNotAList(p))
             && trace == [CountQuery(first)] + Trace(p)
             && errors == Failures(conf, q, server, p - 1)
           case None =>
             && ads == Modelled(Gathered(conf, q, server, nPages))
             && trace == [CountQuery(first)] + Trace(nPages)
             && errors == Failures(conf, q, server, nPages)
  {
    var first := PageRequest(conf, q, 1);
    var count := CountOf(server(0, first));
    if count.None? {
      return Failure(CountUnavailable), [CountQuery(first)], 0, 0;
    }
    nPages := PageCount(count.value);
    var collected, pages, stopped;
    collected, pages, errors, stopped := FetchPages(conf, q, server, nPages);
    trace := [CountQuery(first)] + pages;
    if stopped.Some? {
      ads := Failure(ResultsNotAList(stopped.value));
    } else {
      ads := Modelled(collected);
    }
  }

  /** The `for page in range(1, n_pages + 1)` loop: the ads accumulated, the events, the
      errors counted, and the page at which `extend` raised, if any. */
  method FetchPages(conf: Config, q: Query, server: Server, nPages: int)
    returns (collected: seq<Json>, trace: seq<Event>, errors: nat, stopped: Option<nat>)
    ensures stopped == FirstNotAList(conf, q, server, nPages)
    ensures stopped.Some? ==>
      && collected == Gathered(conf, q, server, stopped.value - 1)
      && trace == Trace(stopped.value)
      && errors == Failures(conf, q, server, stopped.value - 1)
    ensures stopped.None? ==>
      && collected == Gathered(conf, q, server, nPages)
      && trace == Trace(nPages)
      && errors == Failures(conf, q, server, nPages)
  {
    collected, trace, errors := [], [], 0;
    var page: nat := 1;
    while page <= nPages
      invariant page == 1 || page <= nPages + 1
      invariant FirstNotAList(conf, q, server, page - 1).None?
      invariant collected == Gathered(conf, q, server, page - 1)
      invariant errors == Failures(conf, q, server, page - 1)
      invariant trace == Trace(page - 1)
      decreases nPages - page
    {
      var aborted;
      collected, trace, errors, aborted := VisitPage(conf, q, server, page, collected, trace, errors);
      if aborted {
        FirstNotAListStable(conf, q, server, page, nPages);
        return collected, trace, errors, Some(page);
      }
      page := page + 1;
    }
    if nPages < 0 {
      NoPages(conf, q, server, nPages);
    } else {
      assert page - 1 == nPages;
    }
    stopped := None;
  }

  /** One iteration of the loop: the pause if due, the request of the page, and the
      page's results appended or its failure counted; `aborted` when `extend` raises,
      which leaves the ads and the counter as they were. */
  method VisitPage(conf: Config, q: Query, server: Server, page: nat,
                   collected: seq<Json>, trace: seq<Event>, errors: nat)
    returns (collected': seq<Json>, trace': seq<Event>, errors': nat, aborted: bool)
    requires page >= 1 && FirstNotAList(conf, q, server, page - 1).None?
    requires collected == Gathered(conf, q, server, page - 1)
    requires trace == Trace(page - 1)
    requires errors == Failures(conf, q, server, page - 1)
    ensures trace' == Trace(page)
    ensures aborted <==> FirstNotAList(conf, q, server, page) == Some(page)
    ensures aborted ==> collected' == collected && errors' == errors
    ensures !aborted ==>
      && FirstNotAList(conf, q, server, page).None?
      && collected' == Gathered(conf, q, server, page)
      && errors' == Failures(conf, q, server, page)
  {
    trace' := trace;
    if IsCooldownPage(page) {
      trace' := trace' + [Cooldown(page)];
    }
    trace' := trace' + [Fetch(page)];
    assert trace' == trace + PageEvents(page);
    LoopStep(conf, q, server, page);
    // the response to the request of this page, PageRequest(conf, q, page)
    var outcome := Outcome(conf, q, server, page);
    collected', errors', aborted := collected, errors, false;
    if outcome.NotAList? {
      aborted := true;
    } else if outcome.Fetched? {
      collected' := collected + outcome.items;
    } else {
      errors' := errors + 1;
    }
  }

  /** A count that gives no page leaves everything empty. */
  lemma NoPages(conf: Config, q: Query, server: Server, k: int)
    requires k <= 0
    ensures Gathered(conf, q, server, k) == [] && Trace(k) == [] && Failures(conf, q, server, k) == 0
    ensures FirstNotAList(conf, q, server, k).None?
  {
  }

  /** What one more page adds to the trace, the accumulated ads and the error count. */
  lemma LoopStep(conf: Config, q: Query, server: Server, page: nat)
    requires page >= 1
    ensures Trace(page) == Trace(page - 1) + PageEvents(page)
    ensures var o := Outcome(conf, q, server, page);
      && (o.Fetched? ==> Gathered(conf, q, server, page) == Gathered(conf, q, server, page - 1) + o.items)
      && (!o.Fetched? ==> Gathered(conf, q, server, page) == Gathered(conf, q, server, page - 1))
      && Failures(conf, q, server, page) == Failures(conf, q, server, page - 1) + (if o.PageFailed? then 1 else 0)
      && (FirstNotAList(conf, q, server, page - 1).None? ==>
            FirstNotAList(conf, q, server, page) == if o.NotAList? then Some(page) else None)
  {
  }

  /** FirstNotAList finds the first such page, and finds none when there is none. */
  lemma {:induction false} FirstNotAListIsFirst(conf: Config, q: Query, server: Server, k: int)
    ensures var r := FirstNotAList(conf, q, server, k);
      r.Some? ==>
        && 1 <= r.value <= k
        && Outcome(conf, q, server, r.value).NotAList?
        && forall p: nat :: 1 <= p < r.value ==> !Outcome(conf, q, server, p).NotAList?
    ensures FirstNotAList(conf, q, server, k).None? ==>
      forall p: nat :: 1 <= p <= k ==> !Outcome(conf, q, server, p).NotAList?
    decreases k
  {
    if k > 0 {
      FirstNotAListIsFirst(conf, q, server, k - 1);
    }
  }

  /** Once found, the first page whose `results` is not a list stays the first. */
  lemma {:induction false} FirstNotAListStable(conf: Config, q: Query, server: Server, p: int, k: int)
    requires 1 <= p <= k
    requires FirstNotAList(conf, q, server, p) == Some(p)
    ensures FirstNotAList(conf, q, server, k) == Some(p)
    decreases k
  {
    if k > p {
      FirstNotAListStable(conf, q, server, p, k - 1);
    }
  }

  // ---------------------------------------------------------------------------
  // Properties of the page loop
  // ---------------------------------------------------------------------------

  /** The pages of the fetch events of a trace, in order. */
  function FetchedPages(t: seq<Event>): seq<int>
  {
    if t == [] then []
    else (if t[0].Fetch? then [t[0].page] else []) + FetchedPages(t[1..])
  }

  lemma {:induction false} FetchedPagesConcat(a: seq<Event>, b: seq<Event>)
    ensures FetchedPages(a + b) == FetchedPages(a) + FetchedPages(b)
  {
    if a == [] {
      assert a + b == b;
    } else {
      var head := if a[0].Fetch? then [a[0].page] else [];
      assert (a + b)[0] == a[0];
      assert (a + b)[1..] == a[1..] + b;
      FetchedPagesConcat(a[1..], b);
      assert FetchedPages(a + b) == head + (FetchedPages(a[1..]) + FetchedPages(b));
      assert FetchedPages(a) == head + FetchedPages(a[1..]);
    }
  }

  /** Pages 1 to k are requested in ascending order, each once. */
  lemma {:induction false} PagesInOrder(k: int)
    requires k >= 0
    ensures FetchedPages(Trace(k)) == PagesUpTo(k)
    decreases k
  {
    if k > 0 {
      PagesInOrder(k - 1);
      FetchedPagesConcat(Trace(k - 1), PageEvents(k));
      PageEventsFetch(k);
    }
  }

  /** One iteration requests exactly its own page. */
  lemma PageEventsFetch(k: int)
    ensures FetchedPages(PageEvents(k)) == [k]
  {
    var f := [Fetch(k)];
    assert FetchedPages(f) == [k] by {
      assert f[1..] == [];
    }
    if IsCooldownPage(k) {
      var pe := PageEvents(k);
      assert pe[1..] == f;
    }
  }

  /** The pages 1 to k, in order. */
  function PagesUpTo(k: int): (r: seq<int>)
    ensures |r| == (if k < 0 then 0 else k) && forall i :: 0 <= i < |r| ==> r[i] == i + 1
    decreases k
  {
    if k <= 0 then [] else PagesUpTo(k - 1) + [k]
  }

  /** Every pause in t comes right before the request of its page. */
  predicate PausesFollowed(t: seq<Event>)
  {
    forall i :: 0 <= i < |t| && t[i].Cooldown? ==>
      i + 1 < |t| && t[i + 1] == Fetch(t[i].page)
  }

  lemma PausesFollowedConcat(a: seq<Event>, b: seq<Event>)
    requires PausesFollowed(a) && PausesFollowed(b)
    requires a == [] || !a[|a| - 1].Cooldown?
    ensures PausesFollowed(a + b)
  {
    var t := a + b;
    forall i | 0 <= i < |t| && t[i].Cooldown?
      ensures i + 1 < |t| && t[i + 1] == Fetch(t[i].page)
    {
      if i < |a| {
        assert t[i] == a[i] && i + 1 < |a| && t[i + 1] == a[i + 1];
      } else {
        assert t[i] == b[i - |a|] && t[i + 1] == b[i + 1 - |a|];
      }
    }
  }

  /** The pause rule, first half: every pause comes right before the request of its page. */
  lemma {:induction false} PauseBeforeItsPage(k: int)
    ensures PausesFollowed(Trace(k))
    decreases k
  {
    if k > 0 {
      PauseBeforeItsPage(k - 1);
      var pe := PageEvents(k);
      assert PausesFollowed(pe) by {
        if IsCooldownPage(k) {
          assert pe == [Cooldown(k), Fetch(k)];
        } else {
          assert pe == [Fetch(k)];
        }
      }
      PausesFollowedConcat(Trace(k - 1), pe);
    }
  }

  /** The pause rule, second half: among pages 1 to k, a pause happens for exactly the
      pages the rule names. */
  lemma {:induction false} PausedExactlyWhenRuled(k: int, page: int)
    ensures Cooldown(page) in Trace(k) <==> 1 <= page <= k && IsCooldownPage(page)
    decreases k
  {
    if k > 0 {
      PausedExactlyWhenRuled(k - 1, page);
      var pe := PageEvents(k);
      assert Trace(k) == Trace(k - 1) + pe;
      assert Cooldown(page) in pe <==> page == k && IsCooldownPage(k) by {
        if IsCooldownPage(k) {
          assert pe == [Cooldown(k), Fetch(k)];
        } else {
          assert pe == [Fetch(k)];
        }
      }
    }
  }

  /** An ad is accumulated exactly when it is in the `results` list of a page among 1
      to k that was fetched. */
  lemma {:induction false} GatheredFromFetchedPages(conf: Config, q: Query, server: Server, k: int, ad: Json)
    ensures ad in Gathered(conf, q, server, k) <==> exists p: nat :: FetchedAt(conf, q, server, k, p, ad)
    decreases k
  {
    if k > 0 {
      GatheredFromFetchedPages(conf, q, server, k - 1, ad);
      var o := Outcome(conf, q, server, k);
      var before := Gathered(conf, q, server, k - 1);
      var here := if o.Fetched? then o.items else [];
      assert Gathered(conf, q, server, k) == before + here;
      if ad in before {
        var p: nat :| FetchedAt(conf, q, server, k - 1, p, ad);
        assert FetchedAt(conf, q, server, k, p, ad);
      } else if ad in here {
        assert FetchedAt(conf, q, server, k, k, ad);
      } else {
        forall p: nat | FetchedAt(conf, q, server, k, p, ad) ensures false {
          if p < k {
            assert FetchedAt(conf, q, server, k - 1, p, ad);
          }
        }
      }
    } else {
      forall p: nat | FetchedAt(conf, q, server, k, p, ad) ensures false {
      }
    }
  }

  /** Page p is among 1 to k, was fetched, and listed the ad. */
  predicate FetchedAt(conf: Config, q: Query, server: Server, k: int, p: nat, ad: Json)
  {
    1 <= p <= k && Outcome(conf, q, server, p).Fetched? && ad in Outcome(conf, q, server, p).items
  }

  /** Every page failure is tolerated: when the request of every page among 1 to k
      fails, each is counted, nothing is gathered, and the loop does not abort. */
  lemma {:induction false} AllPagesFailTolerated(conf: Config, q: Query, server: Server, k: int)
    requires forall p: nat :: 1 <= p <= k ==> server(p, PageRequest(conf, q, p)).Failed?
    ensures Failures(conf, q, server, k) == (if k < 0 then 0 else k)
    ensures Gathered(conf, q, server, k) == []
    ensures FirstNotAList(conf, q, server, k).None?
    decreases k
  {
    if k > 0 {
      AllPagesFailTolerated(conf, q, server, k - 1);
    }
  }

  /** The pages among 1 to k that failed. */
  function FailedPages(conf: Config, q: Query, server: Server, k: int): set<nat>
  {
    set p: nat | 1 <= p <= k && Outcome(conf, q, server, p).PageFailed?
  }

  /** The error counter counts the failed pages. */
  lemma {:induction false} FailuresCountFailedPages(conf: Config, q: Query, server: Server, k: int)
    ensures Failures(conf, q, server, k) == |FailedPages(conf, q, server, k)|
    decreases k
  {
    if k <= 0 {
      assert FailedPages(conf, q, server, k) == {};
    } else {
      FailuresCountFailedPages(conf, q, server, k - 1);
      var before, now := FailedPages(conf, q, server, k - 1), FailedPages(conf, q, server, k);
      var failed := Outcome(conf, q, server, k).PageFailed?;
      assert forall p :: p in now <==> p in before || (p == k && failed);
      if failed {
        assert now == before + {k};
        assert k !in before;
      } else {
        assert now == before;
      }
    }
  }

  /** The logged number of processed pages lies between 0 and the number of pages. */
  lemma {:induction false} ProcessedBounds(conf: Config, q: Query, server: Server, k: int)
    requires k >= 0
    ensures 0 <= k - Failures(conf, q, server, k) <= k
    decreases k
  {
    if k > 0 {
      ProcessedBounds(conf, q, server, k - 1);
    }
  }

  /** With ten pages of which only page 7 fails, nine pages are reported processed. */
  lemma OnePageOfTenFails(conf: Config, q: Query, server: Server)
    requires forall p: nat :: 1 <= p <= 10 ==>
      && (Outcome(conf, q, server, p).PageFailed? <==> p == 7)
      && !Outcome(conf, q, server, p).NotAList?
    ensures FirstNotAList(conf, q, server, 10).None?
    ensures 10 - Failures(conf, q, server, 10) == 9
  {
    FirstNotAListIsFirst(conf, q, server, 10);
    FailuresCountFailedPages(conf, q, server, 10);
    assert FailedPages(conf, q, server, 10) == {7};
  }
}
