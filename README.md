# Adzuna job-ad extraction, modelled in Dafny

This project models the core of a small scraper for the Adzuna job-search API.

`api.py` asks the API for the number of ads matching a search and derives a number of
result pages (`n_ads // 50 + 1`). It then walks pages 1 to `n_pages` in order:
- before page 26, 51, 76, … it pauses for a minute to stay under the API's rate limit;
- every exception while fetching a page is counted and the page is skipped;
- the `results` of the other pages are appended to one list of raw ads.

At the end that list is handed to `model_adzuna_ad_data` (`data_models.py`). It
flattens each raw ad into the 18 fields of the `AdzunaAd` schema (`filter_adzuna_ad`)
and validates the lot. `is_internship` tells internship and work-study ads apart by
their title.

Modules, one concept each:

- `Wrappers` (`wrappers.dfy`): the `Option` and `Result` datatypes.
- `PyText` (`pytext.dfy`): Python's `str()` of an integer with its inverse, and the
  `in` operator on strings.
- `Json` (`json.dfy`): the decoded JSON values the API returns, `dict.get`, and `str()`
  of a value.
- `DataModels` (`datamodels.dfy`):
  - the `AdzunaAd` schema, with which fields are required and of which type;
  - validation, `AdzunaAd(**record)`, and `model_dump`, stated as inverses of each other;
  - `filter_adzuna_ad`, `model_adzuna_ad_data` and `is_internship`;
  - the properties of these.
- `Api` (`api.py` in `api.dfy`):
  - the request each page is fetched with, and the page count and cooldown rule;
  - `get_adzuna_ads` as a method with a `while` loop. It is proved against reference
    functions of the page number: the trace of events up to page k, the ads gathered
    up to page k, and the errors counted up to page k;
  - the properties of those functions.

The Adzuna server is a parameter `server: (nat, Request) -> Response`. Call 0 is the
count request; call p is the request of page p. The answers may therefore differ
between the count request and the request of page 1, which go to the same URL. A
response is `Failed` (an HTTP error, a transport error or an undecodable body) or
`Ok` with a decoded JSON body. The minute-long pause and each page request are
recorded as `Cooldown(p)` and `Fetch(p)` events in a trace that the method returns.

Behaviour of the code that is easy to misread:

- `filter_adzuna_ad` is not total. It defaults a missing `location`, `company` or
  `category` to `{}`, but a present value that is not an object (JSON `null`, say)
  has no `.get`, and the call raises. `FilterAdzunaAd` returns the first such key as
  its error.
- A raw ad that fails validation is not dropped on its own. `model_adzuna_ad_data` is
  one list comprehension, run once after the loop and outside the `try`. The first
  invalid entry makes the whole `get_adzuna_ads` call raise, and the failure is not
  counted as a page error (`Api.GetAdzunaAds`, `DataModels.ModelAdzunaAdData`).
- The required fields are the 11 fields not declared `Optional`: `title`, `created`,
  `salary_is_predicted`, `area`, `location`, `id`, `adref`, `redirect_url`,
  `description`, `label` and `tag`.
- The request path is `{api_url}/jobs/fr/search/{page}`.

Further behaviour the model keeps:

- A count that is an exact multiple of 50 gives one page more than the ads fill, and a
  count of 0 still fetches page 1 (`Api.PageCountBounds`).
- A negative integer count gives a page count of 0 or less. No page is then fetched,
  the result is the empty list, and the logged summary can be negative.
- The count request is outside the `try`. If it fails, or `count` is missing or not an
  integer, the call raises before any page is requested.
- A page is counted as an error when:
  - the request fails;
  - the body is not an object;
  - the body has no `results`.
- A page whose `results` is null or a number makes `extend` raise outside the `try`.
  That aborts the loop at that page (`NotAList`, `ResultsNotAList`).
- An entry of `results` that is not an object fails at its first `.get`
  (`NotAnObject`).

## Model

| member | source | states |
|---|---|---|
| Api.Url | api.py:50 | definition without a contract: the URL text, the endpoint followed by `str(page)` |
| Api.PageRequest | api.py:50-59 | definition without a contract: the URL and the parameter dict of a page request |
| Api.IsCooldownPage | api.py:103 | definition without a contract: `page != 1 and page % 25 == 1` |
| DataModels.KindOf | data_models.py:17-42 | definition without a contract: the declared type of each field |
| DataModels.Required | data_models.py:17-42 | definition without a contract: the fields not declared `Optional` |
| DataModels.FlattenField | data_models.py:47-66 | definition without a contract: one entry of the dict literal |
| DataModels.Build | data_models.py:11-42 | definition without a contract: the ad built from a conforming dict; its properties are stated by Validate and DumpBuild |
| PyText.IntToText | data_models.py:57 | `str()` of an int is non-empty and starts with a minus sign exactly when the int is negative |
| PyText.NatToText | api.py:50 | the decimal text of a page number is non-empty, all digits, without a leading zero |
| PyText.IntTextRoundTrip | data_models.py:57 | `str()` of an int loses nothing: reading the text back gives the int |
| PyText.IntTextInjective | data_models.py:57 | different ints have different `str()` texts |
| PyText.Contains | data_models.py:76-79 | `t in s` holds iff t occurs in s at some position, compared character by character |
| Json.Get | data_models.py:48-54 | definition without a contract: `d.get(k)`, the value under k or null |
| Json.GetOr | data_models.py:55-57 | definition without a contract: `d.get(k, default)` |
| Json.PyStr | data_models.py:57 | `str(v)` returns a string value unchanged, reads back to the number for an int, and gives "None" for null |
| DataModels.DeclaredIsComplete | data_models.py:17-42 | the declaration order lists every one of the 18 fields |
| DataModels.KeyNamedName | data_models.py:47-66 | each field's key names that field and no other |
| DataModels.NamesDistinct | data_models.py:47-66 | the 18 keys of the flattened dict are pairwise distinct |
| DataModels.Validate | data_models.py:11-42 | `AdzunaAd(**rec)` succeeds iff every field is supplied and either null and optional or of its declared type; the built ad dumps back to rec; a failure names exactly the failing fields, and at least one |
| DataModels.DumpConforms | data_models.py:11-42 | every dumped ad satisfies its own schema |
| DataModels.DumpBuild | data_models.py:11-42 | building an ad from a conforming dict and dumping it gives the dict back |
| DataModels.ValidateDump | data_models.py:11-42 | validating the dump of an ad gives the same ad back |
| DataModels.DumpInjective | data_models.py:11-42 | different ads have different dumps |
| DataModels.NestedDict | data_models.py:55 | definition without a contract: `ad.get(parent, {})` where `.get` is then called on it; a present non-object raises, naming `parent` |
| DataModels.FilterAdzunaAd | data_models.py:45-66 | the flattening succeeds iff `location`, `company` and `category` are each absent or an object; otherwise it fails naming the first offender in reading order; on success each of the 18 fields is present and read along its own path |
| DataModels.FlattenMatchesSources | data_models.py:47-66 | each entry of the dict literal reads the path assigned to its field |
| DataModels.PresentPathCopied | data_models.py:48-65 | a value present at a field's top-level key or nested key is taken over unchanged |
| DataModels.MissingPathGivesNull | data_models.py:48-65 | a missing top-level key, nested object or nested key makes the field null instead of raising |
| DataModels.MissingRequiredFails | data_models.py:17-42 | an ad missing the source of a required field is rejected by validation, which names that field |
| DataModels.BuiltIffRequiredPresent | data_models.py:17-42 | when every value is null or well-typed, an ad is built iff no required field is null |
| DataModels.IdIsAlwaysText | data_models.py:57 | the normalised id is always a string: "" without an id, a string id unchanged, an int id as text that reads back to it |
| DataModels.NumericAndTextualIdAgree | data_models.py:57 | `filter_adzuna_ad` of an ad whose id is 12345, and of one whose id is "12345", both succeed with id "12345" |
| DataModels.IdNeverFails | data_models.py:57 | a string id always passes validation, so whether a record conforms is decided by the other fields |
| DataModels.FilterWithoutId | data_models.py:57 | dropping `id` from a raw ad changes its flattened dict only at id, which becomes "" |
| DataModels.WithoutIdConforms | data_models.py:57 | a raw ad without `id` passes validation exactly when it does with its id |
| DataModels.WithoutIdValidates | data_models.py:57 | without `id`, validation builds the same ad with an empty id |
| DataModels.MissingIdStillParses | data_models.py:57 | a raw ad without `id` is accepted iff it is accepted with one, and then yields the same ad with id "" |
| DataModels.FilterWithoutCompany | data_models.py:60 | a missing `company` object gives a null company and leaves every other field as a named company would |
| DataModels.CompanyIsOptional | data_models.py:33-35 | a missing company never causes a rejection: the ad is accepted iff it is with a named company, and then has no company |
| DataModels.ParseAd | data_models.py:71 | `AdzunaAd(**filter_adzuna_ad(ad))` succeeds iff the flattening succeeds and its dict conforms, and the ad then dumps to that dict; a failing flattening gives `NotADict` with the key it names, and only it does; a dict that does not conform gives `Invalid` with validation's list of failing fields |
| DataModels.InvalidAdNamesFailingFields | data_models.py:71 | a validation failure names exactly the failing fields of the flattened dict, and at least one |
| DataModels.Sequence | data_models.py:71 | a list comprehension gives all values in order iff no element raises, and otherwise the first element that raises, with its exception |
| DataModels.ParseEntry | data_models.py:71 | definition without a contract: one entry of the comprehension; a non-object fails at its first `.get`, an object is parsed by ParseAd |
| DataModels.Parsed | data_models.py:71 | definition without a contract: the entries of the comprehension, each parsed |
| DataModels.ModelAdzunaAdData | data_models.py:69-71 | the list succeeds iff every entry parses; then ad i comes from entry i and the length is kept; otherwise the error is the first failing entry, with its cause |
| DataModels.IsInternship | data_models.py:74-79 | the test holds iff the title contains one of "alternance", "Alternance", "stage", "Stage" |
| DataModels.InternshipTitles | data_models.py:74-79 | "Data analyst en alternance" and "Stage" are internships; "STAGE" is not, since the test is case-sensitive |
| Api.Category | api.py:58 | definition without a contract: `cat_tag if cat_tag else None`; its rule is stated by SameParamsOnEveryPage |
| Api.PageUrlNumber | api.py:50 | a page URL is the search endpoint `{api_url}/jobs/fr/search/` followed by text that reads back to the page number |
| Api.PageRequestInjective | api.py:50 | different pages are requested at different URLs |
| Api.SameParamsOnEveryPage | api.py:51-59 | every page is requested with the same parameters: the configured id and key, the search arguments, 50 results per page, and the category rule |
| Api.PageUrlExample | api.py:50 | page 3 of `https://api.adzuna.com/v1/api` is `https://api.adzuna.com/v1/api/jobs/fr/search/3` |
| Api.CountOf | api.py:97 | definition without a contract: `resp.json()["count"]` when the response succeeded and `count` is an int; every other case raises outside the `try` |
| Api.OutcomeOf | api.py:108-116 | definition without a contract: how one page request ends (results appended, error counted, or `extend` raising); its consequences are stated by AllPagesFailTolerated, LoopStep and FetchPages |
| Api.PageCount | api.py:99 | the page count r is the one with 50·(r−1) ≤ n_ads < 50·r |
| Api.PageCountExamples | api.py:99 | 2500 ads give 51 pages, 2450 give 50, 0 and 49 give 1, 50 give 2 |
| Api.PageCountBounds | api.py:99 | a non-negative count gives at least one page; exactly for multiples of 50, the last page starts past the last ad |
| Api.CooldownPages | api.py:103 | a page after the first is preceded by a pause iff `(page − 1) % 25 == 0`, that is iff it starts a new block of 25 pages |
| Api.CooldownExamples | api.py:103 | no pause before pages 1, 25 and 50; a pause before 26, 51 and 76 |
| Api.Trace | api.py:102-110 | the events of pages 1 to k end with the fetch of page k, and are empty iff no page is walked |
| Api.FetchPages | api.py:102-116 | the loop stops at the first page whose `results` is not a list and otherwise runs to the last page; its events are those of the pages it walked, and its error count and gathered ads are those of the pages before the abort, or of all pages |
| Api.VisitPage | api.py:103-116 | one iteration adds the pause if due and the fetch of its page to the trace, then appends the page's results, counts its failure, or reports the abort with the ads and the counter unchanged |
| Api.GetAdzunaAds | api.py:67-121 | without a usable count only the count request happens and the call raises; otherwise it walks `PageCount(count)` pages as FetchPages does, and returns the abort, or `model_adzuna_ad_data` of the gathered ads, with the events and the error count |
| Api.NoPages | api.py:102 | with no page to walk, nothing is fetched, gathered or counted |
| Api.FirstNotAListIsFirst | api.py:116 | the page the loop aborts at is the first page whose `results` is not a list, and without an abort no page has such a `results` |
| Api.PagesInOrder | api.py:102-110 | pages 1 to k are requested in ascending order, each exactly once |
| Api.PageEventsFetch | api.py:103-110 | one iteration requests exactly its own page |
| Api.PauseBeforeItsPage | api.py:103-110 | every pause is immediately followed by the request of the page it was for |
| Api.PausedExactlyWhenRuled | api.py:102-107 | among pages 1 to k, a pause happens before a page iff the page satisfies `page != 1 and page % 25 == 1` |
| Api.GatheredFromFetchedPages | api.py:115-116 | a raw ad is accumulated iff it is in the `results` of a page among 1 to k that succeeded |
| Api.LoopStep | api.py:108-116 | one more page appends its `results` after the earlier pages' ads when it succeeds and adds nothing otherwise, adds one to the error count exactly when it fails, and is the abort page exactly when its `results` is not a list |
| Api.AllPagesFailTolerated | api.py:108-114 | when every page request among 1 to k fails, every failure is counted, nothing is gathered and the loop does not abort |
| Api.FailuresCountFailedPages | api.py:112-114 | the error counter equals the number of pages among 1 to k that failed |
| Api.ProcessedBounds | api.py:119 | the logged number of processed pages, `n_pages − errors`, lies between 0 and `n_pages` |
| Api.OnePageOfTenFails | api.py:119 | with ten pages of which only page 7 fails and none aborts the loop, the loop reaches the summary log and 9 pages are reported processed |

## Left out

- HTTP I/O (`client.get`, `raise_for_status`, `resp.json()`, `create_client`): the server is a parameter from the call and the request to a `Response`. A failure is one `Failed` value, whatever its exception; `except BaseException` makes exception kinds irrelevant.
- The `ua` configuration entry and the client it configures are not modelled; the configuration read by `configure` is the `Config` parameter.
- The minute-long wait (`time.sleep`, the `tqdm` progress bar): recorded as a `Cooldown` event; real time is not modelled.
- `dump_adzuna_ads` (api.py:23-32): file output and `json.dump` are library I/O. `model_dump` is modelled only as `DataModels.Dump`, the field-by-field dict of an ad.
- Logging, `get_date` and the `timer` decorator: wall-clock and output effects. The logged summary `n_pages − errors` is stated by `Api.ProcessedBounds`.
- Pydantic's lax coercions (a numeric string to an int, and so on): a field accepts only its own JSON type, an int where a float is declared, and `null` where `Optional` is declared. Floats are opaque text; no arithmetic is done on them.
- Json.PyStr: a non-integral number is rendered as its JSON text, not as Python's `str()` of the decoded float (`1e3` gives "1000.0" in Python). This matters only for an `id` that is a non-integral number.
- The default argument values of `get_adzuna_ads` and `get_adzuna_ads_page` are not modelled. Every argument is an explicit field of `Query`, so no behaviour is lost.
- JSON booleans are not in the value type. Python would treat `true` as the int 1 in `salary_is_predicted` and in the count.
- `str()` of a list or a dict id gives a placeholder text: dict order is not representable in a `map`.
- `Api.OutcomeOf`: a `results` that is a string or an object would be iterated by `extend`, which appends its characters or its keys. The model treats every `results` that is not a list as the abort.
- The `__main__` block and `app.py` are the program's entry points and its UI; they are not part of this model.
