# HBnB client script and review/user rules, modelled in Dafny

This project models three parts of the HBnB holiday-rental application.

- **The browser script** (`part4/scripts.js`). It covers:
  - the cookie reader `getCookie`;
  - the request wrapper `apiFetch`, which adds the JSON content type and the bearer token;
  - the first-match page router;
  - the sign-in gates of the index and add-review pages;
  - the country facet and the country/price filter of the places list;
  - the place detail page;
  - the login form;
  - the review form.
- **The review endpoints** of the REST API (`part3/app/api/v1/reviews.py`):
  - POST normalises the payload and chooses the author.
  - PUT and DELETE check existence before permission.
  - Each outcome gets its status code and response body.
- **User construction** (`part3/app/models/user.py`):
  - the five validation checks, in their order;
  - the class-wide registry of emails already taken.

Each page handler is a pure function. It maps what the browser supplies to the ordered trace of effects the script causes (`Pages.Effect`). The inputs are:

- the path and the cookie text;
- the query `id`;
- whether the optional elements exist;
- the replies to each request;
- the values of the filter controls.

A `Fetch` effect records a request being issued, and the reply to it is another input. The endpoints are modelled the same way: a pure function from the caller's identity, the JWT claims, the request body and the store of reviews (review id → author id and fields) to the persistence calls made and the reply. Two things are parameters: what the persistence layer answers to a create or an update, and how an update revises a stored review.

Modules:

- `Basics`: `Option` and `Num`. `Num` is a number after JavaScript's `Number()` coercion: an integer, or `NaN`.
- `Text`:
  - `String.prototype.split`, with its inverse `Join`;
  - trimming, over the JavaScript and the Python whitespace sets;
  - the default string sort order;
  - decimal rendering.
- `Cookie`: `getCookie`.
- `Gateway`: `apiFetch`.
- `Routes`: the page router.
- `Listing`: the country facet, the filter and `render`.
- `Pages`: the page handlers and the `DOMContentLoaded` dispatch.
- `ReviewsApi`: POST, PUT and DELETE on reviews.
- `UserModel`: `User.__init__` and the email registry.

Behaviour of the code worth knowing:

- `apiFetch` has no special case for status 401. No reply makes it clear the cookie or redirect, and the index page shows a 401 like any other failure.
- On the place page, a non-ok detail response ends the handler (`return` inside the `try`). The reviews are never requested, and no Add Review button appears. A rejected detail request or an unparsable body does not end it.
- The two requests on the place page are issued one after the other, not in parallel.
- The facet trims countries, but the filter compares the untrimmed `p.country || ""` with the chosen option. So a place whose country has surrounding spaces contributes a facet option that hides that same place (`Listing.PaddedCountryHiddenByItsOwnOption`).

## Model

| member | source | states |
|---|---|---|
| Text.Split | part4/scripts.js:3-4 | `split` with a non-empty separator: the parts joined with the separator give back the input, and no part contains the separator |
| Text.SplitOfFree | part4/scripts.js:3-4 | a string without the separator splits into itself alone |
| Text.SplitOfJoin | part4/scripts.js:3-4 | splitting undoes joining when no part contains the separator's first character |
| Text.Trim | part4/scripts.js:31 | the trimmed text is one slice of the input with only whitespace outside it; it is empty exactly when the input is all whitespace, and otherwise starts and ends with a non-space |
| Text.TrimIdempotent | part4/scripts.js:71 | trimming twice is trimming once |
| Text.LessIrreflexive | part4/scripts.js:71 | no string sorts before itself under the default `sort` order |
| Text.LessTransitive | part4/scripts.js:71 | the default `sort` order is transitive |
| Text.LessTotal | part4/scripts.js:71 | any two different strings are ordered one way or the other |
| Text.Decimal | part4/scripts.js:67 | `String(n)` for a status code is non-empty, all digits, and has no leading zero |
| Text.DecimalRoundTrip | part4/scripts.js:129 | reading the rendered digits back gives the number |
| Cookie.ParseEntry | part4/scripts.js:4 | `const [k,v] = c.split("=")`: the key is the text before the first `=`; the value is absent exactly when there is no `=`, and otherwise runs up to the next `=` or the end |
| Cookie.Lookup | part4/scripts.js:3-5 | the `reduce` starts from "" and the last entry keyed `name` wins; with no such entry the result is "" |
| Cookie.GetCookie | part4/scripts.js:2-6 | `getCookie(name)` is the value of the last entry keyed `name`, or "" when none is |
| Cookie.ParseEntryOfPair | part4/scripts.js:4 | `name=value` without further `=` parses back into its two halves |
| Cookie.SingleEntryReadsBack | part4/scripts.js:2-8 | a cookie text holding one `name=value` entry reads back `value` for `name` |
| Cookie.EntriesOfPairs | part4/scripts.js:3-4 | a cookie text written as `name=value` pairs joined by `"; "` (names and values without `=` or `;`) parses back into exactly those pairs, in order |
| Cookie.CookieReadsBack | part4/scripts.js:2-6 | reading a name from such a cookie text gives the value of the last pair with that name, and "" when no pair has it |
| Gateway.Headers | part4/scripts.js:15-16 | the headers are the caller's plus Content-Type; Content-Type defaults to JSON unless the caller sets it; a non-empty token overrides Authorization with `Bearer <token>`; an empty token keeps the caller's Authorization; every other caller header passes through |
| Gateway.PlainRequest | part4/scripts.js:13-19 | `apiFetch(path)` with no options issues a GET with no body whose only headers are `Content-Type: application/json` and, when there is a token, `Authorization: Bearer <token>` |
| Gateway.AuthorizationHeader | part4/scripts.js:14-18 | a request carries Authorization exactly when there is a token or the caller supplied one; a token always wins over the caller's value; without a token the headers are the JSON default overridden by the caller's |
| Gateway.BearerFromCookie | part4/scripts.js:2-18 | with the cookie text `token=<t>`, `getCookie("token")` is `t` and every request sends `Bearer <t>` |
| Routes.PagesDisjoint | part4/scripts.js:26-174 | no path matches two pages' suffix tests, so the order of the tests never decides between pages |
| Routes.Dispatch | part4/scripts.js:26-174 | the handler chosen is the page whose suffix test the path passes, and none when no test passes |
| Listing.Insert | part4/scripts.js:71 | adding to a strictly sorted sequence keeps it strictly sorted, with the new element added |
| Listing.FacetValues | part4/scripts.js:71 | `places.map(p => (p.country\|\|"").trim())`, position by position |
| Listing.SortedDistinct | part4/scripts.js:71 | `Array.from(new Set(values.filter(Boolean))).sort()` holds each non-empty value once, in strictly ascending order, and nothing else |
| Listing.Countries | part4/scripts.js:71 | the facet is strictly sorted and holds exactly the non-empty trimmed countries of the places |
| Listing.SortedHeadLeast | part4/scripts.js:71 | the head of a strictly sorted sequence occurs once and sorts before every other element |
| Listing.SortedUnique | part4/scripts.js:71 | two strictly sorted sequences with the same elements are equal |
| Listing.FacetIsTheSortedSet | part4/scripts.js:71 | any strictly sorted sequence of exactly the non-empty trimmed countries is the facet |
| Listing.Keep | part4/scripts.js:83-87 | `filter` keeps an order-preserving subsequence with every kept element's multiplicity and no other element |
| Listing.KeepIdempotent | part4/scripts.js:83-87 | filtering a filtered list by the same test changes nothing |
| Listing.KeepCongruent | part4/scripts.js:83-87 | filters whose tests agree everywhere keep the same elements |
| Listing.VisibleExactly | part4/scripts.js:83-87 | a place is listed exactly when it passes the country and price tests, as often as it occurs in the fetched list, and in the same order |
| Listing.VisibleIdempotent | part4/scripts.js:83-87 | re-filtering the listed places with the same controls lists the same places |
| Listing.AnyCountryOmitsCountryTest | part4/scripts.js:84 | with the country control on `__all__`, only the price test filters |
| Listing.NoLimitStillDropsNaN | part4/scripts.js:80-85 | with the price control on `__all__` (ceiling Infinity), a price that coerces to NaN still fails `<=` and the place is hidden |
| Listing.PaddedCountryHiddenByItsOwnOption | part4/scripts.js:71-84 | a country with surrounding spaces yields a facet option, and choosing that option hides the place it came from |
| Listing.Render | part4/scripts.js:78-104 | "No places match the filter." exactly when no place passes; otherwise one card per listed place, in order |
| Listing.ReplayKeepsLatest | part4/scripts.js:79-108 | after any run of `change` events each control holds its most recent value (or its starting one), and the list shown after the last event is the one those two values select |
| Listing.ChangesCommute | part4/scripts.js:106-108 | a country change then a price change shows the same controls and list as the reverse order, and repeating a change shows what it already showed |
| Pages.LoginSubmit | part4/scripts.js:29-51 | the login request goes first, without Authorization; an ok, parsable reply writes the token cookie and moves to index.html; any other outcome stays on the page with one alert: "Login failed: <text>" for a non-ok status, and "Login error: <message>" for a rejected request or an unparsable body |
| Pages.LoginWritesToken | part4/scripts.js:45-47 | a 2xx login reply with a token writes that token and ends at index.html |
| Pages.IndexOutcome | part4/scripts.js:66-111 | the index outcome makes no request and stays on the page; a non-ok reply shows "Error: Failed to load places: <status>"; a rejected request or an unparsable body shows "Error: <message>"; an ok, parsed reply makes exactly three effects: the country options, the filter listeners, and the first rendering |
| Pages.IndexLoad | part4/scripts.js:57-111 | no token means going to login.html and nothing else; with a token the page shows "Loading places…", issues the places request, then shows the index outcome of the reply, and never navigates |
| Pages.IndexRequests | part4/scripts.js:57-66 | with a token the index page issues exactly one request, for `/api/v1/places/`, carrying `Bearer <token>` |
| Pages.ReviewCardOf | part4/scripts.js:152-155 | the author reads "Anonymous" exactly when the review has no user, and is the user's full name otherwise; the rating is a dash exactly when it is null or absent (so 0 shows as 0); the comment is the review's comment when that is non-empty, and empty exactly when it is missing or empty |
| Pages.DetailView | part4/scripts.js:131-139 | the location is the city (or nothing), followed by ", <country>" exactly for a non-empty country, and is empty exactly when both are missing or empty; the host is a dash exactly when there is no owner, and the owner's full name otherwise; the description is the place's own when non-empty, and empty exactly when it is missing or empty |
| Pages.DetailEffect | part4/scripts.js:128-140 | the place block is filled exactly when the reply is ok and parses; a non-ok reply shows "Error <status>"; a rejected request or an unparsable body shows "Failed to load place: <message>"; every text goes to the place block |
| Pages.ReviewsEffect | part4/scripts.js:143-164 | a non-empty review array yields one card per review, in order; an empty array or a non-array yields "No reviews yet."; a non-ok reply yields "Couldn’t load reviews (<status>)."; a rejected request or an unparsable body yields "Error loading reviews: <message>" |
| Pages.PlaceLoad | part4/scripts.js:116-170 | the place page never navigates; without an id it only says "Missing place id"; otherwise it requests the detail |
| Pages.PlaceRequestsOnFailure | part4/scripts.js:123-129 | without an id no request is made; after a non-ok detail reply, only the detail request was made |
| Pages.PlaceRequestsOnSuccess | part4/scripts.js:128-144 | otherwise exactly two requests are made, detail then reviews |
| Pages.PlaceDetailFailure | part4/scripts.js:129 | a non-ok detail reply ends the page with "Error <status>", with nothing shown about reviews and no Add Review button |
| Pages.PlaceReviewsShown | part4/scripts.js:143-164 | when the detail reply is not a failure, the reviews outcome is shown |
| Pages.PlaceAddReviewShown | part4/scripts.js:166-169 | the Add Review button for this id appears exactly when there is a token and the detail reply was not a failure |
| Pages.PlaceAddReviewLast | part4/scripts.js:166-170 | nothing follows the Add Review button |
| Pages.PlaceOrder | part4/scripts.js:123-170 | past a detail reply that is not a failure, the effects are, in this order: "Logged In" (with a token and a login link), the detail request, the detail outcome, the reviews request, the reviews outcome, and the Add Review button (with a token) |
| Pages.PlaceDetailOrder | part4/scripts.js:123-129 | after a failed detail reply, the effects are "Logged In" (with a token and a login link), the detail request and "Error <status>", and nothing else |
| Pages.PlaceLoggedIn | part4/scripts.js:123-124 | the login link reads "Logged In" exactly when there is an id, a token and a login link |
| Pages.DetailFailureHidesReviews | part4/scripts.js:129-159 | with a 500 detail reply and an empty review list available, the page shows "Error 500", never "No reviews yet.", and makes a single request |
| Pages.AddReviewLoad | part4/scripts.js:175-178 | the add-review page redirects to index.html exactly when there is no token, and otherwise only binds the submit handler of `revForm`; it makes no request on load |
| Pages.FailureText | part4/scripts.js:190-192 | the alert is the first truthy of `message`, `msg` and `error`, else "Error <status>", and is never empty |
| Pages.ReviewSubmit | part4/scripts.js:178-197 | one POST to `/api/v1/reviews/` with the trimmed comment, then one effect: an ok reply goes to the place page (and only an ok reply does), a non-ok reply alerts the server's message and stays, a rejection alerts "Failed: <message>" |
| Pages.RejectedRatingShowsServerMessage | part4/scripts.js:190-193 | a 400 whose body carries "rating must be 1-5" as `message` alerts exactly that and stays on the page |
| Pages.OnLoad | part4/scripts.js:22-200 | an unknown path does nothing; the login page makes no request on load; the index page without a token goes to login.html; the place page without an id says so; the add-review page without a token goes to index.html, and makes no request on load |
| ReviewsApi.NormalizeText | part3/app/api/v1/reviews.py:32-33 | `text` becomes `comment`, with every other key kept, only when `comment` is absent; otherwise the payload is unchanged |
| ReviewsApi.NormalizeTextIdempotent | part3/app/api/v1/reviews.py:76-77 | normalising twice is normalising once, and afterwards no `text` stands without a `comment` |
| ReviewsApi.AuthorOf | part3/app/api/v1/reviews.py:36-39 | a non-admin posts as itself; an admin posts as the truthy `user_id` it supplies, or else as itself |
| ReviewsApi.Post | part3/app/api/v1/reviews.py:25-45 | exactly one create call, with the normalised payload plus the chosen author; a `ValueError` is a 400 `{'error': msg}`; success is a 201 with the created review |
| ReviewsApi.PostSendsNormalized | part3/app/api/v1/reviews.py:29-39 | the payload handed to create is already normalised |
| ReviewsApi.Put | part3/app/api/v1/reviews.py:63-83 | an unknown review gets exactly 404 `{"message": "Review not found"}`; a caller who is neither admin nor author gets exactly 403 `{"error": "Unauthorized action"}`; neither makes an update call; otherwise one update with the normalised payload, then 200 "Review updated successfully" or 400 with the error |
| ReviewsApi.Delete | part3/app/api/v1/reviews.py:86-99 | the same 404 and 403 replies as for PUT, with no delete call; otherwise one delete and 200 "Review deleted successfully" |
| ReviewsApi.AccessDecision | part3/app/api/v1/reviews.py:67-73 | the existence check comes first: an unknown id is not-found for everyone, and a known one is forbidden exactly to a non-admin who is not its author |
| ReviewsApi.RefusedChangesNothing | part3/app/api/v1/reviews.py:67-73 | a refused PUT or DELETE leaves the store as it was, whatever an update would have done |
| ReviewsApi.AllowedPutRevises | part3/app/api/v1/reviews.py:75-81 | a permitted PUT revises exactly the addressed review, with the normalised payload, and leaves every other review alone |
| ReviewsApi.AllowedDeleteRemoves | part3/app/api/v1/reviews.py:98-99 | a permitted DELETE removes exactly the addressed review and leaves every other review alone |
| ReviewsApi.MissingClaimIsNotAdmin | part3/app/api/v1/reviews.py:28 | a token without `is_admin` posts as itself whatever `user_id` it sends, and cannot delete another user's review |
| UserModel.NewUser | part3/app/models/user.py:20-35 | a user is built exactly when both names fit in 50 characters and the email is non-blank, contains `@` and is not taken; the user then holds the arguments as given and the registry grows by exactly that email; on any refusal the registry is unchanged |
| UserModel.RefusalOrder | part3/app/models/user.py:21-30 | each refusal is raised exactly when its check fails and every earlier check passed |
| UserModel.ConstructAll | part3/app/models/user.py:9-35 | a run of constructions gives one outcome per request and never shrinks the registry |
| UserModel.RegistryGrowsByConstructedEmails | part3/app/models/user.py:29-35 | after any run, the registry is the initial one plus exactly the emails of the users constructed |
| UserModel.ConstructedEmailsWereFree | part3/app/models/user.py:29-30 | no email registered during a run was taken before it |
| UserModel.ConstructedEmailsDistinct | part3/app/models/user.py:29-35 | the users constructed in a run have pairwise distinct emails |
| UserModel.ConstructedAsGiven | part3/app/models/user.py:32-34 | every constructed user carries its arguments untrimmed |

## Left out

- Browser and server I/O are not modelled: `fetch`, the DOM, `alert`, `location`, cookies being written, Flask routing and the database. Each becomes an input (a reply, a cookie text, whether an element exists) or an effect in the trace.
- `decodeURIComponent` and `encodeURIComponent` are taken as the identity. A malformed `%` sequence, which would throw, is not modelled.
- `Number()` coercion is not written out. A price or rating is the coerced value, an integer or `NaN`. Fractions, `Infinity` and floating point are not modelled. The `__all__` ceiling is a separate `NoLimit` value.
- `Text.Less` compares characters as Unicode scalar values. JavaScript's `sort` compares UTF-16 code units, so the two orders can differ on characters outside the Basic Multilingual Plane.
- JSON fields are modelled at the types the script reads them as. A non-string `country` or `title`, and a places body that is not an array, are not modelled.
- JSON numbers in review payloads and JWT claims are modelled as integers (`ReviewsApi.Value`). A fractional `user_id` or `is_admin`, such as `0.0` (falsy in Python), is not modelled.
- Absent page elements would throw in the script, so they are assumed present: `list`, `$country` and `$price` on the index page; `placeEl`, `reviewsEl` and `addCta` on the place page; `revForm`, `rating` and `comment` on the add-review page; `email` and `password` on the login page. The optional ones (`login-form`, `loginLink`) are inputs.
- Pages.OnLoad: its contract states only the routing and the gates. What each page does afterwards is stated on the page handlers and their lemmas.
- Pages.PlaceLoad: its own contract is partial. The full effect order is stated by `Pages.PlaceOrder` (detail reply not a failure) and `Pages.PlaceDetailOrder` (failed detail reply). The login link is stated by `Pages.PlaceLoggedIn`.
- The GET review endpoints, `marshal_with` output shaping, JWT decoding and signature checks, and the facade's own validation are not modelled. The request body is taken to be an object, or absent.
- `BaseModel`, the SQLAlchemy column declarations and relationships are not modelled. A `None` or non-string name, which would make `len()` raise a `TypeError`, is not modelled either.
- A create is recorded as a call but not applied to the store (`ReviewsApi.Apply`), since the persistence layer picks the new id. What an update does to a stored review, including a failed one, is the `revise` parameter, since it is the facade's own logic.
